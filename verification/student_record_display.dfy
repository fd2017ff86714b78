/**
 * studentRecordDisplay: a read-only list of Students fed by the
 * student-created message channel. Each message is appended with its fields
 * renamed to lower-case display names and a timestamp as its id.
 */
module StudentRecordDisplay {
  import opened Records
  import opened Subscriptions

  // Field names of a displayed row.
  const DisplayIdField := "id"
  const DisplayNameField := "name"
  const DisplayDobField := "dob"
  const DisplaySexField := "sex"
  const DisplayLanguagesField := "languages"
  const DisplayCountryField := "country"
  const DisplayHobbiesField := "hobbies"

  /** The six displayed fields, each fed by one Student field of the message. */
  const DisplayColumnKeys: set<string> :=
    {DisplayNameField, DisplayDobField, DisplaySexField, DisplayLanguagesField, DisplayCountryField, DisplayHobbiesField}

  const DisplayKeys: set<string> := {DisplayIdField} + DisplayColumnKeys

  /** The Student field each display field is copied from. */
  function SourceField(displayField: string): (f: string)
    requires displayField in DisplayColumnKeys
    ensures f in StudentFormKeys
  {
    if displayField == DisplayNameField then NameField
    else if displayField == DisplayDobField then DobField
    else if displayField == DisplaySexField then SexField
    else if displayField == DisplayLanguagesField then LanguagesField
    else if displayField == DisplayCountryField then CountryField
    else HobbiesField
  }

  /** Distinct display fields come from distinct Student fields: the renaming loses nothing. */
  lemma SourceFieldInjective(a: string, b: string)
    requires a in DisplayColumnKeys && b in DisplayColumnKeys
    requires SourceField(a) == SourceField(b)
    ensures a == b
  {
  }

  /** The row `handleMessage` builds from a message received at time `now` (`Date.now()`). */
  function DisplayRecord(message: Record, now: int): (r: Record)
    ensures r.Keys == DisplayKeys
    ensures r[DisplayIdField] == Num(now)
    ensures forall k :: k in DisplayColumnKeys ==> r[k] == Get(message, SourceField(k))
  {
    map[DisplayIdField := Num(now),
        DisplayNameField := Get(message, NameField),
        DisplayDobField := Get(message, DobField),
        DisplaySexField := Get(message, SexField),
        DisplayLanguagesField := Get(message, LanguagesField),
        DisplayCountryField := Get(message, CountryField),
        DisplayHobbiesField := Get(message, HobbiesField)]
  }

  // `label` is a Dafny keyword, so the column label is named `heading`.
  datatype Column = Column(heading: string, fieldName: string)

  /** The `columns` getter: one column per displayed field except the id. */
  function Columns(): (cs: seq<Column>)
    ensures |cs| == 6
    ensures forall i, j :: 0 <= i < j < |cs| ==> cs[i].fieldName != cs[j].fieldName
  {
    [Column("Name", DisplayNameField),
     Column("DOB", DisplayDobField),
     Column("Sex", DisplaySexField),
     Column("Languages", DisplayLanguagesField),
     Column("Country", DisplayCountryField),
     Column("Hobbies", DisplayHobbiesField)]
  }

  function ColumnFieldNames(cs: seq<Column>): set<string> {
    set c | c in cs :: c.fieldName
  }

  /** The columns show exactly the fields of a built row other than its id. */
  lemma ColumnsMatchRows(message: Record, now: int)
    ensures ColumnFieldNames(Columns()) == DisplayRecord(message, now).Keys - {DisplayIdField}
  {
    var cs := Columns();
    assert cs[0].fieldName == DisplayNameField && cs[1].fieldName == DisplayDobField;
    assert cs[2].fieldName == DisplaySexField && cs[3].fieldName == DisplayLanguagesField;
    assert cs[4].fieldName == DisplayCountryField && cs[5].fieldName == DisplayHobbiesField;
    assert cs[0] in cs && cs[1] in cs && cs[2] in cs && cs[3] in cs && cs[4] in cs && cs[5] in cs;
    assert ColumnFieldNames(cs) == DisplayColumnKeys;
  }

  class StudentRecordDisplay {
    var records: seq<Record>
    var subscription: Option<Subscription>

    /** Every row has exactly the seven display fields, its id a number. */
    ghost predicate Valid()
      reads this
    {
      forall r :: r in records ==> r.Keys == DisplayKeys && r[DisplayIdField].Num?
    }

    constructor ()
      ensures Valid()
      ensures records == [] && subscription == None
    {
      records := [];
      subscription := None;
    }

    method SubscribeToMessageChannel(handle: Subscription)
      requires Valid()
      modifies this
      ensures Valid()
      ensures subscription == Subscribed(old(subscription), handle)
      ensures records == old(records)
    {
      if subscription.None? {
        subscription := Some(handle);
      }
    }

    /** A message arrives at time `now`: its renamed row goes at the end; earlier rows keep their places. */
    method HandleMessage(message: Record, now: int)
      requires Valid()
      modifies this
      ensures Valid()
      ensures records == old(records) + [DisplayRecord(message, now)]
      ensures |records| == |old(records)| + 1
      ensures forall i :: 0 <= i < |old(records)| ==> records[i] == old(records)[i]
      ensures subscription == old(subscription)
    {
      records := records + [DisplayRecord(message, now)];
    }
  }
}
