/**
 * Records as the Lightning components hold them in local state: a record is a
 * map from field API name to value, exactly as a JavaScript object literal is,
 * and reading a field that is not there gives `undefined`.
 *
 * The platform services the components call (record create/update/delete, the
 * message bus) are not modelled; their results enter as the parameters below.
 */
module Records {

  /** The JavaScript values that reach a record field. */
  datatype Value = Undefined | Str(s: string) | Num(n: int)

  type Record = map<string, Value>

  datatype Option<T> = None | Some(value: T)

  /** How a platform `updateRecord` or `deleteRecord` call settled. */
  datatype Outcome = Success | Failure

  /** How a platform `createRecord` call settled: the new record's id, or an error. */
  datatype CreateOutcome = Created(id: string) | CreateFailed

  // Field API names of the Test_Student__c object.
  const IdField := "Id"
  const NameField := "Name__c"
  const DobField := "DOB__c"
  const SexField := "Sex__c"
  const LanguagesField := "Languages__c"
  const CountryField := "Country__c"
  const HobbiesField := "Hobbies__c"

  // Field API names of the Account object.
  const AccountNameField := "Name"
  const IndustryField := "Industry"
  const PhoneField := "Phone"

  /** The six Student fields a form fills in. */
  const StudentFormKeys: set<string> :=
    {NameField, DobField, SexField, LanguagesField, CountryField, HobbiesField}

  /** The seven fields of a Student row in the student tables. */
  const StudentKeys: set<string> := {IdField} + StudentFormKeys

  /** The three Account fields the account form fills in. */
  const AccountFormKeys: set<string> := {AccountNameField, IndustryField, PhoneField}

  /** The four fields of an Account row in the account table. */
  const AccountKeys: set<string> := {IdField} + AccountFormKeys

  /** `r.k` in JavaScript: a missing property reads as `undefined`. */
  function Get(r: Record, k: string): (v: Value)
    ensures k in r ==> v == r[k]
    ensures k !in r ==> v == Undefined
  {
    if k in r then r[k] else Undefined
  }

  /** `r.Id`: the key every list operation matches on (with `===`). */
  function IdOf(r: Record): (v: Value)
    ensures IdField in r ==> v == r[IdField]
    ensures IdField !in r ==> v == Undefined
  {
    Get(r, IdField)
  }

  /** `{ ...base, ...top }`: every field of `top`, and the fields of `base` that `top` lacks. */
  function Overlay(base: Record, top: Record): (r: Record)
    ensures r.Keys == base.Keys + top.Keys
    ensures forall k :: k in top ==> r[k] == top[k]
    ensures forall k :: k in base && k !in top ==> r[k] == base[k]
  {
    base + top
  }

  /**
   * The seven-field Student record the student tables build from a bus message
   * (and inlineStudentDisplay builds from its edit buffer before saving): each
   * field is copied from the source object, `undefined` where it is missing.
   */
  function StudentRecord(m: Record): (r: Record)
    ensures r.Keys == StudentKeys
    ensures forall k :: k in StudentKeys ==> r[k] == Get(m, k)
  {
    map[IdField := Get(m, IdField),
        NameField := Get(m, NameField),
        DobField := Get(m, DobField),
        SexField := Get(m, SexField),
        LanguagesField := Get(m, LanguagesField),
        CountryField := Get(m, CountryField),
        HobbiesField := Get(m, HobbiesField)]
  }

  /** The four-field Account record accountDataTable builds from a bus message. */
  function AccountRecord(m: Record): (r: Record)
    ensures r.Keys == AccountKeys
    ensures forall k :: k in AccountKeys ==> r[k] == Get(m, k)
  {
    map[IdField := Get(m, IdField),
        AccountNameField := Get(m, AccountNameField),
        IndustryField := Get(m, IndustryField),
        PhoneField := Get(m, PhoneField)]
  }

  /** A record that already has exactly the Student row's fields is copied unchanged. */
  lemma StudentRecordOfRow(m: Record)
    requires m.Keys == StudentKeys
    ensures StudentRecord(m) == m
  {
    var r := StudentRecord(m);
    forall k | k in m ensures r[k] == m[k] {
      assert Get(m, k) == m[k];
    }
  }

  /** A record that already has exactly the Account row's fields is copied unchanged. */
  lemma AccountRecordOfRow(m: Record)
    requires m.Keys == AccountKeys
    ensures AccountRecord(m) == m
  {
    var r := AccountRecord(m);
    forall k | k in m ensures r[k] == m[k] {
      assert Get(m, k) == m[k];
    }
  }
}
