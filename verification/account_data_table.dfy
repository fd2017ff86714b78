/**
 * accountDataTable: a table of Account records fed by the account-created
 * message channel. Editing asks for three new values (the browser's `prompt`,
 * whose answers are parameters here) and falls back to the row's value for
 * every answer that is empty or cancelled.
 */
module AccountDataTable {
  import opened Records
  import opened Subscriptions
  import opened RecordLists

  /** JavaScript truthiness of a `prompt` answer: not cancelled (`null`) and not empty. */
  predicate Truthy(answer: Option<string>): (t: bool)
    ensures answer.None? ==> !t
    ensures answer.Some? ==> (t <==> |answer.value| > 0)
  {
    answer.Some? && answer.value != ""
  }

  /** The field value sent for one prompt: the answer when truthy, else the row's current value. */
  function Fallback(answer: Option<string>, current: Value): (v: Value)
    ensures Truthy(answer) ==> v == Str(answer.value)
    ensures !Truthy(answer) ==> v == current
  {
    if Truthy(answer) then Str(answer.value) else current
  }

  /**
   * The fields `editRecord` sends for `row` given the three prompt answers, or
   * None when no answer is truthy (then nothing is sent).
   */
  function EditFields(row: Record, name: Option<string>, industry: Option<string>, phone: Option<string>)
    : (f: Option<Record>)
    ensures f.None? <==> !Truthy(name) && !Truthy(industry) && !Truthy(phone)
    ensures f.Some? ==> f.value.Keys == AccountKeys && f.value[IdField] == IdOf(row)
    ensures f.Some? ==> f.value[AccountNameField] == (if Truthy(name) then Str(name.value) else Get(row, AccountNameField))
    ensures f.Some? ==> f.value[IndustryField] == (if Truthy(industry) then Str(industry.value) else Get(row, IndustryField))
    ensures f.Some? ==> f.value[PhoneField] == (if Truthy(phone) then Str(phone.value) else Get(row, PhoneField))
  {
    if Truthy(name) || Truthy(industry) || Truthy(phone) then
      Some(map[IdField := IdOf(row),
               AccountNameField := Fallback(name, Get(row, AccountNameField)),
               IndustryField := Fallback(industry, Get(row, IndustryField)),
               PhoneField := Fallback(phone, Get(row, PhoneField))])
    else None
  }

  /**
   * Accepting a prompt's default (the row's own value) sends that value back:
   * answering every prompt with the row's current non-empty strings sends a
   * copy of the row's four fields.
   */
  lemma EditWithDefaultsResendsRow(row: Record, name: string, industry: string, phone: string)
    requires Get(row, AccountNameField) == Str(name) && name != ""
    requires Get(row, IndustryField) == Str(industry)
    requires Get(row, PhoneField) == Str(phone)
    ensures EditFields(row, Some(name), Some(industry), Some(phone)) == Some(AccountRecord(row))
  {
    var f := EditFields(row, Some(name), Some(industry), Some(phone)).value;
    var a := AccountRecord(row);
    assert f.Keys == a.Keys;
    forall k | k in f ensures f[k] == a[k] {
      assert k in AccountKeys;
    }
  }

  class AccountDataTable {
    var records: seq<Record>
    var subscription: Option<Subscription>

    /** Every row the table shows has exactly the four Account fields. */
    ghost predicate Valid()
      reads this
    {
      forall r :: r in records ==> r.Keys == AccountKeys
    }

    constructor ()
      ensures Valid()
      ensures records == [] && subscription == None
    {
      records := [];
      subscription := None;
    }

    method SubscribeToMessageChannel(handle: Subscription)
      requires Valid()
      modifies this
      ensures Valid()
      ensures subscription == Subscribed(old(subscription), handle)
      ensures records == old(records)
    {
      if subscription.None? {
        subscription := Some(handle);
      }
    }

    /** An Account message arrives: its four-field record goes in front of the list. */
    method HandleMessage(message: Record)
      requires Valid()
      modifies this
      ensures Valid()
      ensures records == [AccountRecord(message)] + old(records)
      ensures subscription == old(subscription)
    {
      records := [AccountRecord(message)] + records;
    }

    /**
     * `edit` and `delete` act on `row` (`sent` is what an edit sends, `deleted`
     * the Id a delete sends); any other action does nothing.
     */
    method HandleRowAction(actionName: string, row: Record,
                           name: Option<string>, industry: Option<string>, phone: Option<string>,
                           outcome: Outcome) returns (sent: Option<Record>, deleted: Option<Value>)
      requires Valid()
      modifies this
      ensures deleted.Some? <==> actionName == "delete"
      ensures deleted.Some? ==> deleted.value == IdOf(row)
      ensures Valid()
      ensures actionName == "edit" ==> sent == EditFields(row, name, industry, phone)
      ensures actionName == "edit" && sent.Some? && outcome.Success? ==>
        records == MergeWhereId(old(records), IdOf(row), sent.value)
      ensures actionName == "delete" && outcome.Success? ==> records == RemoveId(old(records), IdOf(row))
      ensures actionName != "edit" ==> sent.None?
      ensures actionName != "edit" && actionName != "delete" ==> records == old(records)
      ensures outcome.Failure? ==> records == old(records)
      ensures actionName == "edit" && sent.None? ==> records == old(records)
      ensures subscription == old(subscription)
    {
      sent, deleted := None, None;
      if actionName == "edit" {
        sent := EditRecord(row, name, industry, phone, outcome);
      } else if actionName == "delete" {
        var id := DeleteRecord(row, outcome);
        deleted := Some(id);
      }
    }

    /**
     * Edits `row` with the three prompt answers. Nothing is sent and nothing
     * changes when no answer is truthy; otherwise the fields are sent as an
     * update and, on success, merged into every record with the row's Id.
     */
    method EditRecord(row: Record, name: Option<string>, industry: Option<string>, phone: Option<string>,
                      outcome: Outcome) returns (sent: Option<Record>)
      requires Valid()
      modifies this
      ensures Valid()
      ensures sent == EditFields(row, name, industry, phone)
      ensures sent.Some? && outcome.Success? ==> records == MergeWhereId(old(records), IdOf(row), sent.value)
      ensures sent.None? || outcome.Failure? ==> records == old(records)
      ensures Ids(records) == Ids(old(records))
      ensures subscription == old(subscription)
    {
      sent := EditFields(row, name, industry, phone);
      if sent.Some? && outcome.Success? {
        var merged := MergeWhereId(records, IdOf(row), sent.value);
        MergeKeepsKeys(records, IdOf(row), sent.value, AccountKeys);
        MergeKeepsIds(records, IdOf(row), sent.value);
        records := merged;
      }
    }

    /**
     * Deletes `row` on the platform (`deletedId` is the Id sent); when that
     * succeeds, every record with its Id leaves the list.
     */
    method DeleteRecord(row: Record, outcome: Outcome) returns (deletedId: Value)
      requires Valid()
      modifies this
      ensures deletedId == IdOf(row)
      ensures Valid()
      ensures outcome.Success? ==> records == RemoveId(old(records), IdOf(row))
      ensures outcome.Failure? ==> records == old(records)
      ensures subscription == old(subscription)
    {
      deletedId := IdOf(row);
      if outcome.Success? {
        records := RemoveId(records, IdOf(row));
      }
    }
  }
}
