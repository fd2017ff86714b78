/**
 * inlineStudentDisplay: a table of Student records fed by the Student message
 * channel, with an edit form (an edit buffer `editRecord` filled from a row and
 * changed field by field) and a delete row action.
 */
module InlineStudentDisplay {
  import opened Records
  import opened Subscriptions
  import opened RecordLists

  class InlineStudentDisplay {
    var records: seq<Record>
    var isEditing: bool
    var editRecord: Record
    var subscription: Option<Subscription>

    /** Every row the table shows has exactly the seven Student fields. */
    ghost predicate Valid()
      reads this
    {
      forall r :: r in records ==> r.Keys == StudentKeys
    }

    constructor ()
      ensures Valid()
      ensures records == [] && !isEditing && editRecord == map[] && subscription == None
    {
      records := [];
      isEditing := false;
      editRecord := map[];
      subscription := None;
    }

    method SubscribeToMessageChannel(handle: Subscription)
      requires Valid()
      modifies this
      ensures Valid()
      ensures subscription == Subscribed(old(subscription), handle)
      ensures records == old(records) && isEditing == old(isEditing) && editRecord == old(editRecord)
    {
      if subscription.None? {
        subscription := Some(handle);
      }
    }

    /** A Student message arrives: its seven-field record goes in front of the list. */
    method HandleMessage(message: Record)
      requires Valid()
      modifies this
      ensures Valid()
      ensures records == [StudentRecord(message)] + old(records)
      ensures isEditing == old(isEditing) && editRecord == old(editRecord)
      ensures subscription == old(subscription)
    {
      records := [StudentRecord(message)] + records;
    }

    /**
     * `edit` opens the edit form on `row`, `delete` deletes it (`deleted` is the
     * Id sent), any other action does nothing.
     */
    method HandleRowAction(actionName: string, row: Record, outcome: Outcome) returns (deleted: Option<Value>)
      requires Valid()
      modifies this
      ensures deleted.Some? <==> actionName == "delete"
      ensures deleted.Some? ==> deleted.value == IdOf(row)
      ensures Valid()
      ensures actionName == "edit" ==> editRecord == row && isEditing && records == old(records)
      ensures actionName == "delete" ==>
        editRecord == old(editRecord) && isEditing == old(isEditing) &&
        records == (if outcome.Success? then RemoveId(old(records), IdOf(row)) else old(records))
      ensures actionName != "edit" && actionName != "delete" ==>
        records == old(records) && isEditing == old(isEditing) && editRecord == old(editRecord)
      ensures subscription == old(subscription)
    {
      deleted := None;
      if actionName == "edit" {
        StartEditRecord(row);
      } else if actionName == "delete" {
        var id := DeleteRecord(row, outcome);
        deleted := Some(id);
      }
    }

    /** The edit buffer becomes a copy of `row` and the edit form opens. */
    method StartEditRecord(row: Record)
      requires Valid()
      modifies this
      ensures Valid()
      ensures editRecord == row && isEditing
      ensures records == old(records) && subscription == old(subscription)
    {
      editRecord := row;
      isEditing := true;
    }

    /** Writes one field of the edit buffer; shared by the six field handlers. */
    method SetEditField(field: string, value: string)
      requires Valid()
      modifies this
      ensures Valid()
      ensures editRecord == old(editRecord)[field := Str(value)]
      ensures records == old(records) && isEditing == old(isEditing)
      ensures subscription == old(subscription)
    {
      editRecord := editRecord[field := Str(value)];
    }

    method HandleEditNameChange(value: string)
      requires Valid()
      modifies this
      ensures Valid()
      ensures editRecord == old(editRecord)[NameField := Str(value)]
      ensures records == old(records) && isEditing == old(isEditing)
      ensures subscription == old(subscription)
    {
      SetEditField(NameField, value);
    }

    method HandleEditDOBChange(value: string)
      requires Valid()
      modifies this
      ensures Valid()
      ensures editRecord == old(editRecord)[DobField := Str(value)]
      ensures records == old(records) && isEditing == old(isEditing)
      ensures subscription == old(subscription)
    {
      SetEditField(DobField, value);
    }

    method HandleEditSexChange(value: string)
      requires Valid()
      modifies this
      ensures Valid()
      ensures editRecord == old(editRecord)[SexField := Str(value)]
      ensures records == old(records) && isEditing == old(isEditing)
      ensures subscription == old(subscription)
    {
      SetEditField(SexField, value);
    }

    method HandleEditLanguagesChange(value: string)
      requires Valid()
      modifies this
      ensures Valid()
      ensures editRecord == old(editRecord)[LanguagesField := Str(value)]
      ensures records == old(records) && isEditing == old(isEditing)
      ensures subscription == old(subscription)
    {
      SetEditField(LanguagesField, value);
    }

    method HandleEditCountryChange(value: string)
      requires Valid()
      modifies this
      ensures Valid()
      ensures editRecord == old(editRecord)[CountryField := Str(value)]
      ensures records == old(records) && isEditing == old(isEditing)
      ensures subscription == old(subscription)
    {
      SetEditField(CountryField, value);
    }

    method HandleEditHobbiesChange(value: string)
      requires Valid()
      modifies this
      ensures Valid()
      ensures editRecord == old(editRecord)[HobbiesField := Str(value)]
      ensures records == old(records) && isEditing == old(isEditing)
      ensures subscription == old(subscription)
    {
      SetEditField(HobbiesField, value);
    }

    /**
     * Sends the seven Student fields of the edit buffer as an update (`sent`).
     * On success every record with the buffer's Id gets those fields merged in
     * and the form closes; on failure the list and the form stay as they are.
     */
    method SaveChanges(outcome: Outcome) returns (sent: Record)
      requires Valid()
      modifies this
      ensures Valid()
      ensures sent == StudentRecord(old(editRecord))
      ensures outcome.Success? ==>
        records == MergeWhereId(old(records), IdOf(old(editRecord)), sent) && !isEditing
      ensures outcome.Failure? ==> records == old(records) && isEditing == old(isEditing)
      ensures Ids(records) == Ids(old(records))
      ensures editRecord == old(editRecord) && subscription == old(subscription)
    {
      sent := StudentRecord(editRecord);
      if outcome.Success? {
        var merged := MergeWhereId(records, IdOf(editRecord), sent);
        MergeKeepsKeys(records, IdOf(editRecord), sent, StudentKeys);
        MergeKeepsIds(records, IdOf(editRecord), sent);
        records := merged;
        isEditing := false;
      }
    }

    method CancelEdit()
      requires Valid()
      modifies this
      ensures Valid()
      ensures !isEditing
      ensures records == old(records) && editRecord == old(editRecord)
      ensures subscription == old(subscription)
    {
      isEditing := false;
    }

    /**
     * Deletes `row` on the platform (`deletedId` is the Id sent); when that
     * succeeds, every record with its Id leaves the list.
     */
    method DeleteRecord(row: Record, outcome: Outcome) returns (deletedId: Value)
      requires Valid()
      modifies this
      ensures deletedId == IdOf(row)
      ensures Valid()
      ensures outcome.Success? ==> records == RemoveId(old(records), IdOf(row))
      ensures outcome.Failure? ==> records == old(records)
      ensures isEditing == old(isEditing) && editRecord == old(editRecord)
      ensures subscription == old(subscription)
    {
      deletedId := IdOf(row);
      if outcome.Success? {
        records := RemoveId(records, IdOf(row));
      }
    }
  }
}
