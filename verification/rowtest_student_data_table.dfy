/**
 * rowtestStudentDataTable: a table of Student records fed by the Student
 * message channel, with an edit modal whose buffer `editRecord` is written
 * field by field by name, and a delete row action that needs no platform call.
 */
module RowtestStudentDataTable {
  import opened Records
  import opened Subscriptions
  import opened RecordLists

  class RowtestStudentDatatable {
    var records: seq<Record>
    var isModalOpen: bool
    var editRecord: Record
    var subscription: Option<Subscription>

    constructor ()
      ensures records == [] && !isModalOpen && editRecord == map[] && subscription == None
    {
      records := [];
      isModalOpen := false;
      editRecord := map[];
      subscription := None;
    }

    method SubscribeToMessageChannel(handle: Subscription)
      modifies this
      ensures subscription == Subscribed(old(subscription), handle)
      ensures records == old(records) && isModalOpen == old(isModalOpen) && editRecord == old(editRecord)
    {
      if subscription.None? {
        subscription := Some(handle);
      }
    }

    /** A Student message arrives: its seven-field record goes in front of the list. */
    method HandleMessage(message: Record)
      modifies this
      ensures records == [StudentRecord(message)] + old(records)
      ensures |records| == |old(records)| + 1
      ensures isModalOpen == old(isModalOpen) && editRecord == old(editRecord)
      ensures subscription == old(subscription)
    {
      records := [StudentRecord(message)] + records;
    }

    /** `edit` opens the modal on `row`, `delete` removes it, any other action does nothing. */
    method HandleRowAction(actionName: string, row: Record)
      modifies this
      ensures actionName == "edit" ==> editRecord == row && isModalOpen && records == old(records)
      ensures actionName == "delete" ==>
        records == RemoveId(old(records), IdOf(row)) &&
        isModalOpen == old(isModalOpen) && editRecord == old(editRecord)
      ensures actionName != "edit" && actionName != "delete" ==>
        records == old(records) && isModalOpen == old(isModalOpen) && editRecord == old(editRecord)
      ensures subscription == old(subscription)
    {
      if actionName == "edit" {
        OpenEditModal(row);
      } else if actionName == "delete" {
        DeleteRecord(row);
      }
    }

    /** The edit buffer becomes a copy of `row` and the modal opens. */
    method OpenEditModal(row: Record)
      modifies this
      ensures editRecord == row && isModalOpen
      ensures records == old(records) && subscription == old(subscription)
    {
      editRecord := row;
      isModalOpen := true;
    }

    /** An input named `field` changed to `value`: only that field of the buffer is written. */
    method HandleInputChange(field: string, value: string)
      modifies this
      ensures editRecord == old(editRecord)[field := Str(value)]
      ensures forall k :: k != field ==> Get(editRecord, k) == Get(old(editRecord), k)
      ensures records == old(records) && isModalOpen == old(isModalOpen)
      ensures subscription == old(subscription)
    {
      editRecord := editRecord[field := Str(value)];
    }

    /**
     * Sends the seven Student fields of the buffer as an update (`sent`). On
     * success every record with the buffer's Id is replaced by a copy of the
     * whole buffer (not merged) and the modal closes; on failure the list and
     * the modal stay as they are.
     */
    method SaveChanges(outcome: Outcome) returns (sent: Record)
      modifies this
      ensures sent == StudentRecord(old(editRecord))
      ensures outcome.Success? ==>
        records == ReplaceWhereId(old(records), IdOf(old(editRecord)), old(editRecord)) && !isModalOpen
      ensures outcome.Failure? ==> records == old(records) && isModalOpen == old(isModalOpen)
      ensures Ids(records) == Ids(old(records))
      ensures editRecord == old(editRecord) && subscription == old(subscription)
    {
      sent := StudentRecord(editRecord);
      if outcome.Success? {
        ReplaceKeepsIds(records, IdOf(editRecord), editRecord);
        records := ReplaceWhereId(records, IdOf(editRecord), editRecord);
        isModalOpen := false;
      }
    }

    method CloseModal()
      modifies this
      ensures !isModalOpen
      ensures records == old(records) && editRecord == old(editRecord)
      ensures subscription == old(subscription)
    {
      isModalOpen := false;
    }

    /** Removes every record with the row's Id; this component makes no platform call here. */
    method DeleteRecord(row: Record)
      modifies this
      ensures records == RemoveId(old(records), IdOf(row))
      ensures isModalOpen == old(isModalOpen) && editRecord == old(editRecord)
      ensures subscription == old(subscription)
    {
      records := RemoveId(records, IdOf(row));
    }
  }
}
