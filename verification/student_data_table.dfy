/**
 * studentDataTable: an inline-editable table of Student records fed by the
 * Student message channel. Edits are saved as a batch of drafts; a row action
 * deletes a record.
 */
module StudentDataTable {
  import opened Records
  import opened Subscriptions
  import opened RecordLists

  class StudentDatatable {
    var records: seq<Record>
    /** The table's pending inline edits. */
    var draftValues: seq<Record>
    var subscription: Option<Subscription>

    constructor ()
      ensures records == [] && draftValues == [] && subscription == None
    {
      records := [];
      draftValues := [];
      subscription := None;
    }

    /** Registers with the message bus unless already registered; `handle` is what the bus returns. */
    method SubscribeToMessageChannel(handle: Subscription)
      modifies this
      ensures subscription == Subscribed(old(subscription), handle)
      ensures old(subscription).Some? ==> subscription == old(subscription)
      ensures records == old(records) && draftValues == old(draftValues)
    {
      if subscription.None? {
        subscription := Some(handle);
      }
    }

    /** A Student message arrives: its seven-field record goes in front of the list. */
    method HandleMessage(message: Record)
      modifies this
      ensures |records| == |old(records)| + 1
      ensures records[0] == StudentRecord(message)
      ensures records[1..] == old(records)
      ensures draftValues == old(draftValues) && subscription == old(subscription)
    {
      records := [StudentRecord(message)] + records;
    }

    /**
     * Saves the table's drafts. Every draft is sent as an update (`updates`);
     * the batch outcome is `outcome` (all succeed, or one fails). On success the
     * pending drafts are cleared and merged into the records; on failure
     * nothing changes.
     */
    method HandleSave(drafts: seq<Record>, outcome: Outcome) returns (updates: seq<Record>)
      modifies this
      ensures updates == drafts
      ensures outcome.Success? ==> draftValues == [] && records == ApplyDrafts(old(records), drafts)
      ensures outcome.Failure? ==> draftValues == old(draftValues) && records == old(records)
      ensures subscription == old(subscription)
    {
      updates := drafts;
      if outcome.Success? {
        draftValues := [];
        UpdateRecordsAfterSave(drafts);
      }
    }

    /** Only the `delete` row action does anything; `deleted` is the Id a delete sends. */
    method HandleRowAction(actionName: string, row: Record, outcome: Outcome) returns (deleted: Option<Value>)
      modifies this
      ensures deleted.Some? <==> actionName == "delete"
      ensures deleted.Some? ==> deleted.value == IdOf(row)
      ensures actionName == "delete" && outcome.Success? ==> records == RemoveId(old(records), IdOf(row))
      ensures actionName != "delete" || outcome.Failure? ==> records == old(records)
      ensures draftValues == old(draftValues) && subscription == old(subscription)
    {
      deleted := None;
      if actionName == "delete" {
        var id := DeleteRow(row, outcome);
        deleted := Some(id);
      }
    }

    /**
     * Deletes `row` on the platform (`deletedId` is the Id sent); when that
     * succeeds, every record with its Id leaves the list.
     */
    method DeleteRow(row: Record, outcome: Outcome) returns (deletedId: Value)
      modifies this
      ensures deletedId == IdOf(row)
      ensures outcome.Success? ==> records == RemoveId(old(records), IdOf(row))
      ensures outcome.Failure? ==> records == old(records)
      ensures draftValues == old(draftValues) && subscription == old(subscription)
    {
      deletedId := IdOf(row);
      if outcome.Success? {
        records := RemoveId(records, IdOf(row));
      }
    }

    method FetchRecords()
      modifies this
      ensures records == []
      ensures draftValues == old(draftValues) && subscription == old(subscription)
    {
      records := [];
    }

    /**
     * For each draft in turn, the first record with the draft's Id (as
     * `findIndex` finds it) is overwritten in place by itself overlaid with
     * the draft.
     */
    method UpdateRecordsAfterSave(drafts: seq<Record>)
      modifies this
      ensures records == ApplyDrafts(old(records), drafts)
      ensures |records| == |old(records)| && Ids(records) == Ids(old(records))
      ensures draftValues == old(draftValues) && subscription == old(subscription)
    {
      var i := 0;
      while i < |drafts|
        invariant 0 <= i <= |drafts|
        invariant ApplyDrafts(records, drafts[i..]) == ApplyDrafts(old(records), drafts)
        invariant draftValues == old(draftValues) && subscription == old(subscription)
      {
        var draft := drafts[i];
        var index := FindIndex(records, IdOf(draft));
        if index != -1 {
          records := records[index := Overlay(records[index], draft)];
        }
        assert drafts[i..][0] == draft && drafts[i..][1..] == drafts[i + 1..];
        i := i + 1;
      }
    }
  }
}
