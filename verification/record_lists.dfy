/**
 * The list operations the record tables apply to their `records` array, each
 * defined once over `seq<Record>`: removal by Id (`filter`), update by Id
 * (`map`, merging or replacing), and the `findIndex`-driven draft merge of
 * studentDataTable.
 */
module RecordLists {
  import opened Records

  /** The Id of each record, in order. */
  function Ids(rs: seq<Record>): (ids: seq<Value>)
    ensures |ids| == |rs|
    ensures forall i :: 0 <= i < |rs| ==> ids[i] == IdOf(rs[i])
  {
    seq(|rs|, i requires 0 <= i < |rs| => IdOf(rs[i]))
  }

  predicate HasId(rs: seq<Record>, id: Value) {
    exists i :: 0 <= i < |rs| && IdOf(rs[i]) == id
  }

  // ---------------------------------------------------------------------------
  // filter(record => record.Id !== id)
  // ---------------------------------------------------------------------------

  /** `rs.filter(record => record.Id !== id)`. */
  function RemoveId(rs: seq<Record>, id: Value): (r: seq<Record>)
    ensures |r| <= |rs|
    ensures forall x :: x in r ==> x in rs && IdOf(x) != id
    ensures forall x :: x in rs && IdOf(x) != id ==> x in r
  {
    if rs == [] then []
    else if IdOf(rs[0]) == id then RemoveId(rs[1..], id)
    else [rs[0]] + RemoveId(rs[1..], id)
  }

  /** Removal keeps the surviving records in their original relative order. */
  lemma {:induction false} RemoveIdAppend(a: seq<Record>, b: seq<Record>, id: Value)
    ensures RemoveId(a + b, id) == RemoveId(a, id) + RemoveId(b, id)
  {
    if a == [] {
      assert a + b == b;
    } else {
      assert (a + b)[0] == a[0];
      assert (a + b)[1..] == a[1..] + b;
      RemoveIdAppend(a[1..], b, id);
    }
  }

  /** Every record whose Id differs survives with its multiplicity; those with the Id are gone. */
  lemma {:induction false} RemoveIdCount(rs: seq<Record>, id: Value, x: Record)
    ensures multiset(RemoveId(rs, id))[x] == if IdOf(x) == id then 0 else multiset(rs)[x]
  {
    if rs != [] {
      RemoveIdCount(rs[1..], id, x);
      assert rs == [rs[0]] + rs[1..];
      assert multiset(rs) == multiset([rs[0]]) + multiset(rs[1..]);
    }
  }

  /** Removing an Id that no record carries changes nothing. */
  lemma {:induction false} RemoveIdAbsent(rs: seq<Record>, id: Value)
    requires !HasId(rs, id)
    ensures RemoveId(rs, id) == rs
  {
    if rs != [] {
      assert IdOf(rs[0]) != id;
      assert !HasId(rs[1..], id) by {
        forall i | 0 <= i < |rs[1..]| ensures IdOf(rs[1..][i]) != id {
          assert rs[1..][i] == rs[i + 1];
        }
      }
      RemoveIdAbsent(rs[1..], id);
      assert rs == [rs[0]] + rs[1..];
    }
  }

  /** Removing the same Id twice is the same as removing it once. */
  lemma RemoveIdIdempotent(rs: seq<Record>, id: Value)
    ensures RemoveId(RemoveId(rs, id), id) == RemoveId(rs, id)
  {
    var r := RemoveId(rs, id);
    assert !HasId(r, id) by {
      forall i | 0 <= i < |r| ensures IdOf(r[i]) != id {
        assert r[i] in r;
      }
    }
    RemoveIdAbsent(r, id);
  }

  /** A record put in front of the list is removed again by its own Id, leaving the rest as removal leaves it. */
  lemma RemoveIdAfterPrepend(x: Record, rs: seq<Record>)
    ensures RemoveId([x] + rs, IdOf(x)) == RemoveId(rs, IdOf(x))
  {
    assert ([x] + rs)[1..] == rs;
  }

  // ---------------------------------------------------------------------------
  // map(record => record.Id === id ? ... : record)
  // ---------------------------------------------------------------------------

  /** `rs.map(record => record.Id === id ? { ...record, ...fields } : record)`. */
  function MergeWhereId(rs: seq<Record>, id: Value, fields: Record): (r: seq<Record>)
    ensures |r| == |rs|
    ensures forall i :: 0 <= i < |rs| && IdOf(rs[i]) == id ==> r[i] == Overlay(rs[i], fields)
    ensures forall i :: 0 <= i < |rs| && IdOf(rs[i]) != id ==> r[i] == rs[i]
  {
    if rs == [] then []
    else [if IdOf(rs[0]) == id then Overlay(rs[0], fields) else rs[0]]
         + MergeWhereId(rs[1..], id, fields)
  }

  /** `rs.map(record => record.Id === id ? { ...replacement } : record)`. */
  function ReplaceWhereId(rs: seq<Record>, id: Value, replacement: Record): (r: seq<Record>)
    ensures |r| == |rs|
    ensures forall i :: 0 <= i < |rs| && IdOf(rs[i]) == id ==> r[i] == replacement
    ensures forall i :: 0 <= i < |rs| && IdOf(rs[i]) != id ==> r[i] == rs[i]
  {
    if rs == [] then []
    else [if IdOf(rs[0]) == id then replacement else rs[0]]
         + ReplaceWhereId(rs[1..], id, replacement)
  }

  /** Overlaying fields whose Id (if any) is the record's own keeps the record's Id. */
  lemma OverlayKeepsId(x: Record, fields: Record)
    requires IdField in fields ==> fields[IdField] == IdOf(x)
    ensures IdOf(Overlay(x, fields)) == IdOf(x)
  {
  }

  /** Merging fields that carry the matched Id leaves every record's Id as it was. */
  lemma MergeKeepsIds(rs: seq<Record>, id: Value, fields: Record)
    requires IdField in fields ==> fields[IdField] == id
    ensures Ids(MergeWhereId(rs, id, fields)) == Ids(rs)
  {
    var r := MergeWhereId(rs, id, fields);
    forall i | 0 <= i < |rs| ensures IdOf(r[i]) == IdOf(rs[i]) {
      if IdOf(rs[i]) == id {
        OverlayKeepsId(rs[i], fields);
      }
    }
  }

  /** Merging fields drawn from a row's own key set keeps every row's key set. */
  lemma MergeKeepsKeys(rs: seq<Record>, id: Value, fields: Record, keys: set<string>)
    requires forall x :: x in rs ==> x.Keys == keys
    requires fields.Keys <= keys
    ensures forall x :: x in MergeWhereId(rs, id, fields) ==> x.Keys == keys
  {
    var r := MergeWhereId(rs, id, fields);
    forall x | x in r ensures x.Keys == keys {
      var i :| 0 <= i < |r| && r[i] == x;
      assert rs[i] in rs;
    }
  }

  /** Merging onto an Id no record carries changes nothing. */
  lemma MergeAbsent(rs: seq<Record>, id: Value, fields: Record)
    requires !HasId(rs, id)
    ensures MergeWhereId(rs, id, fields) == rs
  {
  }

  /** Saving the same fields twice gives what saving them once gives. */
  lemma MergeIdempotent(rs: seq<Record>, id: Value, fields: Record)
    requires IdField in fields ==> fields[IdField] == id
    ensures MergeWhereId(MergeWhereId(rs, id, fields), id, fields) == MergeWhereId(rs, id, fields)
  {
    var once := MergeWhereId(rs, id, fields);
    var twice := MergeWhereId(once, id, fields);
    forall i | 0 <= i < |rs| ensures twice[i] == once[i] {
      if IdOf(rs[i]) == id {
        OverlayKeepsId(rs[i], fields);
        assert Overlay(Overlay(rs[i], fields), fields) == Overlay(rs[i], fields);
      }
    }
  }

  /** Replacing by a record that carries the matched Id leaves every record's Id as it was. */
  lemma ReplaceKeepsIds(rs: seq<Record>, id: Value, replacement: Record)
    requires IdOf(replacement) == id
    ensures Ids(ReplaceWhereId(rs, id, replacement)) == Ids(rs)
  {
  }

  // ---------------------------------------------------------------------------
  // findIndex and the draft merge of studentDataTable
  // ---------------------------------------------------------------------------

  /** `rs.findIndex(record => record.Id === id)`: the first matching index, or -1. */
  function FindIndex(rs: seq<Record>, id: Value): (i: int)
    ensures -1 <= i < |rs|
    ensures i == -1 <==> !HasId(rs, id)
    ensures 0 <= i ==> IdOf(rs[i]) == id && forall j :: 0 <= j < i ==> IdOf(rs[j]) != id
  {
    if rs == [] then -1
    else if IdOf(rs[0]) == id then 0
    else
      var k := FindIndex(rs[1..], id);
      assert forall j :: 0 < j < |rs| ==> rs[j] == rs[1..][j - 1];
      if k == -1 then -1 else k + 1
  }

  /** `findIndex` looks only at the Ids, so two lists with the same Ids agree on it. */
  lemma FindIndexByIds(a: seq<Record>, b: seq<Record>, id: Value)
    requires Ids(a) == Ids(b)
    ensures FindIndex(a, id) == FindIndex(b, id)
  {
    var i, j := FindIndex(a, id), FindIndex(b, id);
    assert forall k :: 0 <= k < |a| ==> IdOf(a[k]) == Ids(a)[k] == Ids(b)[k] == IdOf(b[k]);
    if i != -1 && j != -1 {
      assert !(i < j) && !(j < i);
    }
  }

  /**
   * One step of `updateRecordsAfterSave`: the first record whose Id is the
   * draft's gets the draft's fields overlaid; nothing happens when none matches.
   */
  function ApplyDraft(rs: seq<Record>, draft: Record): (r: seq<Record>)
    ensures |r| == |rs|
    ensures Ids(r) == Ids(rs)
    ensures !HasId(rs, IdOf(draft)) ==> r == rs
    ensures HasId(rs, IdOf(draft)) ==>
      var i := FindIndex(rs, IdOf(draft));
      r[i] == Overlay(rs[i], draft) && forall j :: 0 <= j < |rs| && j != i ==> r[j] == rs[j]
  {
    var index := FindIndex(rs, IdOf(draft));
    if index == -1 then rs
    else
      OverlayKeepsId(rs[index], draft);
      rs[index := Overlay(rs[index], draft)]
  }

  /** `drafts.forEach(...)` of `updateRecordsAfterSave`: the drafts applied in order. */
  function ApplyDrafts(rs: seq<Record>, drafts: seq<Record>): (r: seq<Record>)
    ensures |r| == |rs|
    ensures Ids(r) == Ids(rs)
    decreases drafts
  {
    if drafts == [] then rs else ApplyDrafts(ApplyDraft(rs, drafts[0]), drafts[1..])
  }

  /** Applying one more draft at the end is one more `ApplyDraft` step. */
  lemma {:induction false} ApplyDraftsSnoc(rs: seq<Record>, drafts: seq<Record>, d: Record)
    ensures ApplyDrafts(rs, drafts + [d]) == ApplyDraft(ApplyDrafts(rs, drafts), d)
    decreases drafts
  {
    if drafts == [] {
      assert drafts + [d] == [d];
      assert [d][1..] == [];
    } else {
      assert (drafts + [d])[0] == drafts[0];
      assert (drafts + [d])[1..] == drafts[1..] + [d];
      ApplyDraftsSnoc(ApplyDraft(rs, drafts[0]), drafts[1..], d);
    }
  }

  /** Drafts whose Ids match no record have no effect. */
  lemma {:induction false} ApplyDraftsUnmatched(rs: seq<Record>, drafts: seq<Record>)
    requires forall d :: d in drafts ==> !HasId(rs, IdOf(d))
    ensures ApplyDrafts(rs, drafts) == rs
  {
    if drafts != [] {
      assert drafts[0] in drafts;
      assert forall d :: d in drafts[1..] ==> d in drafts;
      ApplyDraftsUnmatched(rs, drafts[1..]);
    }
  }

  /**
   * Drafts apply in order: a field of the last draft lands in the first record
   * carrying that draft's Id, whatever the earlier drafts wrote there.
   */
  lemma LastDraftWins(rs: seq<Record>, drafts: seq<Record>, d: Record, k: string)
    requires HasId(rs, IdOf(d))
    requires k in d
    ensures var r := ApplyDrafts(rs, drafts + [d]);
            var i := FindIndex(rs, IdOf(d));
            k in r[i] && r[i][k] == d[k]
  {
    var before := ApplyDrafts(rs, drafts);
    ApplyDraftsSnoc(rs, drafts, d);
    FindIndexByIds(before, rs, IdOf(d));
    assert HasId(before, IdOf(d)) by {
      var i := FindIndex(rs, IdOf(d));
      assert IdOf(before[i]) == Ids(before)[i] == Ids(rs)[i];
    }
  }

  /** Only the first record with a draft's Id is touched: later duplicates keep their values. */
  lemma ApplyDraftFirstOnly(rs: seq<Record>, d: Record, j: int)
    requires 0 <= j < |rs|
    requires IdOf(rs[j]) == IdOf(d)
    requires exists i :: 0 <= i < j && IdOf(rs[i]) == IdOf(d)
    ensures ApplyDraft(rs, d)[j] == rs[j]
  {
  }
}
