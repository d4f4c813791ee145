/** The sync screen: list the drafts kept on the device, send each to the
    remote `form_responses` table, mark the ones that were accepted as synced
    in the stored list, and write that list back once. */
module Sync {
  import opened Common
  import opened Records

  predicate IsDraft(r: Record) { r.status == Draft }

  /** The pending reports: exactly the stored records whose status is draft, in stored order. */
  function FilterPending(rs: seq<Record>): (pending: seq<Record>)
    ensures forall r :: r in pending ==> r.status == Draft
    ensures forall r :: multiset(pending)[r] == if r.status == Draft then multiset(rs)[r] else 0
    ensures IsSubsequence(pending, rs)
  {
    FilterIsSubsequence(rs, IsDraft);
    FilterMultiset(rs, IsDraft);
    Filter(rs, IsDraft)
  }

  /** Filtering the pending list again changes nothing. */
  lemma FilterPendingIdempotent(rs: seq<Record>)
    ensures FilterPending(FilterPending(rs)) == FilterPending(rs)
  {
    FilterIdempotent(rs, IsDraft);
  }

  /** `rs.findIndex(r => r.id === id)`: the first position holding `id`, or -1. */
  function FindIndex(rs: seq<Record>, id: string): (i: int)
    ensures -1 <= i < |rs|
    ensures 0 <= i ==> rs[i].id == id && forall j :: 0 <= j < i ==> rs[j].id != id
    ensures i == -1 ==> forall j :: 0 <= j < |rs| ==> rs[j].id != id
  {
    if rs == [] then -1
    else if rs[0].id == id then 0
    else
      var k := FindIndex(rs[1..], id);
      if k == -1 then -1 else k + 1
  }

  /** `after` is `before` with, at most, some statuses set to synced: same length,
      same order, every other field untouched. */
  predicate Refines(before: seq<Record>, after: seq<Record>)
  {
    |after| == |before| &&
    forall j :: 0 <= j < |before| ==> after[j] == before[j] || after[j] == before[j].(status := Synced)
  }

  /** The local update after one accepted submit: the record `findIndex` finds becomes synced. */
  function MarkSynced(rs: seq<Record>, id: string): (r: seq<Record>)
    ensures |r| == |rs|
  {
    var k := FindIndex(rs, id);
    if k > -1 then rs[k := rs[k].(status := Synced)] else rs
  }

  /** Only the first record carrying `id` can change, and it becomes synced;
      nothing changes at all if no record carries `id`. */
  lemma MarkSyncedSpec(rs: seq<Record>, id: string)
    ensures var r := MarkSynced(rs, id);
      Refines(rs, r) &&
      (forall j :: 0 <= j < |rs| && r[j] != rs[j] ==> rs[j].id == id && forall i :: 0 <= i < j ==> rs[i].id != id) &&
      (forall j :: 0 <= j < |rs| && rs[j].id == id && (forall i :: 0 <= i < j ==> rs[i].id != id) ==> r[j].status == Synced) &&
      ((forall j :: 0 <= j < |rs| ==> rs[j].id != id) ==> r == rs)
  {
    var k := FindIndex(rs, id);
    var r := MarkSynced(rs, id);
    if k > -1 {
      forall j | 0 <= j < |rs| && rs[j].id == id && (forall i :: 0 <= i < j ==> rs[i].id != id)
        ensures j == k
      {
      }
    }
  }

  /** The stored list after the first `n` submits of `pending`, whose outcomes are `outcomes`. */
  function Reconcile(all: seq<Record>, pending: seq<Record>, outcomes: seq<bool>, n: nat): (r: seq<Record>)
    requires |outcomes| == |pending| && n <= |pending|
    ensures |r| == |all|
  {
    if n == 0 then all
    else
      var before := Reconcile(all, pending, outcomes, n - 1);
      if outcomes[n - 1] then MarkSynced(before, pending[n - 1].id) else before
  }

  /** A sync batch only ever sets statuses to synced. */
  lemma {:induction false} ReconcileRefines(all: seq<Record>, pending: seq<Record>, outcomes: seq<bool>, n: nat)
    requires |outcomes| == |pending| && n <= |pending|
    ensures Refines(all, Reconcile(all, pending, outcomes, n))
  {
    if n > 0 {
      var before := Reconcile(all, pending, outcomes, n - 1);
      ReconcileRefines(all, pending, outcomes, n - 1);
      if outcomes[n - 1] {
        MarkSyncedSpec(before, pending[n - 1].id);
      }
    }
  }

  /** `successCount` after the first `n` submits. */
  function CountTrue(outcomes: seq<bool>, n: nat): (count: nat)
    requires n <= |outcomes|
    ensures count <= n
  {
    if n == 0 then 0
    else CountTrue(outcomes, n - 1) + (if outcomes[n - 1] then 1 else 0)
  }

  /** No success is counted exactly when every submit failed; all are counted
      exactly when every one succeeded. */
  lemma {:induction false} CountTrueExtremes(outcomes: seq<bool>, n: nat)
    requires n <= |outcomes|
    ensures CountTrue(outcomes, n) == 0 <==> forall i :: 0 <= i < n ==> !outcomes[i]
    ensures CountTrue(outcomes, n) == n <==> forall i :: 0 <= i < n ==> outcomes[i]
  {
    if n > 0 {
      CountTrueExtremes(outcomes, n - 1);
    }
  }

  /** The rows sent by the first `n` submits, in submission order. */
  function Payloads(reports: seq<Record>, n: nat): (ps: seq<Payload>)
    requires n <= |reports|
    ensures |ps| == n
    ensures forall i :: 0 <= i < n ==> ps[i] == ToPayload(reports[i])
  {
    if n == 0 then [] else Payloads(reports, n - 1) + [ToPayload(reports[n - 1])]
  }

  /** The rows the remote accepted among the first `n` submits, in submission order. */
  function Accepted(reports: seq<Record>, outcomes: seq<bool>, n: nat): (ps: seq<Payload>)
    requires |outcomes| == |reports| && n <= |reports|
    ensures |ps| == CountTrue(outcomes, n)
  {
    if n == 0 then []
    else Accepted(reports, outcomes, n - 1) + (if outcomes[n - 1] then [ToPayload(reports[n - 1])] else [])
  }

  /** The ids of the reports whose submit succeeded among the first `n`. */
  function SucceededIds(reports: seq<Record>, outcomes: seq<bool>, n: nat): set<string>
    requires |outcomes| == |reports| && n <= |reports|
  {
    set i | 0 <= i < n && outcomes[i] :: reports[i].id
  }

  /** No two records of the list share an id. */
  predicate UniqueIds(rs: seq<Record>)
  {
    forall i, j :: 0 <= i < j < |rs| ==> rs[i].id != rs[j].id
  }

  lemma SucceededIdsStep(reports: seq<Record>, outcomes: seq<bool>, n: nat)
    requires |outcomes| == |reports| && 0 < n <= |reports|
    ensures SucceededIds(reports, outcomes, n) ==
      SucceededIds(reports, outcomes, n - 1) + (if outcomes[n - 1] then {reports[n - 1].id} else {})
  {
    var whole := SucceededIds(reports, outcomes, n);
    forall x | x in whole
      ensures x in SucceededIds(reports, outcomes, n - 1) || (outcomes[n - 1] && x == reports[n - 1].id)
    {
      var i :| 0 <= i < n && outcomes[i] && reports[i].id == x;
    }
  }

  /** With no accepted submit the stored list is unchanged. */
  lemma {:induction false} ReconcileWithoutSuccess(all: seq<Record>, pending: seq<Record>, outcomes: seq<bool>, n: nat)
    requires |outcomes| == |pending| && n <= |pending|
    requires forall i :: 0 <= i < n ==> !outcomes[i]
    ensures Reconcile(all, pending, outcomes, n) == all
  {
    if n > 0 {
      ReconcileWithoutSuccess(all, pending, outcomes, n - 1);
    }
  }

  /** When stored ids are unique, the result of a sync batch is the stored list in
      which exactly the records whose id was accepted are synced: it depends only on
      the set of accepted ids, not on the order in which the submits happened. */
  lemma {:induction false} ReconcileMarksAccepted(all: seq<Record>, pending: seq<Record>, outcomes: seq<bool>, n: nat)
    requires |outcomes| == |pending| && n <= |pending|
    requires UniqueIds(all)
    ensures var r := Reconcile(all, pending, outcomes, n);
      |r| == |all| &&
      forall j :: 0 <= j < |all| ==>
        r[j] == if all[j].id in SucceededIds(pending, outcomes, n) then all[j].(status := Synced) else all[j]
  {
    if n > 0 {
      var before := Reconcile(all, pending, outcomes, n - 1);
      ReconcileMarksAccepted(all, pending, outcomes, n - 1);
      SucceededIdsStep(pending, outcomes, n);
      if outcomes[n - 1] {
        var id := pending[n - 1].id;
        var r := MarkSynced(before, id);
        MarkSyncedSpec(before, id);
        forall j | 0 <= j < |all|
          ensures r[j] == if all[j].id in SucceededIds(pending, outcomes, n) then all[j].(status := Synced) else all[j]
        {
          assert before[j].id == all[j].id;
          if all[j].id == id {
            forall i | 0 <= i < j ensures before[i].id != id {
              assert before[i].id == all[i].id;
            }
          }
        }
      }
    }
  }

  /** Every draft of the stored list is one of the pending reports. */
  lemma DraftIsPending(all: seq<Record>, j: int) returns (i: int)
    requires 0 <= j < |all| && all[j].status == Draft
    ensures 0 <= i < |FilterPending(all)| && FilterPending(all)[i] == all[j]
  {
    var pending := FilterPending(all);
    assert all[j] in multiset(all);
    assert multiset(pending)[all[j]] > 0;
    i :| 0 <= i < |pending| && pending[i] == all[j];
  }

  /** A list without drafts has nothing pending. */
  lemma NoDraftsNothingPending(rs: seq<Record>)
    requires forall j :: 0 <= j < |rs| ==> rs[j].status == Synced
    ensures FilterPending(rs) == []
  {
  }

  /** The scenario where every pending report is accepted: afterwards nothing is pending. */
  lemma AllAcceptedLeavesNothingPending(all: seq<Record>, outcomes: seq<bool>)
    requires UniqueIds(all)
    requires |outcomes| == |FilterPending(all)|
    requires forall i :: 0 <= i < |outcomes| ==> outcomes[i]
    ensures FilterPending(Reconcile(all, FilterPending(all), outcomes, |outcomes|)) == []
  {
    var pending := FilterPending(all);
    var r := Reconcile(all, pending, outcomes, |outcomes|);
    ReconcileMarksAccepted(all, pending, outcomes, |outcomes|);
    forall j | 0 <= j < |r| ensures r[j].status == Synced {
      if all[j].status == Draft {
        var i := DraftIsPending(all, j);
        assert all[j].id in SucceededIds(pending, outcomes, |outcomes|);
      }
    }
    NoDraftsNothingPending(r);
  }

  /** After a sync batch over the pending list, what is still pending is exactly
      the reports of that list whose submit did not succeed. */
  lemma PendingAfterSync(all: seq<Record>, outcomes: seq<bool>)
    requires UniqueIds(all)
    requires |outcomes| == |FilterPending(all)|
    ensures var pending := FilterPending(all);
      var after := Reconcile(all, pending, outcomes, |outcomes|);
      forall x :: x in FilterPending(after) <==>
        x in pending && x.id !in SucceededIds(pending, outcomes, |outcomes|)
  {
    var pending := FilterPending(all);
    var succeeded := SucceededIds(pending, outcomes, |outcomes|);
    var after := Reconcile(all, pending, outcomes, |outcomes|);
    ReconcileMarksAccepted(all, pending, outcomes, |outcomes|);
    forall x
      ensures x in FilterPending(after) <==> x in pending && x.id !in succeeded
    {
      if x in FilterPending(after) {
        assert multiset(FilterPending(after))[x] > 0;
        var j :| 0 <= j < |after| && after[j] == x;
        assert all[j] == x && x.id !in succeeded;
        assert multiset(pending)[x] > 0;
      }
      if x in pending && x.id !in succeeded {
        assert x.status == Draft && multiset(pending)[x] > 0;
        var j :| 0 <= j < |all| && all[j] == x;
        assert after[j] == x;
        assert multiset(FilterPending(after))[x] > 0;
      }
    }
  }

  /** `allLocalReports[reportIndex].status = 'synced'` at the index `findIndex` gives, if any. */
  method MarkSyncedInPlace(allLocalReports: array<Record>, id: string)
    modifies allLocalReports
    ensures allLocalReports[..] == MarkSynced(old(allLocalReports[..]), id)
  {
    var reportIndex := FindIndex(allLocalReports[..], id);
    if reportIndex > -1 {
      allLocalReports[reportIndex] := allLocalReports[reportIndex].(status := Synced);
    }
  }

  /** The remote `form_responses` table. `replies` is the oracle: the outcome
      each future insert will have, in order. */
  class Remote {
    var replies: seq<bool>
    var attempts: seq<Payload>
    var rows: seq<Payload>

    constructor (replies: seq<bool>)
      ensures this.replies == replies && attempts == [] && rows == []
    {
      this.replies := replies;
      attempts := [];
      rows := [];
    }

    /** `insert([payload])`: `ok` is the absence of an error. */
    method Insert(payload: Payload) returns (ok: bool)
      requires |replies| > 0
      modifies this
      ensures ok == old(replies)[0] && replies == old(replies)[1..]
      ensures attempts == old(attempts) + [payload]
      ensures rows == old(rows) + if ok then [payload] else []
    {
      ok := replies[0];
      replies := replies[1..];
      attempts := attempts + [payload];
      if ok {
        rows := rows + [payload];
      }
    }
  }

  /** What the closing alert reports. */
  datatype SyncSummary = NothingPending | Completed(succeeded: nat, attempted: nat)

  class SyncScreen {
    var pendingReports: seq<Record>
    const store: Storage
    const remote: Remote

    constructor (store: Storage, remote: Remote)
      ensures this.store == store && this.remote == remote && pendingReports == []
    {
      this.store := store;
      this.remote := remote;
      pendingReports := [];
    }

    method LoadPendingReports()
      modifies this
      ensures pendingReports == FilterPending(LoadAll(store.value))
    {
      var stored := store.GetItem();
      pendingReports := FilterPending(LoadAll(stored));
    }

    /** One iteration of the `for` loop: submit `report` and, if the remote
        accepted it, mark it synced in the local copy. */
    method SubmitOne(report: Record, allLocalReports: array<Record>) returns (ok: bool)
      requires |remote.replies| > 0
      modifies remote, allLocalReports
      ensures ok == old(remote.replies)[0] && remote.replies == old(remote.replies)[1..]
      ensures remote.attempts == old(remote.attempts) + [ToPayload(report)]
      ensures remote.rows == old(remote.rows) + if ok then [ToPayload(report)] else []
      ensures allLocalReports[..] ==
        if ok then MarkSynced(old(allLocalReports[..]), report.id) else old(allLocalReports[..])
    {
      ok := remote.Insert(ToPayload(report));
      if ok {
        MarkSyncedInPlace(allLocalReports, report.id);
      }
    }

    /** The `for` loop of `sincronizarRelatorios`: submit every report in order,
        counting the successes and marking each accepted report synced in a
        copy of the stored list, updated in place. */
    method SubmitAll(reportsToSync: seq<Record>, all: seq<Record>) returns (saved: seq<Record>, successCount: nat)
      requires |remote.replies| >= |reportsToSync|
      modifies remote
      ensures var n := |reportsToSync|;
        var outcomes := old(remote.replies)[..n];
        saved == Reconcile(all, reportsToSync, outcomes, n) &&
        successCount == CountTrue(outcomes, n) &&
        remote.replies == old(remote.replies)[n..] &&
        remote.attempts == old(remote.attempts) + Payloads(reportsToSync, n) &&
        remote.rows == old(remote.rows) + Accepted(reportsToSync, outcomes, n)
    {
      successCount := 0;
      var allLocalReports := new Record[|all|](j requires 0 <= j < |all| => all[j]);
      ghost var outcomes := remote.replies[..|reportsToSync|];
      ghost var replies0, attempts0, rows0 := remote.replies, remote.attempts, remote.rows;
      assert allLocalReports[..] == all;
      var i := 0;
      while i < |reportsToSync|
        modifies remote, allLocalReports
        invariant 0 <= i <= |reportsToSync|
        invariant allLocalReports[..] == Reconcile(all, reportsToSync, outcomes, i)
        invariant successCount == CountTrue(outcomes, i)
        invariant remote.replies == replies0[i..]
        invariant remote.attempts == attempts0 + Payloads(reportsToSync, i)
        invariant remote.rows == rows0 + Accepted(reportsToSync, outcomes, i)
      {
        ghost var accepted := Accepted(reportsToSync, outcomes, i);
        ghost var attempted := Payloads(reportsToSync, i);
        assert replies0[i..][1..] == replies0[i + 1..];
        var ok := SubmitOne(reportsToSync[i], allLocalReports);
        assert ok == outcomes[i];
        assert (rows0 + accepted) + (if ok then [ToPayload(reportsToSync[i])] else []) ==
          rows0 + (accepted + if ok then [ToPayload(reportsToSync[i])] else []);
        assert (attempts0 + attempted) + [ToPayload(reportsToSync[i])] ==
          attempts0 + (attempted + [ToPayload(reportsToSync[i])]);
        if ok {
          successCount := successCount + 1;
        }
        i := i + 1;
      }
      saved := allLocalReports[..];
    }

    /** `sincronizarRelatorios`. */
    method SincronizarRelatorios() returns (summary: SyncSummary)
      requires |remote.replies| >= |pendingReports|
      modifies this, store, remote
      ensures old(pendingReports) == [] ==>
        summary == NothingPending &&
        store.value == old(store.value) && store.writes == old(store.writes) &&
        remote.attempts == old(remote.attempts) && remote.rows == old(remote.rows) &&
        remote.replies == old(remote.replies) && pendingReports == old(pendingReports)
      ensures old(pendingReports) != [] ==>
        var reports := old(pendingReports);
        var n := |reports|;
        var outcomes := old(remote.replies)[..n];
        summary == Completed(CountTrue(outcomes, n), n) &&
        remote.attempts == old(remote.attempts) + Payloads(reports, n) &&
        remote.rows == old(remote.rows) + Accepted(reports, outcomes, n) &&
        remote.replies == old(remote.replies)[n..] &&
        store.value == Some(Reconcile(LoadAll(old(store.value)), reports, outcomes, n)) &&
        store.writes == old(store.writes) + 1 &&
        pendingReports == FilterPending(store.value.value)
    {
      if |pendingReports| == 0 {
        return NothingPending;
      }
      var reportsToSync := pendingReports;
      var stored := store.GetItem();
      var allLocalReports, successCount := SubmitAll(reportsToSync, LoadAll(stored));
      store.SetItem(allLocalReports);
      summary := Completed(successCount, |reportsToSync|);
      LoadPendingReports();
    }
  }
}
