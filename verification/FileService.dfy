/** The file service run alone: recording an upload with roll-back, and removing files with
    the outcome of every deletion and table update given. */
module FileService {
  import opened Wrappers
  import opened ObjectKeys
  import opened FileSaga

  datatype RemoveError = TableFault | RecordsKept | SomeFailed | UndecodableKey

  datatype UploadError = RecordFault

  /** The ids whose deletion had the given outcome, in input order. */
  function WithOutcome(ids: seq<Id>, outcomes: seq<bool>, ok: bool): seq<Id>
    requires |ids| == |outcomes|
  {
    if ids == [] then []
    else
      WithOutcome(ids[..|ids| - 1], outcomes[..|ids| - 1], ok) + (if outcomes[|ids| - 1] == ok then [ids[|ids| - 1]] else [])
  }

  lemma {:induction false} OutcomeStep(ids: seq<Id>, outcomes: seq<bool>, i: nat, ok: bool)
    requires i < |ids| == |outcomes|
    ensures WithOutcome(ids[..i + 1], outcomes[..i + 1], ok)
            == WithOutcome(ids[..i], outcomes[..i], ok) + (if outcomes[i] == ok then [ids[i]] else [])
  {
    assert ids[..i + 1][..i] == ids[..i] && outcomes[..i + 1][..i] == outcomes[..i];
  }

  /** An element more on either side is one more in all. */
  lemma {:induction false} OneMoreApiece(a: seq<Id>, b: seq<Id>, all: seq<Id>, id: Id, left: bool)
    requires multiset(a) + multiset(b) == multiset(all)
    ensures multiset(a + if left then [id] else []) + multiset(b + if left then [] else [id]) == multiset(all + [id])
  {
    assert a + [] == a && b + [] == b;
  }

  /** Succeeded and failed ids together are the input: none lost, none twice. */
  lemma {:induction false} OutcomesPartition(ids: seq<Id>, outcomes: seq<bool>)
    requires |ids| == |outcomes|
    ensures multiset(WithOutcome(ids, outcomes, true)) + multiset(WithOutcome(ids, outcomes, false)) == multiset(ids)
    decreases |ids|
  {
    if ids != [] {
      var n := |ids| - 1;
      var front, last := ids[..n], ids[n];
      OutcomesPartition(front, outcomes[..n]);
      OneMoreApiece(WithOutcome(front, outcomes[..n], true), WithOutcome(front, outcomes[..n], false), front, last, outcomes[n]);
      assert front + [last] == ids;
    }
  }

  /** An id is listed with an outcome if and only if one of its deletions had it. */
  lemma {:induction false} OutcomeMeans(ids: seq<Id>, outcomes: seq<bool>, ok: bool, id: Id)
    requires |ids| == |outcomes|
    ensures id in WithOutcome(ids, outcomes, ok) <==> exists k :: 0 <= k < |ids| && ids[k] == id && outcomes[k] == ok
    decreases |ids|
  {
    if ids != [] {
      var n := |ids| - 1;
      OutcomeMeans(ids[..n], outcomes[..n], ok, id);
      assert forall k :: 0 <= k < n ==> ids[..n][k] == ids[k] && outcomes[..n][k] == outcomes[k];
      assert ids[n] == id && outcomes[n] == ok ==> id in WithOutcome(ids, outcomes, ok);
    }
  }

  function IdSet(ids: seq<Id>): set<Id> {
    set id | id in ids
  }

  /** Where the deletions look. */
  function Targets(records: map<Id, Record>, ids: seq<Id>): set<Location> {
    set id | id in ids && id in records && records[id].stored.target.Some? :: records[id].stored.target.value
  }

  /** The key of this row can be decoded. */
  predicate Decodable(records: map<Id, Record>, id: Id) {
    id in records && records[id].stored.target.Some?
  }

  /** How many deletions are started: those before the first key that throws. */
  function Started(records: map<Id, Record>, ids: seq<Id>): (n: nat)
    ensures n <= |ids|
    ensures forall k :: 0 <= k < n ==> Decodable(records, ids[k])
    ensures n < |ids| ==> !Decodable(records, ids[n])
  {
    if ids == [] || !Decodable(records, ids[0]) then 0 else 1 + Started(records, ids[1..])
  }

  class FileService {
    var records: map<Id, Record>
    var objects: set<Location>

    constructor ()
      ensures records == map[] && objects == {}
    {
      records, objects := map[], {};
    }

    /** The object has been put; a table fault rolls it back as well as it can. */
    method CreateFileRecord(id: Id, stored: Blob, createOk: bool, rollBackOk: bool) returns (r: Result<Id, UploadError>)
      requires id !in records && stored.place in objects
      modifies this
      ensures createOk ==> r == Success(id) && records == old(records)[id := Record(stored, true)] && objects == old(objects)
      ensures !createOk ==> r == Failure(RecordFault) && records == old(records) &&
                            objects == if rollBackOk then old(objects) - {stored.place} else old(objects)
    {
      if createOk {
        records := records[id := Record(stored, true)];
        return Success(id);
      }
      if rollBackOk {
        objects := objects - {stored.place};
      }
      return Failure(RecordFault);
    }

    /** Deletions are started in input order until a key throws; a fulfilled one removes its
        object. */
    method DeleteObjects(ids: seq<Id>, outcomes: seq<bool>) returns (thrown: bool)
      requires |ids| == |outcomes| && forall id :: id in ids ==> id in records
      modifies this`objects
      ensures thrown <==> Started(records, ids) < |ids|
      ensures var n := Started(records, ids);
              objects == old(objects) - Targets(records, WithOutcome(ids[..n], outcomes[..n], true))
    {
      ghost var n := Started(records, ids);
      for i := 0 to |ids|
        invariant i <= n
        invariant objects == old(objects) - Targets(records, WithOutcome(ids[..i], outcomes[..i], true))
      {
        if records[ids[i]].stored.target.None? {
          return true;
        }
        OutcomeStep(ids, outcomes, i, true);
        if outcomes[i] {
          TargetsGrow(records, WithOutcome(ids[..i], outcomes[..i], true), ids[i]);
          objects := objects - {records[ids[i]].stored.target.value};
        }
      }
      return false;
    }

    /** results.forEach: each id is pushed to the list of its outcome. */
    method SortOutcomes(ids: seq<Id>, outcomes: seq<bool>) returns (successfulIds: seq<Id>, failedIds: seq<Id>)
      requires |ids| == |outcomes|
      ensures successfulIds == WithOutcome(ids, outcomes, true) && failedIds == WithOutcome(ids, outcomes, false)
    {
      successfulIds, failedIds := [], [];
      for i := 0 to |ids|
        invariant successfulIds == WithOutcome(ids[..i], outcomes[..i], true)
        invariant failedIds == WithOutcome(ids[..i], outcomes[..i], false)
      {
        assert ids[..i + 1][..i] == ids[..i] && outcomes[..i + 1][..i] == outcomes[..i];
        if outcomes[i] {
          successfulIds := successfulIds + [ids[i]];
        } else {
          failedIds := failedIds + [ids[i]];
        }
      }
      assert ids[..|ids|] == ids && outcomes[..|ids|] == outcomes;
    }

    /** The table updates after the deletions: the rows of the succeeded ids go, then those of
        the failed ones are shown again. A faulting update ends the removal. */
    method SettleRows(successfulIds: seq<Id>, failedIds: seq<Id>, purgeOk: bool, restoreOk: bool)
      returns (r: Result<nat, RemoveError>)
      modifies `records
      ensures r == Verdict(successfulIds, failedIds, purgeOk, restoreOk)
      ensures records == if r == Failure(RecordsKept) then old(records)
                         else if r == Failure(SomeFailed) then Restored(old(records) - IdSet(successfulIds), IdSet(failedIds))
                         else old(records) - IdSet(successfulIds)
    {
      if |successfulIds| > 0 {
        if !purgeOk {
          return Failure(RecordsKept);
        }
        records := records - IdSet(successfulIds);
      }
      if |failedIds| > 0 {
        if !restoreOk {
          return Failure(TableFault);
        }
        records := Restored(records, IdSet(failedIds));
        return Failure(SomeFailed);
      }
      return Success(|successfulIds|);
    }

    /** The files were visible before, and have been hidden. */
    method SettleOutcomes(ids: seq<Id>, outcomes: seq<bool>, purgeOk: bool, restoreOk: bool, ghost before: map<Id, Record>)
      returns (r: Result<nat, RemoveError>)
      requires |ids| == |outcomes| && Distinct(ids)
      requires forall id :: id in ids ==> id in before && before[id].active
      requires records == Hidden(before, IdSet(ids))
      modifies `records
      ensures var succeeded, failed := WithOutcome(ids, outcomes, true), WithOutcome(ids, outcomes, false);
              r == Verdict(succeeded, failed, purgeOk, restoreOk) && records == RowsLeft(before, succeeded, failed, purgeOk, restoreOk)
      ensures r.Success? ==> r.value == |ids| && records == before - IdSet(ids)
    {
      var successfulIds, failedIds := SortOutcomes(ids, outcomes);
      RemovalOutcome(before, ids, outcomes);
      r := SettleRows(successfulIds, failedIds, purgeOk, restoreOk);
    }

    /** ids are those of the visible rows found; the flags say which table updates fault.
        The caller learns of success only when every row is gone. A key that cannot be decoded
        leaves every row hidden, with the deletions before it under way. */
    method RemoveFiles(ids: seq<Id>, outcomes: seq<bool>, hideOk: bool, purgeOk: bool, restoreOk: bool)
      returns (r: Result<nat, RemoveError>)
      requires |ids| == |outcomes| && Distinct(ids)
      requires forall id :: id in ids ==> id in records && records[id].active
      modifies this
      ensures !hideOk ==> r == Failure(TableFault) && records == old(records) && objects == old(objects)
      ensures hideOk ==>
                var n := Started(old(records), ids);
                && objects == old(objects) - Targets(old(records), WithOutcome(ids[..n], outcomes[..n], true))
                && (r == Failure(UndecodableKey) <==> n < |ids|)
                && (n < |ids| ==> records == Hidden(old(records), IdSet(ids)))
      ensures hideOk && Started(old(records), ids) == |ids| ==>
                && r == Verdict(WithOutcome(ids, outcomes, true), WithOutcome(ids, outcomes, false), purgeOk, restoreOk)
                && records == RowsLeft(old(records), WithOutcome(ids, outcomes, true), WithOutcome(ids, outcomes, false), purgeOk, restoreOk)
      ensures r.Success? ==> r.value == |ids| && records == old(records) - IdSet(ids)
    {
      if !hideOk {
        return Failure(TableFault);
      }
      ghost var before, n := records, Started(records, ids);
      records := Hidden(records, IdSet(ids));
      HidingKeepsTargets(before, IdSet(ids), WithOutcome(ids[..n], outcomes[..n], true));
      HidingKeepsStarted(before, IdSet(ids), ids);
      var thrown := DeleteObjects(ids, outcomes);
      if thrown {
        return Failure(UndecodableKey);
      }
      r := SettleOutcomes(ids, outcomes, purgeOk, restoreOk, before);
    }
  }

  /** What the caller is told. */
  function Verdict(succeeded: seq<Id>, failed: seq<Id>, purgeOk: bool, restoreOk: bool): Result<nat, RemoveError> {
    if succeeded != [] && !purgeOk then Failure(RecordsKept)
    else if failed == [] then Success(|succeeded|)
    else if restoreOk then Failure(SomeFailed)
    else Failure(TableFault)
  }

  /** The rows left by a removal that hid its files: when the removal reaches its end exactly the
      rows of the succeeded ids are gone; when it is cut short, what is left stays hidden. */
  function RowsLeft(records: map<Id, Record>, succeeded: seq<Id>, failed: seq<Id>, purgeOk: bool, restoreOk: bool): map<Id, Record> {
    match Verdict(succeeded, failed, purgeOk, restoreOk)
    case Failure(RecordsKept) => Hidden(records, IdSet(succeeded) + IdSet(failed))
    case Failure(TableFault) => Hidden(records - IdSet(succeeded), IdSet(failed))
    case _ => records - IdSet(succeeded)
  }

  predicate Distinct(ids: seq<Id>) {
    forall i, j :: 0 <= i < j < |ids| ==> ids[i] != ids[j]
  }

  lemma {:induction false} HidingKeepsTargets(records: map<Id, Record>, hidden: set<Id>, ids: seq<Id>)
    ensures Targets(Hidden(records, hidden), ids) == Targets(records, ids)
  {
  }

  lemma {:induction false} HidingKeepsStarted(records: map<Id, Record>, hidden: set<Id>, ids: seq<Id>)
    ensures Started(Hidden(records, hidden), ids) == Started(records, ids)
    decreases |ids|
  {
    if ids != [] {
      HidingKeepsStarted(records, hidden, ids[1..]);
    }
  }

  lemma {:induction false} PartsOfInput(ids: seq<Id>, succeeded: seq<Id>, failed: seq<Id>)
    requires multiset(succeeded) + multiset(failed) == multiset(ids)
    ensures IdSet(succeeded) + IdSet(failed) == IdSet(ids)
    ensures |succeeded| + |failed| == |ids|
  {
    assert forall id :: id in ids <==> id in multiset(ids);
    assert forall id :: id in succeeded <==> id in multiset(succeeded);
    assert forall id :: id in failed <==> id in multiset(failed);
    assert |multiset(succeeded)| == |succeeded| && |multiset(failed)| == |failed| && |multiset(ids)| == |ids|;
  }

  /** With distinct ids, removing files drops exactly the rows of the succeeded ones and leaves
      every other row of the input visible, as it was. */
  lemma {:induction false} RemovalOutcome(records: map<Id, Record>, ids: seq<Id>, outcomes: seq<bool>)
    requires |ids| == |outcomes| && Distinct(ids)
    requires forall id :: id in ids ==> id in records && records[id].active
    ensures var succeeded, failed := WithOutcome(ids, outcomes, true), WithOutcome(ids, outcomes, false);
            && IdSet(succeeded) !! IdSet(failed) && IdSet(succeeded) + IdSet(failed) == IdSet(ids)
            && |succeeded| + |failed| == |ids|
            && var left := Hidden(records, IdSet(ids)) - IdSet(succeeded);
               left == Hidden(records - IdSet(succeeded), IdSet(failed)) && Restored(left, IdSet(failed)) == records - IdSet(succeeded)
  {
    var succeeded, failed := WithOutcome(ids, outcomes, true), WithOutcome(ids, outcomes, false);
    OutcomesPartition(ids, outcomes);
    PartsOfInput(ids, succeeded, failed);
    DistinctOnce(ids);
    forall id | id in succeeded
      ensures id !in failed
    {
      assert multiset(ids)[id] == multiset(succeeded)[id] + multiset(failed)[id];
      assert id in multiset(succeeded);
      assert id in failed ==> id in multiset(failed);
    }
    HideThenRestore(records, IdSet(succeeded), IdSet(failed));
  }

  /** With distinct ids a deletion decides the list its id is on. */
  lemma {:induction false} OutcomeDecides(ids: seq<Id>, outcomes: seq<bool>)
    requires |ids| == |outcomes| && Distinct(ids)
    ensures forall k :: 0 <= k < |ids| ==>
              (ids[k] in WithOutcome(ids, outcomes, true) <==> outcomes[k]) &&
              (ids[k] in WithOutcome(ids, outcomes, false) <==> !outcomes[k])
  {
    forall k | 0 <= k < |ids|
      ensures ids[k] in WithOutcome(ids, outcomes, true) <==> outcomes[k]
      ensures ids[k] in WithOutcome(ids, outcomes, false) <==> !outcomes[k]
    {
      OutcomeMeans(ids, outcomes, true, ids[k]);
      OutcomeMeans(ids, outcomes, false, ids[k]);
    }
  }

  lemma {:induction false} RowsLeftAt(records: map<Id, Record>, succeeded: seq<Id>, failed: seq<Id>, purgeOk: bool, restoreOk: bool, id: Id)
    requires id in records && records[id].active
    requires id in succeeded <==> id !in failed
    ensures var left := RowsLeft(records, succeeded, failed, purgeOk, restoreOk);
            if id in succeeded && purgeOk then id !in left
            else id in left && left[id] == Record(records[id].stored, id in failed && restoreOk && (purgeOk || succeeded == []))
  {
  }

  lemma {:induction false} RowsElsewhere(records: map<Id, Record>, succeeded: seq<Id>, failed: seq<Id>, purgeOk: bool, restoreOk: bool, id: Id)
    requires id !in succeeded && id !in failed
    ensures var left := RowsLeft(records, succeeded, failed, purgeOk, restoreOk);
            (id in left <==> id in records) && (id in left ==> left[id] == records[id])
  {
  }

  /** What becomes of the rows of a removal that has hidden its files. A row whose object is gone goes
      too, or stays hidden when that update faults; a row whose object is left is visible again
      when the updates before and that one work, and else hidden; every other row is as before. */
  lemma {:induction false} RowsMean(records: map<Id, Record>, ids: seq<Id>, outcomes: seq<bool>, purgeOk: bool, restoreOk: bool)
    requires |ids| == |outcomes| && Distinct(ids)
    requires forall id :: id in ids ==> id in records && records[id].active
    ensures var left := RowsLeft(records, WithOutcome(ids, outcomes, true), WithOutcome(ids, outcomes, false), purgeOk, restoreOk);
            && (forall k :: 0 <= k < |ids| ==>
                  if outcomes[k] && purgeOk then ids[k] !in left
                  else ids[k] in left &&
                       left[ids[k]] == Record(records[ids[k]].stored, !outcomes[k] && restoreOk && (purgeOk || true !in outcomes)))
            && (forall id :: id !in ids ==> (id in left <==> id in records) && (id in left ==> left[id] == records[id]))
  {
    var succeeded, failed := WithOutcome(ids, outcomes, true), WithOutcome(ids, outcomes, false);
    OutcomeDecides(ids, outcomes);
    SomeOutcome(ids, outcomes, true);
    forall k | 0 <= k < |ids|
      ensures var left := RowsLeft(records, succeeded, failed, purgeOk, restoreOk);
              if outcomes[k] && purgeOk then ids[k] !in left
              else ids[k] in left &&
                   left[ids[k]] == Record(records[ids[k]].stored, !outcomes[k] && restoreOk && (purgeOk || true !in outcomes))
    {
      RowsLeftAt(records, succeeded, failed, purgeOk, restoreOk, ids[k]);
    }
    forall id | id !in ids
      ensures var left := RowsLeft(records, succeeded, failed, purgeOk, restoreOk);
              (id in left <==> id in records) && (id in left ==> left[id] == records[id])
    {
      OutcomeMeans(ids, outcomes, true, id);
      OutcomeMeans(ids, outcomes, false, id);
      RowsElsewhere(records, succeeded, failed, purgeOk, restoreOk, id);
    }
  }

  /** The caller is told of success if and only if every object and every row is gone. */
  lemma {:induction false} SuccessExactly(records: map<Id, Record>, ids: seq<Id>, outcomes: seq<bool>, purgeOk: bool, restoreOk: bool)
    requires |ids| == |outcomes| && Distinct(ids)
    requires forall id :: id in ids ==> id in records && records[id].active
    ensures var verdict := Verdict(WithOutcome(ids, outcomes, true), WithOutcome(ids, outcomes, false), purgeOk, restoreOk);
            && (verdict.Success? <==> false !in outcomes && (purgeOk || ids == []))
            && (verdict.Success? ==> verdict.value == |ids|)
  {
    RemovalOutcome(records, ids, outcomes);
    SomeOutcome(ids, outcomes, true);
    SomeOutcome(ids, outcomes, false);
  }

  lemma {:induction false} SomeOutcome(ids: seq<Id>, outcomes: seq<bool>, ok: bool)
    requires |ids| == |outcomes|
    ensures WithOutcome(ids, outcomes, ok) != [] <==> ok in outcomes
  {
    if WithOutcome(ids, outcomes, ok) != [] {
      OutcomeMeans(ids, outcomes, ok, WithOutcome(ids, outcomes, ok)[0]);
    }
    if ok in outcomes {
      var k :| 0 <= k < |outcomes| && outcomes[k] == ok;
      OutcomeMeans(ids, outcomes, ok, ids[k]);
    }
  }

  lemma {:induction false} HideThenRestore(records: map<Id, Record>, succeeded: set<Id>, failed: set<Id>)
    requires succeeded !! failed
    requires forall id :: id in failed ==> id in records && records[id].active
    ensures Hidden(records, succeeded + failed) - succeeded == Hidden(records - succeeded, failed)
    ensures Restored(Hidden(records, succeeded + failed) - succeeded, failed) == records - succeeded
  {
  }

  lemma {:induction false} DistinctOnce(ids: seq<Id>)
    requires Distinct(ids)
    ensures forall id :: multiset(ids)[id] <= 1
    decreases |ids|
  {
    if ids != [] {
      var n := |ids| - 1;
      DistinctOnce(ids[..n]);
      assert ids == ids[..n] + [ids[n]];
      assert ids[n] !in ids[..n];
    }
  }

  // ---------------------------------------------------------------- the same as a run of the saga

  /** The saga's removal j after its first i deletions. */
  function Deleted(s: State, j: nat, ids: seq<Id>, outcomes: seq<bool>, i: nat): State
    requires j in s.jobs && s.jobs[j].Removal? && i <= |ids| == |outcomes|
  {
    var done, left := WithOutcome(ids[..i], outcomes[..i], true), WithOutcome(ids[..i], outcomes[..i], false);
    With(s.(objects := s.objects - Targets(s.records, done)), j,
         s.jobs[j].(pending := IdSet(ids[i..]), succeeded := IdSet(done), failed := IdSet(left)))
  }

  lemma {:induction false} IdSetGrows(ids: seq<Id>, id: Id)
    ensures IdSet(ids + [id]) == IdSet(ids) + {id}
  {
  }

  lemma {:induction false} TargetsGrow(records: map<Id, Record>, ids: seq<Id>, id: Id)
    requires Decodable(records, id)
    ensures Targets(records, ids + [id]) == Targets(records, ids) + {records[id].stored.target.value}
  {
  }

  lemma {:induction false} PendingShrinks(ids: seq<Id>, i: nat)
    requires Distinct(ids) && i < |ids|
    ensures IdSet(ids[i..]) - {ids[i]} == IdSet(ids[i + 1..])
  {
  }

  /** The outcome of deletion i is added to what was done before. */
  lemma {:induction false} OutcomeAdded(records: map<Id, Record>, ids: seq<Id>, outcomes: seq<bool>, i: nat)
    requires i < |ids| == |outcomes| && Decodable(records, ids[i])
    ensures var done, left := WithOutcome(ids[..i], outcomes[..i], true), WithOutcome(ids[..i], outcomes[..i], false);
            var done', left' := WithOutcome(ids[..i + 1], outcomes[..i + 1], true), WithOutcome(ids[..i + 1], outcomes[..i + 1], false);
            if outcomes[i] then
              && IdSet(done') == IdSet(done) + {ids[i]} && IdSet(left') == IdSet(left)
              && Targets(records, done') == Targets(records, done) + {records[ids[i]].stored.target.value}
            else IdSet(left') == IdSet(left) + {ids[i]} && done' == done
  {
    OutcomeStep(ids, outcomes, i, true);
    OutcomeStep(ids, outcomes, i, false);
    var done, left := WithOutcome(ids[..i], outcomes[..i], true), WithOutcome(ids[..i], outcomes[..i], false);
    assert done + [] == done && left + [] == left;
    IdSetGrows(done, ids[i]);
    IdSetGrows(left, ids[i]);
    TargetsGrow(records, done, ids[i]);
  }

  lemma {:induction false} DeleteNext(c: Settings, s: State, j: nat, ids: seq<Id>, outcomes: seq<bool>, i: nat)
    requires i < |ids| == |outcomes| && Distinct(ids)
    requires j in s.jobs && s.jobs[j].Removal? && s.jobs[j].removing.DeleteObjects? && s.jobs[j].files.Keys == IdSet(ids)
    requires ids[i] in s.records && s.records[ids[i]].stored == s.jobs[j].files[ids[i]] && Genuine(s.jobs[j].files[ids[i]])
    ensures var a := DeleteOne(j, ids[i], outcomes[i]);
            && Enabled(c, Deleted(s, j, ids, outcomes, i), a)
            && DeleteObject(Deleted(s, j, ids, outcomes, i), j, ids[i], outcomes[i]) == Deleted(s, j, ids, outcomes, i + 1)
  {
    assert ids[i] in ids[i..];
    PendingShrinks(ids, i);
    OutcomeAdded(s.records, ids, outcomes, i);
  }

  ghost predicate Deletable(s: State, j: nat, ids: seq<Id>) {
    && j in s.jobs && s.jobs[j].Removal? && s.jobs[j].removing.DeleteObjects? && s.jobs[j].files.Keys == IdSet(ids)
    && forall id :: id in ids ==>
                      id in s.records && s.records[id].stored == s.jobs[j].files[id] && Genuine(s.jobs[j].files[id])
  }

  lemma {:induction false} DeletionsAlone(c: Settings, s: State, j: nat, ids: seq<Id>, outcomes: seq<bool>) returns (acts: seq<Action>)
    requires |ids| == |outcomes| && Distinct(ids) && Shaped(s) && Deletable(s, j, ids)
    requires Deleted(s, j, ids, outcomes, 0) == s
    ensures ValidRun(c, s, acts, false) && Shaped(Run(c, s, acts, false))
    ensures Run(c, s, acts, false) == Deleted(s, j, ids, outcomes, |ids|)
  {
    acts := [];
    assert ValidRun(c, s, acts, false) && Run(c, s, acts, false) == s;
    for i := 0 to |ids|
      invariant ValidRun(c, s, acts, false) && Shaped(Run(c, s, acts, false))
      invariant Run(c, s, acts, false) == Deleted(s, j, ids, outcomes, i)
    {
      DeleteNext(c, s, j, ids, outcomes, i);
      acts := OneMore(c, s, acts, DeleteOne(j, ids[i], outcomes[i]), false);
    }
  }

  /** The removal has read its rows and hidden them. */
  lemma {:induction false} HidingAlone(c: Settings, s: State, j: nat, ids: seq<Id>, outcomes: seq<bool>) returns (acts: seq<Action>)
    requires |ids| == |outcomes| && Distinct(ids) && Shaped(s) && RecordsGood(s) && j !in s.jobs
    requires forall id :: id in ids ==> id in s.records && s.records[id].active
    ensures ValidRun(c, s, acts, false) && Shaped(Run(c, s, acts, false))
    ensures var end := Run(c, s, acts, false);
            && Deletable(end, j, ids) && Deleted(end, j, ids, outcomes, 0) == end
            && end.records == Hidden(s.records, IdSet(ids)) && end.objects == s.objects
  {
    assert IdSet(ids) <= ActiveIds(s);
    acts := [];
    assert ValidRun(c, s, acts, false) && Run(c, s, acts, false) == s;
    acts := OneMore(c, s, acts, StartRemoval(j, IdSet(ids)), false);
    acts := OneMore(c, s, acts, Step(j, true), false);
    NothingDeletedYet(Run(c, s, acts, false), j, ids, outcomes);
  }

  lemma {:induction false} NothingDeletedYet(s: State, j: nat, ids: seq<Id>, outcomes: seq<bool>)
    requires |ids| == |outcomes| && j in s.jobs && s.jobs[j].Removal?
    requires s.jobs[j].pending == IdSet(ids) && s.jobs[j].succeeded == {} && s.jobs[j].failed == {}
    ensures Deleted(s, j, ids, outcomes, 0) == s
  {
    assert ids[0..] == ids && ids[..0] == [] && outcomes[..0] == [];
    assert Targets(s.records, []) == {} && IdSet([]) == {};
    assert s.jobs[j := s.jobs[j]] == s.jobs;
  }

  /** The deletions are over: the table updates follow. */
  lemma {:induction false} SettlingAlone(c: Settings, s: State, j: nat, purgeOk: bool, restoreOk: bool) returns (acts: seq<Action>)
    requires Shaped(s) && j in s.jobs && s.jobs[j].Removal? && s.jobs[j].removing.DeleteObjects? && s.jobs[j].pending == {}
    ensures ValidRun(c, s, acts, false)
    ensures var job, end := s.jobs[j], Run(c, s, acts, false);
            && end.objects == s.objects && j !in end.jobs
            && end.records ==
                 if job.succeeded != {} && !purgeOk then s.records
                 else if restoreOk then Restored(s.records - job.succeeded, job.failed)
                 else s.records - job.succeeded
  {
    acts := [];
    assert ValidRun(c, s, acts, false) && Run(c, s, acts, false) == s;
    acts := OneMore(c, s, acts, Step(j, true), false);
    acts := OneMore(c, s, acts, Step(j, purgeOk), false);
    if s.jobs[j].succeeded == {} || purgeOk {
      assert s.records - {} == s.records;
      acts := OneMore(c, s, acts, Step(j, restoreOk), false);
    }
  }

  /** The rows of the saga's last steps are those of the service. */
  lemma {:induction false} SettledRows(records: map<Id, Record>, ids: seq<Id>, outcomes: seq<bool>, purgeOk: bool, restoreOk: bool)
    requires |ids| == |outcomes| && Distinct(ids)
    requires forall id :: id in ids ==> id in records && records[id].active
    ensures var succeeded, failed := WithOutcome(ids, outcomes, true), WithOutcome(ids, outcomes, false);
            var hidden := Hidden(records, IdSet(ids));
            RowsLeft(records, succeeded, failed, purgeOk, restoreOk) ==
            if IdSet(succeeded) != {} && !purgeOk then hidden
            else if restoreOk then Restored(hidden - IdSet(succeeded), IdSet(failed))
            else hidden - IdSet(succeeded)
  {
    var succeeded, failed := WithOutcome(ids, outcomes, true), WithOutcome(ids, outcomes, false);
    RemovalOutcome(records, ids, outcomes);
    NoIds(succeeded);
    NoIds(failed);
    NothingRestored(records - IdSet(succeeded));
  }

  /** All deletions have been tried. */
  lemma {:induction false} TriedAlone(c: Settings, s: State, j: nat, ids: seq<Id>, outcomes: seq<bool>) returns (acts: seq<Action>)
    requires |ids| == |outcomes| && Distinct(ids) && Shaped(s) && RecordsGood(s) && j !in s.jobs
    requires forall id :: id in ids ==> id in s.records && s.records[id].active
    ensures ValidRun(c, s, acts, false) && Shaped(Run(c, s, acts, false))
    ensures var end, succeeded := Run(c, s, acts, false), WithOutcome(ids, outcomes, true);
            && end.records == Hidden(s.records, IdSet(ids)) && end.objects == s.objects - Targets(s.records, succeeded)
            && j in end.jobs && end.jobs[j].Removal? && end.jobs[j].removing.DeleteObjects? && end.jobs[j].pending == {}
            && end.jobs[j].succeeded == IdSet(succeeded) && end.jobs[j].failed == IdSet(WithOutcome(ids, outcomes, false))
  {
    HidingKeepsTargets(s.records, IdSet(ids), WithOutcome(ids, outcomes, true));
    acts := HidingAlone(c, s, j, ids, outcomes);
    var more := DeletionsAlone(c, Run(c, s, acts, false), j, ids, outcomes);
    assert ids[..|ids|] == ids && outcomes[..|ids|] == outcomes;
    FileSaga.Join(c, s, acts, more, false);
    acts := acts + more;
  }

  /** An upload up to its put. */
  lemma {:induction false} PutAlone(c: Settings, s: State, j: nat, id: Id, storageType: StorageType, key: string, putOk: bool)
    returns (acts: seq<Action>)
    requires Shaped(s) && Enabled(c, s, StartUpload(j, id, storageType, key))
    ensures acts == [StartUpload(j, id, storageType, key), Step(j, putOk)]
    ensures ValidRun(c, s, acts, false) && Shaped(Run(c, s, acts, false))
    ensures var stored, end := BlobOf(c, Put(c, storageType, key)), Run(c, s, acts, false);
            && end.records == s.records
            && end.objects == (if putOk then s.objects + {stored.place} else s.objects)
            && end.jobs == if putOk then s.jobs[j := Upload(id, stored, CreateRecord)] else s.jobs
  {
    acts := [];
    assert ValidRun(c, s, acts, false) && Run(c, s, acts, false) == s;
    acts := OneMore(c, s, acts, StartUpload(j, id, storageType, key), false);
    acts := OneMore(c, s, acts, Step(j, putOk), false);
    assert s.jobs - {j} == s.jobs;
  }

  /** The rest of an upload whose object is put. */
  lemma {:induction false} CreateAlone(c: Settings, s: State, j: nat, createOk: bool, rollBackOk: bool) returns (acts: seq<Action>)
    requires Shaped(s) && j in s.jobs && s.jobs[j].Upload? && s.jobs[j].doing.CreateRecord?
    ensures acts == [Step(j, createOk)] + if createOk then [] else [Step(j, rollBackOk)]
    ensures ValidRun(c, s, acts, false)
    ensures var job, end := s.jobs[j], Run(c, s, acts, false);
            && end.jobs == s.jobs - {j}
            && end.records == (if createOk then s.records[job.id := Record(job.stored, true)] else s.records)
            && end.objects == if createOk || !rollBackOk then s.objects else s.objects - {job.stored.place}
  {
    acts := [];
    assert ValidRun(c, s, acts, false) && Run(c, s, acts, false) == s;
    acts := OneMore(c, s, acts, Step(j, createOk), false);
    if !createOk {
      acts := OneMore(c, s, acts, Step(j, rollBackOk), false);
    }
  }

  /** An upload run alone does what CreateFileRecord does: with the record created it is visible and
      has its object; with a fault there, no record is left, and the object only when the roll-back
      faults too. */
  lemma {:induction false} UploadAlone(
    c: Settings, s: State, j: nat, id: Id, storageType: StorageType, key: string, createOk: bool, rollBackOk: bool)
    returns (acts: seq<Action>)
    requires Shaped(s) && Enabled(c, s, StartUpload(j, id, storageType, key)) && s.objects <= s.usedPlaces
    ensures acts == [StartUpload(j, id, storageType, key), Step(j, true), Step(j, createOk)]
                    + if createOk then [] else [Step(j, rollBackOk)]
    ensures ValidRun(c, s, acts, false)
    ensures var stored, end := BlobOf(c, Put(c, storageType, key)), Run(c, s, acts, false);
            && end.jobs == s.jobs
            && end.records == (if createOk then s.records[id := Record(stored, true)] else s.records)
            && end.objects == if createOk || !rollBackOk then s.objects + {stored.place} else s.objects
  {
    acts := PutAlone(c, s, j, id, storageType, key, true);
    var more := CreateAlone(c, Run(c, s, acts, false), j, createOk, rollBackOk);
    FileSaga.Join(c, s, acts, more, false);
    acts := acts + more;
    assert s.jobs - {j} == s.jobs;
  }

  /** RemoveFiles, run alone, is a run of the saga: same objects, same rows, nothing in flight. */
  lemma {:induction false} RemovalAlone(c: Settings, s: State, j: nat, ids: seq<Id>, outcomes: seq<bool>, purgeOk: bool, restoreOk: bool)
    returns (acts: seq<Action>)
    requires |ids| == |outcomes| && Distinct(ids) && Shaped(s) && RecordsGood(s) && j !in s.jobs
    requires forall id :: id in ids ==> id in s.records && s.records[id].active
    ensures ValidRun(c, s, acts, false)
    ensures var succeeded, failed := WithOutcome(ids, outcomes, true), WithOutcome(ids, outcomes, false);
            var end := Run(c, s, acts, false);
            && end.objects == s.objects - Targets(s.records, succeeded)
            && end.records == RowsLeft(s.records, succeeded, failed, purgeOk, restoreOk)
            && j !in end.jobs
  {
    acts := TriedAlone(c, s, j, ids, outcomes);
    var more := SettlingAlone(c, Run(c, s, acts, false), j, purgeOk, restoreOk);
    FileSaga.Join(c, s, acts, more, false);
    acts := acts + more;
    SettledRows(s.records, ids, outcomes, purgeOk, restoreOk);
  }

  lemma {:induction false} NoIds(ids: seq<Id>)
    ensures IdSet(ids) == {} <==> ids == []
  {
    assert ids != [] ==> ids[0] in IdSet(ids);
  }

  lemma {:induction false} NothingRestored(records: map<Id, Record>)
    ensures Restored(records, {}) == records && Hidden(records, {}) == records
  {
  }
}
