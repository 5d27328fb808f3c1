/** The in-memory trace store: idempotent saves that stop at the first bad trace (execution/runtime_store.py). */
module RuntimeStore {
  import opened Collections
  import opened RuntimeModel

  type TraceKey = (string, string)

  function KeyOfTrace(t: Trace): TraceKey {
    (t.runId, t.spanId)
  }

  datatype SaveError = InvalidFinish(key: TraceKey) | Collision(key: TraceKey)

  /** The stored traces in insertion order, how many of the batch were new or already there, and why the save stopped. */
  datatype SaveResult = SaveResult(stored: seq<Trace>, added: nat, duplicates: nat, error: Option<SaveError>)

  /** No two traces share a key without being the same trace. */
  ghost predicate Consistent(ts: seq<Trace>) {
    forall s, t :: s in ts && t in ts && KeyOfTrace(s) == KeyOfTrace(t) ==> s == t
  }

  /** What the store always holds: readable traces, one per key. */
  ghost predicate WellStored(ts: seq<Trace>) {
    Distinct(ts) && Consistent(ts) && forall t :: t in ts ==> t.finishedAt.At?
  }

  predicate HasKey(ts: seq<Trace>, k: TraceKey) {
    exists t :: t in ts && KeyOfTrace(t) == k
  }

  function SaveOne(r: SaveResult, t: Trace): SaveResult {
    if r.error.Some? then r
    else if t.finishedAt.Unparsable? then r.(error := Some(InvalidFinish(KeyOfTrace(t))))
    else if t in r.stored then r.(duplicates := r.duplicates + 1)
    else if HasKey(r.stored, KeyOfTrace(t)) then r.(error := Some(Collision(KeyOfTrace(t))))
    else r.(stored := r.stored + [t], added := r.added + 1)
  }

  /** Saving a batch, one trace after the other; after an error nothing more happens and nothing is undone. */
  function Save(stored: seq<Trace>, batch: seq<Trace>): SaveResult {
    if batch == [] then SaveResult(stored, 0, 0, None)
    else SaveOne(Save(stored, batch[..|batch| - 1]), batch[|batch| - 1])
  }

  lemma {:induction false} SaveKeeps(stored: seq<Trace>, batch: seq<Trace>)
    requires WellStored(stored)
    ensures var r := Save(stored, batch);
      && WellStored(r.stored) && stored <= r.stored && |r.stored| == |stored| + r.added
      && (forall t :: t in r.stored ==> t in stored || t in batch)
      && r.added + r.duplicates <= |batch|
  {
    if batch == [] {
    } else {
      var n := |batch| - 1;
      SaveKeeps(stored, batch[..n]);
      assert batch == batch[..n] + [batch[n]];
      OneKeeps(Save(stored, batch[..n]), batch[n]);
      hide WellStored, SaveOne;
    }
  }

  lemma OneKeeps(r: SaveResult, t: Trace)
    requires WellStored(r.stored)
    ensures var r' := SaveOne(r, t);
      && WellStored(r'.stored) && r.stored <= r'.stored && |r'.stored| - |r.stored| == r'.added - r.added
      && (forall s :: s in r'.stored ==> s in r.stored || s == t)
      && r.added + r.duplicates <= r'.added + r'.duplicates <= r.added + r.duplicates + 1
  {
    hide KeyOfTrace;
    if t !in r.stored && !HasKey(r.stored, KeyOfTrace(t)) {
      assert forall s :: s in r.stored ==> KeyOfTrace(s) != KeyOfTrace(t);
      DistinctParts(r.stored, [t]);
    }
  }

  /** A batch is saved without error exactly when its timestamps parse and no key is claimed by two different traces. */
  lemma {:induction false} SaveSucceedsIff(stored: seq<Trace>, batch: seq<Trace>)
    requires WellStored(stored)
    ensures var r := Save(stored, batch);
      && (r.error.None? <==> Consistent(stored + batch) && forall t :: t in batch ==> t.finishedAt.At?)
      && (r.error.None? ==> (forall t :: t in r.stored <==> t in stored || t in batch) && r.added + r.duplicates == |batch|)
  {
    if batch == [] {
      assert stored + batch == stored;
    } else {
      var n := |batch| - 1;
      var front, t := batch[..n], batch[n];
      SaveSucceedsIff(stored, front);
      SaveKeeps(stored, front);
      assert batch == front + [t];
      var r := Save(stored, front);
      ConsistentStep(stored, front, t);
      if r.error.None? {
        StepVerdict(stored, front, t, r);
      }
    }
  }

  lemma ConsistentStep(stored: seq<Trace>, front: seq<Trace>, t: Trace)
    ensures Consistent(stored + (front + [t])) <==>
      Consistent(stored + front) && forall s :: s in stored + front && KeyOfTrace(s) == KeyOfTrace(t) ==> s == t
  {
    hide KeyOfTrace;
    assert forall s :: s in stored + (front + [t]) <==> s in stored + front || s == t;
  }

  lemma StepVerdict(stored: seq<Trace>, front: seq<Trace>, t: Trace, r: SaveResult)
    requires r.error.None? && forall s :: s in r.stored <==> s in stored + front
    requires Consistent(stored + front)
    ensures SaveOne(r, t).error.None? <==>
      t.finishedAt.At? && forall s :: s in stored + front && KeyOfTrace(s) == KeyOfTrace(t) ==> s == t
    ensures SaveOne(r, t).error.None? ==> forall s :: s in SaveOne(r, t).stored <==> s in stored + front || s == t
  {
    hide KeyOfTrace;
  }

  /** Saving again what is already stored changes nothing and reports every trace as a duplicate. */
  lemma {:induction false} SaveStored(stored: seq<Trace>, batch: seq<Trace>)
    requires WellStored(stored) && forall t :: t in batch ==> t in stored
    ensures Save(stored, batch) == SaveResult(stored, 0, |batch|, None)
  {
    if batch != [] {
      assert batch == batch[..|batch| - 1] + [batch[|batch| - 1]];
      SaveStored(stored, batch[..|batch| - 1]);
    }
  }

  /** Re-saving a batch that was saved. */
  lemma ResaveIsIdempotent(stored: seq<Trace>, batch: seq<Trace>)
    requires WellStored(stored) && Save(stored, batch).error.None?
    ensures Save(Save(stored, batch).stored, batch) == SaveResult(Save(stored, batch).stored, 0, |batch|, None)
  {
    SaveKeeps(stored, batch);
    SaveSucceedsIff(stored, batch);
    SaveStored(Save(stored, batch).stored, batch);
  }

  /** A save that fails stops at the first trace that cannot be saved, and leaves exactly the traces before it. */
  lemma {:induction false} ErrorKeepsPrefix(stored: seq<Trace>, batch: seq<Trace>) returns (i: nat)
    requires Save(stored, batch).error.Some?
    ensures i < |batch| && Save(stored, batch[..i]).error.None? && Save(stored, batch).stored == Save(stored, batch[..i]).stored
    ensures Save(stored, batch[..i + 1]).error == Save(stored, batch).error
  {
    hide KeyOfTrace, HasKey;
    var n := |batch| - 1;
    if Save(stored, batch[..n]).error.Some? {
      i := ErrorKeepsPrefix(stored, batch[..n]);
      assert batch[..n][..i] == batch[..i] && batch[..n][..i + 1] == batch[..i + 1];
    } else {
      i := n;
      assert batch[..n + 1] == batch;
    }
  }

  /** A failed save leaves the store as it was exactly when every trace before the first bad one was already stored. */
  lemma FailedSaveIsAtomicIff(stored: seq<Trace>, batch: seq<Trace>, i: nat)
    requires WellStored(stored) && i < |batch| && Save(stored, batch[..i]).error.None? && Save(stored, batch[..i + 1]).error.Some?
    ensures Save(stored, batch).error == Save(stored, batch[..i + 1]).error
    ensures Save(stored, batch).stored == stored <==> forall t :: t in batch[..i] ==> t in stored
  {
    hide SaveOne, KeyOfTrace, Consistent;
    ErrorStays(stored, batch, i + 1);
    SaveStep(stored, batch, i);
    ErrorStores(Save(stored, batch[..i]), batch[i]);
    SaveSucceedsIff(stored, batch[..i]);
    if forall t :: t in batch[..i] ==> t in stored { SaveStored(stored, batch[..i]); }
  }

  lemma ErrorStores(r: SaveResult, t: Trace)
    requires SaveOne(r, t).error.Some?
    ensures SaveOne(r, t).stored == r.stored
  {
  }

  /** A save that fails is not undone: the traces before the collision stay stored. */
  lemma CollisionIsNotAtomic(t: Trace, u: Trace)
    requires t.finishedAt.At? && u.finishedAt.At? && KeyOfTrace(t) == KeyOfTrace(u) && t != u
    ensures Save([], [t, u]) == SaveResult([t], 1, 0, Some(Collision(KeyOfTrace(u))))
  {
    hide Save, KeyOfTrace;
    SaveStep([], [t, u], 0);
    SaveStep([], [t, u], 1);
    NothingSaved([], [t, u]);
    assert [t, u][..2] == [t, u];
    assert [] + [t] == [t] && t in [t] && u !in [t];
    assert HasKey([t], KeyOfTrace(u));
  }

  // ----- The store -----

  /** A dictionary keyed by run and span, with its insertion order. */
  class InMemoryRuntimeSummaryStore {
    var byKey: map<TraceKey, Trace>
    var order: seq<TraceKey>

    ghost predicate Valid()
      reads this
    {
      && Distinct(order) && Elements(order) == byKey.Keys
      && forall k :: k in byKey ==> KeyOfTrace(byKey[k]) == k && byKey[k].finishedAt.At?
    }

    /** The stored traces in insertion order. */
    function Traces(): (ts: seq<Trace>)
      requires forall k :: k in order ==> k in byKey
      reads this
      ensures |ts| == |order| && forall i :: 0 <= i < |ts| ==> ts[i] == byKey[order[i]]
    {
      seq(|order|, i requires 0 <= i < |order| && (forall k :: k in order ==> k in byKey) reads this => byKey[order[i]])
    }

    constructor ()
      ensures Valid() && order == [] && byKey == map[]
    {
      byKey, order := map[], [];
    }

    lemma Lookup(t: Trace)
      requires Valid() && forall k :: k in order ==> k in byKey
      ensures HasKey(Traces(), KeyOfTrace(t)) <==> KeyOfTrace(t) in byKey
      ensures t in Traces() <==> KeyOfTrace(t) in byKey && byKey[KeyOfTrace(t)] == t
    {
      var k := KeyOfTrace(t);
      if k in byKey {
        assert k in Elements(order);
        var i :| 0 <= i < |order| && order[i] == k;
        assert Traces()[i] == byKey[k];
      }
      forall s | s in Traces() ensures KeyOfTrace(s) in byKey && byKey[KeyOfTrace(s)] == s {
        var i :| 0 <= i < |order| && Traces()[i] == s;
        assert order[i] in order;
      }
    }

    lemma StoredIsWell()
      requires Valid() && forall k :: k in order ==> k in byKey
      ensures WellStored(Traces())
    {
      forall i, j | 0 <= i < j < |order| ensures Traces()[i] != Traces()[j] {
        assert order[i] in order && order[j] in order;
      }
      forall s | s in Traces() ensures s.finishedAt.At? && KeyOfTrace(s) in byKey && byKey[KeyOfTrace(s)] == s { Lookup(s); }
    }

    method SaveTraces(batch: seq<Trace>) returns (r: Result<(nat, nat), SaveError>)
      requires Valid() && forall k :: k in order ==> k in byKey
      modifies this
      ensures Valid() && forall k :: k in order ==> k in byKey
      ensures var result := Save(old(Traces()), batch);
        && Traces() == result.stored
        && r == if result.error.Some? then Err(result.error.value) else Ok((result.added, result.duplicates))
    {
      hide Save, SaveOne, HasKey, KeyOfTrace, Distinct;
      var added, duplicates := 0, 0;
      ghost var before := Traces();
      NothingSaved(before, batch);
      for i := 0 to |batch|
        invariant Valid() && forall k :: k in order ==> k in byKey
        invariant Save(before, batch[..i]) == SaveResult(Traces(), added, duplicates, None)
      {
        var t := batch[i];
        var key := KeyOfTrace(t);
        SaveStep(before, batch, i);
        SaveCases(Traces(), added, duplicates, t);
        Lookup(t);
        if t.finishedAt.Unparsable? {
          ErrorStays(before, batch, i + 1);
          return Err(InvalidFinish(key));
        }
        if key in byKey {
          if byKey[key] != t {
            ErrorStays(before, batch, i + 1);
            return Err(Collision(key));
          }
          duplicates := duplicates + 1;
          continue;
        }
        ghost var stored := Traces();
        assert key !in order;
        DistinctWithOneMore(order, key);
        byKey := byKey[key := t];
        order := order + [key];
        assert Traces() == stored + [t];
        added := added + 1;
      }
      assert batch[..|batch|] == batch;
      return Ok((added, duplicates));
    }
  }

  lemma SaveCases(stored: seq<Trace>, added: nat, duplicates: nat, t: Trace)
    ensures SaveOne(SaveResult(stored, added, duplicates, None), t) ==
      if t.finishedAt.Unparsable? then SaveResult(stored, added, duplicates, Some(InvalidFinish(KeyOfTrace(t))))
      else if t in stored then SaveResult(stored, added, duplicates + 1, None)
      else if HasKey(stored, KeyOfTrace(t)) then SaveResult(stored, added, duplicates, Some(Collision(KeyOfTrace(t))))
      else SaveResult(stored + [t], added + 1, duplicates, None)
  {
  }

  lemma NothingSaved(stored: seq<Trace>, batch: seq<Trace>)
    ensures Save(stored, batch[..0]) == SaveResult(stored, 0, 0, None)
  {
  }

  lemma SaveStep(stored: seq<Trace>, batch: seq<Trace>, i: nat)
    requires i < |batch|
    ensures Save(stored, batch[..i + 1]) == SaveOne(Save(stored, batch[..i]), batch[i])
  {
    assert batch[..i + 1][..i] == batch[..i];
  }

  lemma {:induction false} ErrorStays(stored: seq<Trace>, batch: seq<Trace>, i: nat)
    requires i <= |batch| && Save(stored, batch[..i]).error.Some?
    ensures Save(stored, batch) == Save(stored, batch[..i])
    decreases |batch|
  {
    if i == |batch| {
      assert batch[..i] == batch;
    } else {
      assert batch[..|batch| - 1][..i] == batch[..i];
      ErrorStays(stored, batch[..|batch| - 1], i);
    }
  }
}
