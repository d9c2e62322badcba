/** The life cycle of the CJK index, which exists only where its tokenizer loads and which processes with
    and without the tokenizer open in turn. */
module CjkIndex {
  import opened Lineage
  import opened FullText

  /** Every non-tool row and nothing else, each under its own text. */
  predicate Complete(st: Store) {
    st.docs == map id | id in st.rows && st.rows[id].role != "tool" :: Whole(Cjk, st.rows[id])
  }

  lemma ExactWithoutMarkersIsComplete(st: Store)
    requires Exact(Cjk, st) && st.gate.high.None?
    ensures Complete(st)
  {
    ExactIsExpected(Cjk, st);
    assert Expected(Cjk, st).Keys == set id | id in st.rows && st.rows[id].role != "tool";
  }

  /** What all processes share: the rows with the index (`store.live` says whether its triggers are
      installed), whether its table exists, and the breadcrumb of a gap of unknown extent. */
  class CjkDatabase {
    var store: Store
    var present: bool
    var stale: bool

    /** Installed triggers imply an exact index; a breadcrumb implies that there are none. */
    ghost predicate Valid()
      reads this
    {
      && Kept(Cjk, store)
      && (present ==> (store.live <==> !stale))
      && (!present ==> !store.live && store.gate == NO_GATE)
    }

    constructor ()
      ensures Valid() && !present && !stale && store == EMPTY.(live := false)
    {
      store, present, stale := EMPTY.(live := false), false, false;
    }

    // -------------------------------------------------------------- Opens

    method MaxId() returns (top: nat)
      ensures top == Greatest(store.rows.Keys)
    {
      var todo := store.rows.Keys;
      top := 0;
      while todo != {}
        invariant todo <= store.rows.Keys
        invariant forall id :: id in store.rows.Keys - todo ==> id <= top
        invariant top == 0 || top in store.rows.Keys
        decreases |todo|
      {
        var id :| id in todo;
        if top < id { top := id; }
        assert store.rows.Keys - (todo - {id}) == store.rows.Keys - todo + {id};
        todo := todo - {id};
      }
      assert store.rows.Keys - todo == store.rows.Keys;
    }

    /** Create, repair or heal the index at an open, and say whether this process may serve it. */
    method EnsureFtsCjkSchema(loaded: bool) returns (available: bool)
      requires Valid()
      modifies this
      ensures Valid()
      ensures available ==> store.live && Complete(store)
      ensures available <==> loaded && !stale && store.gate.high.None?
      ensures store.rows == old(store).rows && store.nextId == old(store).nextId
      ensures present == (loaded || old(present))
      ensures store
           == if !loaded then old(store).(live := false)
              else if !old(present) then
                old(store).(docs := map[], corrupt := false, live := true,
                            gate := if exists id :: id in old(store).rows && old(store).rows[id].role != "tool"
                                    then Gate(Some(Greatest(old(store).rows.Keys)), Some(0)) else NO_GATE)
              else old(store).(live := !old(stale))
      ensures stale == if old(present) then old(stale) || (!loaded && old(store).live) else !loaded && old(stale)
    {
      if !loaded {
        if present && store.live {
          stale := true;
          store := store.(live := false);
        }
        return false;
      }
      if !present {
        present, stale := true, false;
        store := store.(docs := map[], corrupt := false);
        var texts := set id | id in store.rows && store.rows[id].role != "tool";
        assert forall id :: id in store.rows && store.rows[id].role != "tool" ==> id in texts;
        if texts != {} {
          assert exists id :: id in texts;
          var top := MaxId();
          store := store.(gate := Gate(Some(top), Some(0)));
        }
        CreatedExact(store, texts);
      }
      if stale { return false; }
      ExactLive(store);
      store := store.(live := true);
      available := store.gate.high.None?;
      if available { ExactWithoutMarkersIsComplete(store); }
    }

    /** The transaction of a from-scratch rebuild; the caller then opens the schema again. */
    method ResetIfStale(loaded: bool) returns (reset: bool)
      requires Valid()
      modifies this
      ensures Valid()
      ensures reset <==> loaded && old(stale)
      ensures if reset then
                !present && !stale
                && store == old(store).(live := false, docs := map[], corrupt := false, gate := NO_GATE)
              else store == old(store) && present == old(present) && stale == old(stale)
    {
      if !loaded || !stale { return false; }
      store := store.(live := false, docs := map[], corrupt := false, gate := NO_GATE);
      present, stale := false, false;
      return true;
    }

    // -------------------------------------------------------------- Writes

    method CreateSession(sid: SessionId, taken: bool)
      requires Valid()
      modifies this`store
      ensures Valid() && store == AddSession(old(store), sid, taken)
    {
      StepKeeps(Cjk, store, NewSession(sid, taken));
      store := AddSession(store, sid, taken);
    }

    /** A session's messages, one by one, and then its row. */
    method PruneSession(sid: SessionId)
      requires Valid()
      modifies this`store
      ensures Valid() && store.sessions == old(store).sessions - {sid}
      ensures store.rows == map id | id in old(store).rows && old(store).rows[id].session != sid :: old(store).rows[id]
    {
      var todo := set id | id in store.rows && store.rows[id].session == sid;
      while todo != {}
        invariant Valid() && store.sessions == old(store).sessions
        invariant todo == set id | id in store.rows && store.rows[id].session == sid
        invariant forall id :: id in store.rows ==> id in old(store).rows && store.rows[id] == old(store).rows[id]
        invariant forall id :: id in old(store).rows && old(store).rows[id].session != sid ==> id in store.rows
        decreases |todo|
      {
        var id :| id in todo;
        DeleteRemoves(Cjk, store, id);
        DeleteMessage(id);
        todo := todo - {id};
      }
      assert forall id :: id in store.rows ==> store.rows[id].session != sid by {
        assert forall id :: id in store.rows && store.rows[id].session == sid ==> id in todo;
      }
      StepKeeps(Cjk, store, DropSessionRow(sid));
      store := DropSession(store, sid);
    }

    method InsertMessage(r: Rec)
      requires Valid()
      modifies this`store
      ensures Valid() && store == InsertRow(Cjk, old(store), r)
    {
      StepKeeps(Cjk, store, Insert(r));
      ShapeKept(store, Insert(r));
      store := InsertRow(Cjk, store, r);
    }

    method DeleteMessage(id: nat)
      requires Valid()
      modifies this`store
      ensures Valid() && store == DeleteRow(Cjk, old(store), id)
    {
      StepKeeps(Cjk, store, Delete(id));
      ShapeKept(store, Delete(id));
      store := DeleteRow(Cjk, store, id);
    }

    method UpdateMessage(id: nat, r: Rec)
      requires Valid()
      modifies this`store
      ensures Valid() && store == UpdateRow(Cjk, old(store), id, r)
    {
      StepKeeps(Cjk, store, Update(id, r));
      ShapeKept(store, Update(id, r));
      store := UpdateRow(Cjk, store, id, r);
    }

    /** A write hit a corrupt index: the breadcrumb and the drop of the triggers commit together. */
    method EnterFtsFailOpen()
      requires Valid()
      modifies this
      ensures Valid() && !store.live
      ensures stale == (old(stale) || old(store).live)
      ensures store == old(store).(live := false) && present == old(present)
    {
      if store.live {
        stale := true;
      }
      store := store.(live := false);
    }

    // -------------------------------------------------------------- Backfill

    /** One chunk; true while work remains. */
    method RebuildStep() returns (more: bool)
      requires Valid()
      modifies this`store
      ensures Valid() && store == Chunk(Cjk, old(store))
      ensures more <==> store != old(store) && store.gate.progress.value < store.gate.high.value
    {
      StepKeeps(Cjk, store, BackfillChunk);
      ShapeKept(store, BackfillChunk);
      var before := store.gate;
      store := Chunk(Cjk, store);
      return store.gate != before && store.gate.progress.value < store.gate.high.value;
    }

    /** The whole window is backfilled: sweep, drop the marks, serve.  The index is announced in any case; it
        is complete when it is not stale, and when it is stale exactly when the gap happens to be closed. */
    method RebuildFinish() returns (available: bool)
      requires Valid()
      requires store.gate.high.Some? && store.gate.progress.Some? && store.gate.progress.value >= store.gate.high.value
      modifies this`store
      ensures Valid() && store == Finish(Cjk, old(store)) && available
      ensures Complete(store) <==> GapClosed(old(store))
      ensures !stale ==> Complete(store)
    {
      StepKeeps(Cjk, store, FinishRebuild);
      ShapeKept(store, FinishRebuild);
      FinishCompleteIff(store);
      store := Finish(Cjk, store);
      if store.live { ExactWithoutMarkersIsComplete(store); }
      return true;
    }
  }

  /** About one id: an entry is the text of a non-tool row, and a non-tool row has an entry. */
  predicate RightText(st: Store, id: nat) {
    if id in st.docs then id in st.rows && st.rows[id].role != "tool" && st.docs[id] == Whole(Cjk, st.rows[id])
    else id in st.rows ==> st.rows[id].role == "tool"
  }

  lemma CompletePointwise(st: Store)
    ensures Complete(st) <==> forall id: nat :: RightText(st, id)
  {
    var all := map id | id in st.rows && st.rows[id].role != "tool" :: Whole(Cjk, st.rows[id]);
    if Complete(st) {
      forall id: nat ensures RightText(st, id) {
        assert id in st.docs <==> id in all;
      }
    }
    if forall id: nat :: RightText(st, id) {
      forall id: nat ensures id in st.docs <==> id in all {
        assert RightText(st, id);
      }
      forall id: nat | id in st.docs ensures st.docs[id] == all[id] {
        assert RightText(st, id);
      }
    }
  }

  /** Right already, or missing and within the sweep. */
  predicate ClosedAt(st: Store, id: nat)
    requires st.gate.high.Some?
  {
    RightText(st, id)
    || (id !in st.docs && st.gate.high.value - 1000 < id <= st.gate.high.value + 1000)
  }

  /** No entry for a missing or a tool row, no entry with another text than its row's, and no missing row the
      sweep does not reach. */
  predicate GapClosed(st: Store)
    requires st.gate.high.Some?
  {
    && (forall id :: id in st.docs ==> id in st.rows && st.rows[id].role != "tool")
    && (forall id :: id in st.docs && id in st.rows ==> st.docs[id] == Whole(Cjk, st.rows[id]))
    && (forall id :: id in st.rows && st.rows[id].role != "tool" && id !in st.docs ==>
          st.gate.high.value - 1000 < id <= st.gate.high.value + 1000)
  }

  lemma GapClosedPointwise(st: Store)
    requires st.gate.high.Some?
    ensures GapClosed(st) <==> forall id: nat :: ClosedAt(st, id)
  {
    if forall id: nat :: ClosedAt(st, id) {
      forall id: nat | id in st.docs || id in st.rows ensures ClosedAt(st, id) {
      }
    }
  }

  lemma FinishRightAt(st: Store, id: nat)
    requires st.gate.high.Some?
    ensures RightText(Finish(Cjk, st), id) <==> ClosedAt(st, id)
  {
    var hw := st.gate.high.value;
    var missing := Window(Cjk, st, hw - SWEEP_SPAN, hw + SWEEP_SPAN) - st.docs.Keys;
    var t := Finish(Cjk, st);
    assert id in t.docs <==> id in st.docs || id in missing;
  }

  /** Finishing any backfill, exact or not, ends complete exactly when every entry is right and every missing
      row lies within the sweep. */
  lemma FinishCompleteIff(st: Store)
    requires st.gate.high.Some?
    ensures Complete(Finish(Cjk, st)) <==> GapClosed(st)
  {
    CompletePointwise(Finish(Cjk, st));
    GapClosedPointwise(st);
    forall id: nat ensures RightText(Finish(Cjk, st), id) <==> ClosedAt(st, id) {
      FinishRightAt(st, id);
    }
  }

  /** Even with the backfill done, an index that was detached while a row was deleted is announced with an
      entry for a row that is gone. */
  lemma StaleFinishKeepsGap(st: Store, id: nat)
    requires st.gate.high.Some? && id in st.docs && id !in st.rows
    ensures !Complete(Finish(Cjk, st)) && id in Finish(Cjk, st).docs
  {
    FinishCompleteIff(st);
  }

  /** It takes one message, its backfill, a detach and the message's deletion to get there. */
  lemma {:induction false} StaleFinishReached() returns (st: Store)
    ensures Reached(Cjk, st) && !st.live
    ensures st.gate.high.Some? && st.gate.progress == st.gate.high && !Complete(Finish(Cjk, st))
  {
    var row := Rec("s", "user", "hello", "", "");
    var seeded := Seed(Filled(Cjk, row, 1));
    FilledIsReached(Cjk, row, 1);
    SeededHides(Cjk, row, 1);
    assert Hidden(Cjk, seeded, 1);
    var backfilled := Chunk(Cjk, seeded);
    ReachNext(Cjk, seeded, BackfillChunk);
    assert 1 in backfilled.docs && backfilled.gate == Gate(Some(1), Some(1));
    ReachNext(Cjk, backfilled, FailOpen);
    ReachNext(Cjk, Detach(backfilled), Delete(1));
    st := DeleteRow(Cjk, Detach(backfilled), 1);
    assert 1 in st.docs && 1 !in st.rows;
    StaleFinishKeepsGap(st, 1);
  }

  lemma ShapeKept(st: Store, step: Step)
    requires step.Insert? || step.Delete? || step.Update? || step.BackfillChunk? || step.FinishRebuild?
    ensures var t := Apply(Cjk, st, step);
      t.live == st.live && (st.gate == NO_GATE ==> t.gate == NO_GATE)
  {
  }

  /** A just-created index is exact: it is empty, and either no row belongs in it or the window hides all. */
  lemma CreatedExact(st: Store, texts: set<nat>)
    requires Sound(Cjk, st.(gate := NO_GATE)) && !st.corrupt && st.docs == map[]
    requires texts == set id | id in st.rows && st.rows[id].role != "tool"
    requires st.gate == if texts == {} then NO_GATE else Gate(Some(Greatest(st.rows.Keys)), Some(0))
    ensures Sound(Cjk, st) && Exact(Cjk, st)
  {
    forall id: nat ensures Right(Cjk, st, id) {
      assert id in st.rows && st.rows[id].role != "tool" ==> id in texts;
    }
  }

  lemma ExactLive(st: Store)
    requires Exact(Cjk, st)
    ensures Exact(Cjk, st.(live := true))
  {
    forall id: nat ensures Right(Cjk, st.(live := true), id) {
      assert Right(Cjk, st, id);
    }
  }
}
