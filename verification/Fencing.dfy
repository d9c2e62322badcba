/** Turn leases over whole runs.  Every conversation key carries the history of its claims; a claim by a
    new holder opens a new ownership epoch, and lease-fenced appends land in epoch order. */
module Fencing {
  import opened Lineage
  import opened Rows
  import opened Transcript
  import opened WellFormedness

  /** A lease-fenced append: under which key, by whom, and in which of that holder's epochs. */
  datatype Entry = Entry(key: SessionId, holder: string, epoch: int)

  /** `claims[k]` lists the holders that opened the epochs of `k`, in order. */
  datatype Traced = Traced(db: Db, claims: map<SessionId, seq<string>>, log: seq<Entry>)

  function ClaimsOf(t: Traced, k: SessionId): seq<string> {
    if k in t.claims then t.claims[k] else []
  }

  /** The last epoch `h` opened; -1 when it never did. */
  function LastEpoch(claims: seq<string>, h: string): int {
    if claims == [] then -1
    else if claims[|claims| - 1] == h then |claims| - 1
    else LastEpoch(claims[..|claims| - 1], h)
  }

  predicate Fenced(step: Step) {
    step.StepAppend? && step.msgs != [] && step.turnHolder != ""
  }

  /** A step of the store, with the epochs and the log it adds. */
  function Advance(t: Traced, step: Step): Traced {
    var d := Apply(t.db, step);
    if step.StepAcquireTurn? then
      var k := LeaseKey(t.db.sessions, step.sid);
      if Owns(d.turns, k, step.holder) && !Owns(t.db.turns, k, step.holder)
      then t.(db := d, claims := t.claims[k := ClaimsOf(t, k) + [step.holder]])
      else t.(db := d)
    else if Fenced(step) && Try(t.db, step).Ok? then
      var k := LeaseKey(t.db.sessions, step.sid);
      t.(db := d, log := t.log + [Entry(k, step.turnHolder, LastEpoch(ClaimsOf(t, k), step.turnHolder))])
    else t.(db := d)
  }

  function Trace(t: Traced, steps: seq<Step>): Traced {
    if steps == [] then t else Advance(Trace(t, steps[..|steps| - 1]), steps[|steps| - 1])
  }

  /** A store whose leases are the only history there is. */
  function Begin(db: Db): Traced {
    Traced(db, map k | k in db.turns :: [db.turns[k].holder], [])
  }

  lemma {:induction false} TraceIsRun(t: Traced, steps: seq<Step>)
    ensures Trace(t, steps).db == Run(t.db, steps)
  {
    if steps != [] {
      TraceIsRun(t, steps[..|steps| - 1]);
    }
  }

  // ---------------------------------------------------------------- Who can hold a lease

  /** The lease table after a step: unchanged, or one of the ways a row can be renewed or removed. */
  ghost predicate TurnsOnlyShrink(a: Leases, b: Leases) {
    forall k :: k in b ==> k in a && b[k].holder == a[k].holder
  }

  lemma GuardTurns(db: Db, sid: SessionId, h: string, ttl: real, rejectTurn: bool, rejectLock: bool, c: Clock)
    ensures var g := Guard(db, sid, None, h, ttl, rejectTurn, rejectLock, false, c);
      g.Ok? ==> TurnsOnlyShrink(db.turns, g.value.turns)
  {
  }

  lemma RowWritersTurns(db: Db, sid: SessionId, msgs: seq<Msg>, mode: ReplaceMode, target: nat, w: Option<int>, n: int)
    ensures AppendRows(db, sid, msgs).Ok? ==> AppendRows(db, sid, msgs).value.turns == db.turns
    ensures ReplaceRows(db, sid, msgs, mode).Ok? ==> ReplaceRows(db, sid, msgs, mode).value.turns == db.turns
    ensures RewindRows(db, sid, target, msgs).Ok? ==> RewindRows(db, sid, target, msgs).value.turns == db.turns
    ensures CompactRows(db, sid, msgs, w, n).Ok? ==> CompactRows(db, sid, msgs, w, n).value.turns == db.turns
  {
  }

  lemma {:induction false} WriterTurns(db: Db, step: Step)
    requires step.StepAppend? || step.StepReplace? || step.StepRewind? || step.StepCompact?
    ensures TurnsOnlyShrink(db.turns, Apply(db, step).turns)
  {
    match step
    case StepAppend(sid, msgs, h, ttl, c) =>
      GuardTurns(db, sid, h, ttl, false, false, c);
      var g := Guard(db, sid, None, h, ttl, false, false, false, c);
      if g.Ok? { RowWritersTurns(g.value, sid, msgs, DeleteAll, 0, None, 0); }
    case StepReplace(sid, msgs, mode, guarded, c) =>
      GuardTurns(db, sid, "", 0.0, true, true, c);
      var g := if guarded then MutationGuard(db, sid, c) else Ok(db);
      if g.Ok? { RowWritersTurns(g.value, sid, msgs, mode, 0, None, 0); }
    case StepRewind(sid, a, c) =>
      GuardTurns(db, sid, "", 0.0, true, true, c);
      var g := MutationGuard(db, sid, c);
      if g.Ok? && RewindCheck(g.value, sid, a).Ok? {
        RowWritersTurns(g.value, sid, RewindCheck(g.value, sid, a).value, DeleteAll, a.target, None, 0);
      }
    case StepCompact(sid, msgs, w, _, n, _) => RowWritersTurns(db, sid, msgs, DeleteAll, 0, w, n);
  }

  lemma OtherTurns(db: Db, step: Step)
    requires !step.StepAcquireTurn?
    requires !step.StepAppend? && !step.StepReplace? && !step.StepRewind? && !step.StepCompact?
    ensures TurnsOnlyShrink(db.turns, Apply(db, step).turns)
  {
  }

  /** Only an acquire gives a key to a holder that did not have it. */
  lemma {:induction false} StepTurns(db: Db, step: Step)
    requires !step.StepAcquireTurn?
    ensures TurnsOnlyShrink(db.turns, Apply(db, step).turns)
  {
    if step.StepAppend? || step.StepReplace? || step.StepRewind? || step.StepCompact? {
      WriterTurns(db, step);
    } else {
      OtherTurns(db, step);
    }
  }

  // ---------------------------------------------------------------- Epoch order

  /** The owner of every lease is the holder that opened the key's latest epoch. */
  ghost predicate OwnersAreLatest(t: Traced) {
    forall k :: k in t.db.turns ==>
      ClaimsOf(t, k) != [] && t.db.turns[k].holder == ClaimsOf(t, k)[|ClaimsOf(t, k)| - 1]
  }

  /** The log names, for each append, an epoch its writer opened. */
  ghost predicate EntriesOwned(t: Traced) {
    forall i :: 0 <= i < |t.log| ==> EntryOwned(t, t.log[i])
  }

  ghost predicate EntryOwned(t: Traced, e: Entry) {
    0 <= e.epoch < |ClaimsOf(t, e.key)| && ClaimsOf(t, e.key)[e.epoch] == e.holder
  }

  /** The log never goes back to an earlier epoch of a key. */
  ghost predicate EpochsAscend(log: seq<Entry>) {
    forall i, j :: 0 <= i < j < |log| && log[i].key == log[j].key ==> log[i].epoch <= log[j].epoch
  }

  ghost predicate InOrder(t: Traced) {
    OwnersAreLatest(t) && EntriesOwned(t) && EpochsAscend(t.log)
  }

  lemma FencedNeedsLease(db: Db, step: Step)
    requires Fenced(step) && Try(db, step).Ok?
    ensures Owns(db.turns, LeaseKey(db.sessions, step.sid), step.turnHolder)
  {
    var g := Guard(db, step.sid, None, step.turnHolder, step.ttl, false, false, false, step.clock);
    assert g.Ok?;
  }

  lemma AcquireTurns(db: Db, step: Step)
    requires step.StepAcquireTurn?
    ensures var d, k := Apply(db, step), LeaseKey(db.sessions, step.sid);
      && (forall x :: x in d.turns && x != k ==> x in db.turns && d.turns[x] == db.turns[x])
      && (k in d.turns && d.turns[k].holder != step.holder ==> k in db.turns && d.turns[k] == db.turns[k])
  {
  }

  lemma AcquireInOrder(t: Traced, step: Step)
    requires InOrder(t) && step.StepAcquireTurn?
    ensures InOrder(Advance(t, step))
  {
    AcquireTurns(t.db, step);
    var t' := Advance(t, step);
    forall i | 0 <= i < |t'.log| ensures EntryOwned(t', t'.log[i]) {
      assert EntryOwned(t, t.log[i]);
    }
  }

  lemma LatestEpoch(claims: seq<string>)
    requires claims != []
    ensures LastEpoch(claims, claims[|claims| - 1]) == |claims| - 1
  {
  }

  lemma AppendInOrder(t: Traced, step: Step)
    requires InOrder(t) && Fenced(step) && Try(t.db, step).Ok?
    ensures InOrder(Advance(t, step))
  {
    StepTurns(t.db, step);
    FencedNeedsLease(t.db, step);
    LatestEpoch(ClaimsOf(t, LeaseKey(t.db.sessions, step.sid)));
    LogInOrder(t, Advance(t, step), LeaseKey(t.db.sessions, step.sid), step.turnHolder);
  }

  lemma LogInOrder(t: Traced, t': Traced, k: SessionId, h: string)
    requires InOrder(t) && t'.claims == t.claims && TurnsOnlyShrink(t.db.turns, t'.db.turns)
    requires ClaimsOf(t, k) != [] && ClaimsOf(t, k)[|ClaimsOf(t, k)| - 1] == h
    requires t'.log == t.log + [Entry(k, h, |ClaimsOf(t, k)| - 1)]
    ensures InOrder(t')
  {
    forall i | 0 <= i < |t'.log| ensures EntryOwned(t', t'.log[i]) {
      assert i < |t.log| ==> EntryOwned(t, t.log[i]);
    }
    forall i, j | 0 <= i < j < |t'.log| && t'.log[i].key == t'.log[j].key
      ensures t'.log[i].epoch <= t'.log[j].epoch
    {
      assert EntryOwned(t, t.log[i]);
    }
  }

  lemma {:induction false} AdvanceInOrder(t: Traced, step: Step)
    requires InOrder(t)
    ensures InOrder(Advance(t, step))
  {
    if step.StepAcquireTurn? {
      AcquireInOrder(t, step);
    } else if Fenced(step) && Try(t.db, step).Ok? {
      AppendInOrder(t, step);
    } else {
      StepTurns(t.db, step);
      var t' := Advance(t, step);
      forall i | 0 <= i < |t'.log| ensures EntryOwned(t', t'.log[i]) {
        assert EntryOwned(t, t.log[i]);
      }
    }
  }

  lemma {:induction false} TraceInOrder(t: Traced, steps: seq<Step>)
    requires InOrder(t)
    ensures InOrder(Trace(t, steps))
  {
    if steps != [] {
      TraceInOrder(t, steps[..|steps| - 1]);
      AdvanceInOrder(Trace(t, steps[..|steps| - 1]), steps[|steps| - 1]);
    }
  }

  /** Over every run, the appends of a conversation land in ownership-epoch order, and two appends of one
      epoch have the same writer: no other holder's append lies between them. */
  lemma AppendsInEpochOrder(db: Db, steps: seq<Step>, i: nat, j: nat)
    requires i < j < |Trace(Begin(db), steps).log|
    requires Trace(Begin(db), steps).log[i].key == Trace(Begin(db), steps).log[j].key
    ensures var log := Trace(Begin(db), steps).log;
      && log[i].epoch <= log[j].epoch
      && (log[i].epoch == log[j].epoch ==> log[i].holder == log[j].holder)
  {
    TraceInOrder(Begin(db), steps);
  }

  // ---------------------------------------------------------------- Losing and keeping a lease

  /** An attempt by `h` to acquire the conversation `k`, as the store stands. */
  predicate Reacquires(db: Db, step: Step, k: SessionId, h: string) {
    step.StepAcquireTurn? && step.holder == h && LeaseKey(db.sessions, step.sid) == k
  }

  /** No step of the run is one. */
  ghost predicate NeverReacquires(db: Db, steps: seq<Step>, k: SessionId, h: string) {
    forall i :: 0 <= i < |steps| ==> !Reacquires(Run(db, steps[..i]), steps[i], k, h)
  }

  lemma {:induction false} LeaseNeverReturns(db: Db, steps: seq<Step>, k: SessionId, h: string)
    requires !Owns(db.turns, k, h) && NeverReacquires(db, steps, k, h)
    ensures !Owns(Run(db, steps).turns, k, h)
  {
    if steps != [] {
      var init, last := steps[..|steps| - 1], steps[|steps| - 1];
      var mid := Run(db, init);
      forall i | 0 <= i < |init| ensures init[..i] == steps[..i] && init[i] == steps[i] {
      }
      assert NeverReacquires(db, init, k, h);
      LeaseNeverReturns(db, init, k, h);
      assert !Reacquires(mid, last, k, h);
      if last.StepAcquireTurn? {
        AcquireTurns(mid, last);
      } else {
        StepTurns(mid, last);
      }
    }
  }

  /** A holder that lost the lease of a conversation, by another claim or by a reclaiming mutation, is refused
      on every session of the conversation until it acquires that conversation again. */
  lemma {:induction false} StaleWriterRefused(db: Db, steps: seq<Step>, k: SessionId, h: string,
                                              sid: SessionId, msgs: seq<Msg>, ttl: real, c: Clock)
    requires h != "" && msgs != []
    requires !Owns(db.turns, k, h) && NeverReacquires(db, steps, k, h)
    requires LeaseKey(Run(db, steps).sessions, sid) == k
    ensures Append(Run(db, steps), sid, msgs, h, ttl, c) == Err(TurnLeaseLost)
  {
    LeaseNeverReturns(db, steps, k, h);
  }

  /** A try to acquire ends with the caller owning the conversation exactly when nobody had it, its row was
      stale or the caller had it already; a gained lease is the caller's alone and runs its full time, and a
      try that gains nothing changes nothing. */
  lemma {:induction false} ClaimSucceedsIff(db: Db, sid: SessionId, h: string, ttl: real, c: Clock)
    ensures sid == "" || h == "" ==> AcquireTurn(db, sid, h, ttl, c) == db
    ensures var d, k := AcquireTurn(db, sid, h, ttl, c), LeaseKey(db.sessions, sid);
      sid != "" && h != "" ==>
        && (Owns(d.turns, k, h) <==> k !in db.turns || Stale(db.turns[k], c) || db.turns[k].holder == h)
        && (k !in db.turns || Stale(db.turns[k], c) ==>
              (forall x :: x != h ==> !Owns(d.turns, k, x)) && d.turns[k].expiresAt >= c.now + ttl)
        && (k in db.turns && !Stale(db.turns[k], c) ==> d == db)
  {
    var k := LeaseKey(db.sessions, sid);
    if sid != "" && h != "" && k in db.turns && !Stale(db.turns[k], c) {
      assert AcquireTurn(db, sid, h, ttl, c).turns == db.turns;
    }
  }

  lemma {:induction false} MutationTakesLease(db: Db, step: Step, h: string)
    requires (step.StepReplace? && step.guarded) || step.StepRewind?
    requires Try(db, step).Ok?
    ensures !Owns(Apply(db, step).turns, LeaseKey(db.sessions, step.sid), h)
  {
    var g := MutationGuard(db, step.sid, step.clock);
    assert g.Ok? && LeaseKey(db.sessions, step.sid) !in g.value.turns;
    match step {
      case StepReplace(sid, msgs, mode, _, _) => RowWritersTurns(g.value, sid, msgs, mode, 0, None, 0);
      case StepRewind(sid, a, _) =>
        RowWritersTurns(g.value, sid, RewindCheck(g.value, sid, a).value, DeleteAll, a.target, None, 0);
    }
  }

  /** Expiry alone takes nothing: the owner of an expired, unclaimed row still writes, and the write
      renews the lease past the reading of the clock. */
  lemma ExpiredOwnerWrites(db: Db, sid: SessionId, msgs: seq<Msg>, h: string, ttl: real, c: Clock)
    requires h != "" && msgs != [] && sid in db.sessions && !Closed(db, sid)
    requires Owns(db.turns, LeaseKey(db.sessions, sid), h)
    ensures var r := Append(db, sid, msgs, h, ttl, c);
      && r.Ok?
      && Owns(r.value.turns, LeaseKey(db.sessions, sid), h)
      && r.value.turns[LeaseKey(db.sessions, sid)].expiresAt > c.now
      && r.value.rows == db.rows + NewRows(sid, db.nextId, msgs)
  {
    var g := Guard(db, sid, None, h, ttl, false, false, false, c);
    GuardLater(db, sid, h, ttl, false, false, c);
    assert g.Ok?;
    RowWritersTurns(g.value, sid, msgs, DeleteAll, 0, None, 0);
  }
}
