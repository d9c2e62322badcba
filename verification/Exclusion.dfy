/** A live lock or lease excludes the others: no step that finds it live takes it away, and the writers it
    guards against are refused. */
module Exclusion {
  import opened Lineage
  import opened Rows
  import opened Transcript
  import opened WellFormedness
  import opened Fencing

  function ClockOf(step: Step): Option<Clock> {
    match step
    case StepAppend(_, _, _, _, c) => Some(c)
    case StepReplace(_, _, _, _, c) => Some(c)
    case StepRewind(_, _, c) => Some(c)
    case StepCompact(_, _, _, _, _, c) => Some(c)
    case StepPublish(_, c) => Some(c)
    case StepReopen(_, c) => Some(c)
    case StepAcquireLock(_, _, _, c) => Some(c)
    case StepRefreshLock(_, _, _, c) => Some(c)
    case StepAcquireTurn(_, _, _, c) => Some(c)
    case StepRefreshTurn(_, _, _, c) => Some(c)
    case StepPrune(_, _, c) => Some(c)
    case StepSweep(_, c) => Some(c)
    case _ => None
  }

  /** By the step's own clock the lease has not expired and its holder is not known to be dead. */
  predicate FindsLive(step: Step, l: Lease) {
    match ClockOf(step) case None => true case Some(c) => !Stale(l, c)
  }

  predicate IsRowStep(step: Step) {
    step.StepAppend? || step.StepReplace? || step.StepRewind? || step.StepCompact?
  }

  // ---------------------------------------------------------------- The compression lock

  lemma GuardKeepsLock(db: Db, s: SessionId, h: string, ttl: real, rejectTurn: bool, rejectLock: bool, c: Clock,
                       sid: SessionId)
    requires sid in db.locks && !Stale(db.locks[sid], c)
    ensures var g := Guard(db, s, None, h, ttl, rejectTurn, rejectLock, false, c);
      g.Ok? ==> sid in g.value.locks && g.value.locks[sid] == db.locks[sid]
  {
  }

  lemma {:induction false} RowStepKeepsLock(db: Db, step: Step, sid: SessionId)
    requires sid in db.locks && FindsLive(step, db.locks[sid]) && IsRowStep(step)
    ensures sid in Apply(db, step).locks && Apply(db, step).locks[sid] == db.locks[sid]
  {
    match step
    case StepAppend(s, msgs, h, ttl, c) =>
      GuardKeepsLock(db, s, h, ttl, false, false, c, sid);
      var g := Guard(db, s, None, h, ttl, false, false, false, c);
      if g.Ok? { AppendRowsLocks(g.value, s, msgs); }
    case StepReplace(s, msgs, mode, guarded, c) =>
      GuardKeepsLock(db, s, "", 0.0, true, true, c, sid);
      var g := if guarded then MutationGuard(db, s, c) else Ok(db);
      if g.Ok? { RowWritersLater(g.value, s, msgs, mode, 0, None, 0); }
    case StepRewind(s, a, c) =>
      GuardKeepsLock(db, s, "", 0.0, true, true, c, sid);
      var g := MutationGuard(db, s, c);
      if g.Ok? && RewindCheck(g.value, s, a).Ok? {
        RowWritersLater(g.value, s, RewindCheck(g.value, s, a).value, DeleteAll, a.target, None, 0);
      }
    case StepCompact(s, msgs, w, _, n, _) => RowWritersLater(db, s, msgs, DeleteAll, 0, w, n);
  }

  lemma AppendRowsLocks(db: Db, s: SessionId, msgs: seq<Msg>)
    ensures AppendRows(db, s, msgs).Ok? ==> AppendRows(db, s, msgs).value.locks == db.locks
  {
  }

  lemma OtherStepKeepsLock(db: Db, step: Step, sid: SessionId, h: string)
    requires Owns(db.locks, sid, h) && FindsLive(step, db.locks[sid]) && !IsRowStep(step)
    requires !(step.StepReleaseLock? && step.sid == sid && step.holder == h)
    ensures Owns(Apply(db, step).locks, sid, h)
  {
  }

  /** Nobody takes a live compression lock from its holder. */
  lemma {:induction false} LiveLockKept(db: Db, step: Step, sid: SessionId, h: string)
    requires Owns(db.locks, sid, h) && FindsLive(step, db.locks[sid])
    requires !(step.StepReleaseLock? && step.sid == sid && step.holder == h)
    ensures Owns(Apply(db, step).locks, sid, h)
  {
    if IsRowStep(step) {
      RowStepKeepsLock(db, step, sid);
    } else {
      OtherStepKeepsLock(db, step, sid, h);
    }
  }

  /** While it is live, user mutations and foreign compactions of the session are refused, and a foreign
      acquire changes nothing. */
  lemma LiveLockRefuses(db: Db, sid: SessionId, h: string, other: string, c: Clock, ttl: real,
                        msgs: seq<Msg>, mode: ReplaceMode, a: RewindArgs, w: Option<int>, n: int)
    requires Owns(db.locks, sid, h) && !Stale(db.locks[sid], c) && other != h
    ensures Replace(db, sid, msgs, mode, true, c) == Err(CompressionInProgress)
    ensures Rewind(db, sid, a, c) == Err(CompressionInProgress)
    ensures Compact(db, sid, msgs, w, Some(other), n, c) == Err(CompressionInProgress)
    ensures AcquireLock(db, sid, other, ttl, c) == db
  {
    assert LockGuard(db, sid, None, c) == Err(CompressionInProgress);
    assert MutationGuard(db, sid, c) == Err(CompressionInProgress);
  }

  // ---------------------------------------------------------------- The turn lease

  lemma GuardKeepsTurn(db: Db, s: SessionId, h: string, ttl: real, rejectTurn: bool, rejectLock: bool, c: Clock,
                       k: SessionId, owner: string)
    requires Owns(db.turns, k, owner) && !Stale(db.turns[k], c)
    ensures var g := Guard(db, s, None, h, ttl, rejectTurn, rejectLock, false, c);
      g.Ok? ==> Owns(g.value.turns, k, owner)
  {
  }

  /** The holder gives the conversation `k` back. */
  predicate Releases(db: Db, step: Step, k: SessionId, h: string) {
    step.StepReleaseTurn? && step.holder == h && LeaseKey(db.sessions, step.sid) == k
  }

  lemma {:induction false} RowStepKeepsTurn(db: Db, step: Step, k: SessionId, h: string)
    requires Owns(db.turns, k, h) && FindsLive(step, db.turns[k]) && IsRowStep(step)
    ensures Owns(Apply(db, step).turns, k, h)
  {
    match step
    case StepAppend(s, msgs, w, ttl, c) =>
      GuardKeepsTurn(db, s, w, ttl, false, false, c, k, h);
      var g := Guard(db, s, None, w, ttl, false, false, false, c);
      if g.Ok? { RowWritersTurns(g.value, s, msgs, DeleteAll, 0, None, 0); }
    case StepReplace(s, msgs, mode, guarded, c) =>
      GuardKeepsTurn(db, s, "", 0.0, true, true, c, k, h);
      var g := if guarded then MutationGuard(db, s, c) else Ok(db);
      if g.Ok? { RowWritersTurns(g.value, s, msgs, mode, 0, None, 0); }
    case StepRewind(s, a, c) =>
      GuardKeepsTurn(db, s, "", 0.0, true, true, c, k, h);
      var g := MutationGuard(db, s, c);
      if g.Ok? && RewindCheck(g.value, s, a).Ok? {
        RowWritersTurns(g.value, s, RewindCheck(g.value, s, a).value, DeleteAll, a.target, None, 0);
      }
    case StepCompact(s, msgs, w, _, n, _) => RowWritersTurns(db, s, msgs, DeleteAll, 0, w, n);
  }

  lemma OtherStepKeepsTurn(db: Db, step: Step, k: SessionId, h: string)
    requires Owns(db.turns, k, h) && FindsLive(step, db.turns[k]) && !IsRowStep(step)
    requires !Releases(db, step, k, h)
    ensures Owns(Apply(db, step).turns, k, h)
  {
  }

  /** Nobody takes a live turn lease from its holder. */
  lemma {:induction false} LiveTurnKept(db: Db, step: Step, k: SessionId, h: string)
    requires Owns(db.turns, k, h) && FindsLive(step, db.turns[k])
    requires !Releases(db, step, k, h)
    ensures Owns(Apply(db, step).turns, k, h)
  {
    if IsRowStep(step) {
      RowStepKeepsTurn(db, step, k, h);
    } else {
      OtherStepKeepsTurn(db, step, k, h);
    }
  }

  /** Each step of a run finds the lease live when it is taken, and the holder does not release it. */
  ghost predicate Undisturbed(db: Db, steps: seq<Step>, k: SessionId, h: string) {
    forall i :: 0 <= i < |steps| ==>
      !Releases(Run(db, steps[..i]), steps[i], k, h)
      && (k in Run(db, steps[..i]).turns ==> FindsLive(steps[i], Run(db, steps[..i]).turns[k]))
  }

  /** Over any such run, whatever the others try, the holder keeps the lease of the conversation. */
  lemma {:induction false} HolderKeepsConversation(db: Db, steps: seq<Step>, k: SessionId, h: string)
    requires Owns(db.turns, k, h) && Undisturbed(db, steps, k, h)
    ensures Owns(Run(db, steps).turns, k, h)
  {
    if steps != [] {
      var init := steps[..|steps| - 1];
      forall i | 0 <= i < |init| ensures steps[..i] == init[..i] && steps[i] == init[i] {
      }
      assert Undisturbed(db, init, k, h);
      HolderKeepsConversation(db, init, k, h);
      LiveTurnKept(Run(db, init), steps[|steps| - 1], k, h);
    }
  }

  /** Under another holder's lease a fenced write is refused on every session of the conversation; while
      the lease is live so are user mutations, and a foreign acquire changes nothing. */
  lemma LiveTurnRefuses(db: Db, k: SessionId, h: string, sid: SessionId, other: string, msgs: seq<Msg>, ttl: real,
                        mode: ReplaceMode, a: RewindArgs, c: Clock)
    requires Owns(db.turns, k, h) && LeaseKey(db.sessions, sid) == k
    requires other != h && other != "" && msgs != []
    ensures Append(db, sid, msgs, other, ttl, c) == Err(TurnLeaseLost)
    ensures !Stale(db.turns[k], c) ==>
      && Replace(db, sid, msgs, mode, true, c).Err? && Rewind(db, sid, a, c).Err?
      && AcquireTurn(db, sid, other, ttl, c) == db
  {
    if !Stale(db.turns[k], c) {
      assert MutationGuard(db, sid, c).Err?;
    }
  }
}
