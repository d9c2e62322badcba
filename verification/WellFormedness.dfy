/** Every writer keeps ids ordered and fresh, foreign keys intact and parents older than children. */
module WellFormedness {
  import opened Lineage
  import opened Rows
  import opened Transcript

  lemma GuardFrame(db: Db, sid: SessionId, lockHolder: Option<string>, turnHolder: string, ttl: real,
                   rejectTurn: bool, rejectLock: bool, allowClosed: bool, c: Clock)
    ensures var g := Guard(db, sid, lockHolder, turnHolder, ttl, rejectTurn, rejectLock, allowClosed, c);
      g.Ok? ==> g.value == db.(locks := g.value.locks, turns := g.value.turns)
  {
  }

  lemma SelectedWellFormed(db: Db, p: Row -> bool)
    requires WellFormed(db)
    ensures WellFormed(db.(rows := Select(db.rows, p)))
  {
    SelectOrdered(db.rows, p);
    SelectMember(db.rows, p);
  }

  lemma UpdatedWellFormed(db: Db, u: Row -> Row)
    requires WellFormed(db)
    requires forall r :: r in db.rows ==> u(r).id == r.id && u(r).session == r.session
    ensures WellFormed(db.(rows := Update(db.rows, u)))
  {
    UpdateMember(db.rows, u);
    forall i, j | 0 <= i < j < |db.rows| ensures Update(db.rows, u)[i].id < Update(db.rows, u)[j].id {
      assert db.rows[i] in db.rows && db.rows[j] in db.rows;
    }
  }

  lemma InsertedWellFormed(db: Db, sid: SessionId, msgs: seq<Msg>)
    requires WellFormed(db)
    ensures InsertMessages(db, sid, msgs).Ok? ==> WellFormed(InsertMessages(db, sid, msgs).value)
  {
    var r := InsertMessages(db, sid, msgs);
    if r.Ok? && msgs != [] {
      forall i, j | 0 <= i < j < |r.value.rows| ensures r.value.rows[i].id < r.value.rows[j].id {
        if i < |db.rows| {
          assert db.rows[i] in db.rows;
        }
      }
    }
  }

  /** Sessions change only in columns that carry no structure. */
  ghost predicate SameLineage(a: Sessions, b: Sessions) {
    && a.Keys == b.Keys
    && forall s :: s in a ==> a[s].parent == b[s].parent && a[s].born == b[s].born
  }

  lemma SameLineageWellFormed(db: Db, d: Db)
    requires WellFormed(db)
    requires d.rows == db.rows && d.nextId == db.nextId && d.nextBorn == db.nextBorn
    requires SameLineage(db.sessions, d.sessions)
    ensures WellFormed(d)
  {
  }

  lemma AppendRowsWellFormed(db: Db, sid: SessionId, msgs: seq<Msg>)
    requires WellFormed(db)
    ensures var r := AppendRows(db, sid, msgs); r.Ok? ==> WellFormed(r.value)
  {
    InsertedWellFormed(db, sid, msgs);
    var r := InsertMessages(db, sid, msgs);
    if r.Ok? {
      SameLineageWellFormed(r.value, AppendRows(db, sid, msgs).value);
    }
  }

  lemma DroppedWellFormed(db: Db, sid: SessionId, mode: ReplaceMode)
    requires WellFormed(db)
    ensures WellFormed(db.(rows := Dropped(db.rows, sid, mode)))
  {
    match mode
    case DeleteAll => SelectedWellFormed(db, Unless(InSession(sid)));
    case DeleteActive => SelectedWellFormed(db, Unless(Live(sid)));
    case ArchiveDropped => UpdatedWellFormed(db, Deactivate(Live(sid)));
  }

  lemma ReplaceRowsWellFormed(db: Db, sid: SessionId, msgs: seq<Msg>, mode: ReplaceMode)
    requires WellFormed(db)
    ensures var r := ReplaceRows(db, sid, msgs, mode); r.Ok? ==> WellFormed(r.value)
  {
    DroppedWellFormed(db, sid, mode);
    var d := db.(rows := Dropped(db.rows, sid, mode));
    InsertedWellFormed(d, sid, msgs);
    var r := InsertMessages(d, sid, msgs);
    if r.Ok? {
      SameLineageWellFormed(r.value, ReplaceRows(db, sid, msgs, mode).value);
    }
  }

  lemma ClearWellFormed(db: Db, sid: SessionId)
    requires WellFormed(db)
    ensures WellFormed(Clear(db, sid))
  {
    SelectedWellFormed(db, Unless(InSession(sid)));
    SameLineageWellFormed(db.(rows := Select(db.rows, Unless(InSession(sid)))), Clear(db, sid));
  }

  lemma {:induction false} RewindRowsWellFormed(db: Db, sid: SessionId, target: nat, replacement: seq<Msg>)
    requires WellFormed(db)
    ensures var r := RewindRows(db, sid, target, replacement); r.Ok? ==> WellFormed(r.value)
  {
    var u := Deactivate(LiveAbove(sid, target - 1));
    UpdatedWellFormed(db, u);
    var d := db.(rows := Update(db.rows, u));
    InsertedWellFormed(d, sid, replacement);
    var r := InsertMessages(d, sid, replacement);
    if r.Ok? {
      SameLineageWellFormed(r.value, RewindRows(db, sid, target, replacement).value);
    }
  }

  lemma ArchivedWellFormed(db: Db, sid: SessionId, ids: set<nat>)
    requires WellFormed(db)
    ensures WellFormed(db.(rows := Update(db.rows, Archive(sid, ids))))
  {
    UpdatedWellFormed(db, Archive(sid, ids));
  }

  lemma FinishWellFormed(archived: Db, sid: SessionId, compacted: seq<Msg>, tail: seq<Msg>)
    requires WellFormed(archived)
    ensures var r := FinishCompaction(archived, sid, compacted, tail); r.Ok? ==> WellFormed(r.value)
  {
    InsertedWellFormed(archived, sid, compacted + tail);
    var r := InsertMessages(archived, sid, compacted + tail);
    if r.Ok? {
      SameLineageWellFormed(r.value, FinishCompaction(archived, sid, compacted, tail).value);
    }
  }

  lemma {:induction false} CompactRowsWellFormed(db: Db, sid: SessionId, msgs: seq<Msg>, w: Option<int>, n: int)
    requires WellFormed(db)
    ensures var r := CompactRows(db, sid, msgs, w, n); r.Ok? ==> WellFormed(r.value)
  {
    var ids := Superseded(db.rows, sid, w, n);
    ArchivedWellFormed(db, sid, ids);
    FinishWellFormed(db.(rows := Update(db.rows, Archive(sid, ids))), sid, msgs, Msgs(ConcurrentTail(db.rows, sid, w)));
  }

  /** The store a publication commits, column by column. */
  lemma PublishShape(db: Db, p: Publication, c: Clock)
    requires Publish(db, p, c).Ok?
    ensures var d := Publish(db, p, c).value;
      && p.parent in db.sessions && p.child !in db.sessions && p.parent != p.child
      && ChildMsgs(db.rows, p) != []
      && d.rows == db.rows + NewRows(p.child, db.nextId, ChildMsgs(db.rows, p))
      && d.sessions.Keys == db.sessions.Keys + {p.child}
      && d.sessions[p.child] == ChildRow(p, db.nextBorn).(messageCount := |ChildMsgs(db.rows, p)|,
                                                           toolCallCount := ToolCalls(ChildMsgs(db.rows, p)))
      && d.sessions[p.parent] == db.sessions[p.parent].(end := Some("compression"))
      && (forall s :: s in db.sessions && s != p.parent ==> d.sessions[s] == db.sessions[s])
      && d.turns == db.turns
      && (forall s :: s in d.locks <==> s in db.locks)
      && (forall s, h :: Owns(d.locks, s, h) <==> Owns(db.locks, s, h))
  {
  }

  lemma PublishWellFormed(db: Db, p: Publication, c: Clock)
    requires WellFormed(db)
    ensures var r := Publish(db, p, c); r.Ok? ==> WellFormed(r.value)
  {
    var r := Publish(db, p, c);
    if r.Ok? {
      var all := ChildMsgs(db.rows, p);
      var d := db.(sessions := db.sessions[p.child := ChildRow(p, db.nextBorn)], nextBorn := db.nextBorn + 1);
      assert WellFormed(d);
      InsertedWellFormed(d, p.child, all);
      assert |all| > 0;
      SameLineageWellFormed(InsertMessages(d, p.child, all).value, r.value);
    }
  }

  lemma DeleteSessionsWellFormed(db: Db, gone: set<SessionId>)
    requires WellFormed(db)
    ensures WellFormed(DeleteSessions(db, gone))
  {
    SelectOrdered(db.rows, Unless(InSessions(gone)));
    SelectMember(db.rows, Unless(InSessions(gone)));
  }

  lemma PruneWellFormed(db: Db, m: set<SessionId>, guarded: bool, c: Clock)
    requires WellFormed(db)
    ensures WellFormed(Prune(db, m, guarded, c))
  {
    var candidates := Ended(db, m);
    if guarded {
      var d := ReclaimGuards(db, candidates, c);
      SameLineageWellFormed(db, d);
      DeleteSessionsWellFormed(d, set s | s in candidates && !Blocked(db, s, c));
    } else {
      DeleteSessionsWellFormed(db, candidates);
    }
  }

  lemma GuardWellFormed(db: Db, sid: SessionId, lockHolder: Option<string>, turnHolder: string, ttl: real,
                        rejectTurn: bool, rejectLock: bool, allowClosed: bool, c: Clock)
    requires WellFormed(db)
    ensures var g := Guard(db, sid, lockHolder, turnHolder, ttl, rejectTurn, rejectLock, allowClosed, c);
      g.Ok? ==> WellFormed(g.value)
  {
    GuardFrame(db, sid, lockHolder, turnHolder, ttl, rejectTurn, rejectLock, allowClosed, c);
  }

  lemma AppendWellFormed(db: Db, sid: SessionId, msgs: seq<Msg>, h: string, ttl: real, c: Clock)
    requires WellFormed(db)
    ensures var r := Append(db, sid, msgs, h, ttl, c); r.Ok? ==> WellFormed(r.value)
  {
    GuardWellFormed(db, sid, None, h, ttl, false, false, false, c);
    var g := Guard(db, sid, None, h, ttl, false, false, false, c);
    if g.Ok? {
      AppendRowsWellFormed(g.value, sid, msgs);
    }
  }

  lemma {:induction false} ReplaceWellFormed(db: Db, sid: SessionId, msgs: seq<Msg>, mode: ReplaceMode, guarded: bool,
                                             c: Clock)
    requires WellFormed(db)
    ensures var r := Replace(db, sid, msgs, mode, guarded, c); r.Ok? ==> WellFormed(r.value)
  {
    GuardWellFormed(db, sid, None, "", 0.0, true, true, false, c);
    var g := if guarded then MutationGuard(db, sid, c) else Ok(db);
    if g.Ok? {
      ReplaceRowsWellFormed(g.value, sid, msgs, mode);
    }
  }

  lemma {:induction false} RewindWellFormed(db: Db, sid: SessionId, a: RewindArgs, c: Clock)
    requires WellFormed(db)
    ensures var r := Rewind(db, sid, a, c); r.Ok? ==> WellFormed(r.value)
  {
    GuardWellFormed(db, sid, None, "", 0.0, true, true, false, c);
    var g := MutationGuard(db, sid, c);
    if g.Ok? && RewindCheck(g.value, sid, a).Ok? {
      RewindRowsWellFormed(g.value, sid, a.target, RewindCheck(g.value, sid, a).value);
    }
  }

  lemma SweepWellFormed(db: Db, m: set<SessionId>, c: Clock)
    requires WellFormed(db)
    ensures WellFormed(Sweep(db, m, c))
  {
    SameLineageWellFormed(db, Sweep(db, m, c));
  }

  lemma ReopenWellFormed(db: Db, sid: SessionId, c: Clock)
    requires WellFormed(db)
    ensures WellFormed(Reopen(db, sid, c))
  {
    SameLineageWellFormed(db, Reopen(db, sid, c));
  }

  lemma EndWellFormed(db: Db, sid: SessionId, reason: string)
    requires WellFormed(db)
    ensures WellFormed(EndSession(db, sid, reason))
  {
    SameLineageWellFormed(db, EndSession(db, sid, reason));
  }

  /** Lease steps change only the lease tables. */
  predicate IsLeaseStep(step: Step) {
    || step.StepAcquireLock? || step.StepRefreshLock? || step.StepReleaseLock?
    || step.StepAcquireTurn? || step.StepRefreshTurn? || step.StepReleaseTurn?
  }

  lemma LeaseStepFrame(db: Db, step: Step)
    requires IsLeaseStep(step)
    ensures Apply(db, step) == db.(locks := Apply(db, step).locks, turns := Apply(db, step).turns)
  {
  }

  // ---------------------------------------------------------------- What writers leave alone

  /** Ids are only handed out, never taken back, and the lock table loses at most one row. */
  predicate Later(db: Db, d: Db, sid: SessionId) {
    db.nextId <= d.nextId && (d.locks == db.locks || d.locks == db.locks - {sid})
  }

  lemma GuardLater(db: Db, sid: SessionId, h: string, ttl: real, rejectTurn: bool, rejectLock: bool, c: Clock)
    ensures var g := Guard(db, sid, None, h, ttl, rejectTurn, rejectLock, false, c);
      g.Ok? ==> Later(db, g.value, sid) && g.value.rows == db.rows && g.value.nextId == db.nextId
                && g.value.sessions == db.sessions && !Closed(db, sid)
  {
  }

  lemma RowWritersLater(db: Db, sid: SessionId, msgs: seq<Msg>, mode: ReplaceMode, target: nat, w: Option<int>, n: int)
    ensures AppendRows(db, sid, msgs).Ok? ==> Later(db, AppendRows(db, sid, msgs).value, sid)
    ensures ReplaceRows(db, sid, msgs, mode).Ok? ==>
      Later(db, ReplaceRows(db, sid, msgs, mode).value, sid) && ReplaceRows(db, sid, msgs, mode).value.locks == db.locks
    ensures RewindRows(db, sid, target, msgs).Ok? ==>
      && Later(db, RewindRows(db, sid, target, msgs).value, sid)
      && RewindRows(db, sid, target, msgs).value.locks == db.locks
    ensures CompactRows(db, sid, msgs, w, n).Ok? ==>
      Later(db, CompactRows(db, sid, msgs, w, n).value, sid) && CompactRows(db, sid, msgs, w, n).value.locks == db.locks
  {
  }

  lemma AppendLater(db: Db, sid: SessionId, msgs: seq<Msg>, h: string, ttl: real, c: Clock)
    ensures var r := Append(db, sid, msgs, h, ttl, c); r.Ok? ==> Later(db, r.value, sid)
  {
    GuardLater(db, sid, h, ttl, false, false, c);
    var g := Guard(db, sid, None, h, ttl, false, false, false, c);
    if g.Ok? {
      RowWritersLater(g.value, sid, msgs, DeleteAll, 0, None, 0);
    }
  }

  lemma ReplaceLater(db: Db, sid: SessionId, msgs: seq<Msg>, mode: ReplaceMode, guarded: bool, c: Clock)
    ensures var r := Replace(db, sid, msgs, mode, guarded, c); r.Ok? ==> Later(db, r.value, sid)
  {
    GuardLater(db, sid, "", 0.0, true, true, c);
    var g := if guarded then MutationGuard(db, sid, c) else Ok(db);
    if g.Ok? {
      RowWritersLater(g.value, sid, msgs, mode, 0, None, 0);
    }
  }

  lemma {:induction false} RewindLater(db: Db, sid: SessionId, a: RewindArgs, c: Clock)
    ensures var r := Rewind(db, sid, a, c); r.Ok? ==> Later(db, r.value, sid)
  {
    GuardLater(db, sid, "", 0.0, true, true, c);
    var g := MutationGuard(db, sid, c);
    if g.Ok? && RewindCheck(g.value, sid, a).Ok? {
      RowWritersLater(g.value, sid, RewindCheck(g.value, sid, a).value, DeleteAll, a.target, None, 0);
    }
  }

  lemma StepWellFormed(db: Db, step: Step)
    requires WellFormed(db)
    ensures WellFormed(Apply(db, step))
  {
    match step
    case StepCreate(_, _) =>
    case StepEnd(sid, reason) => EndWellFormed(db, sid, reason);
    case StepAppend(sid, msgs, h, ttl, c) => AppendWellFormed(db, sid, msgs, h, ttl, c);
    case StepReplace(sid, msgs, mode, guarded, c) => ReplaceWellFormed(db, sid, msgs, mode, guarded, c);
    case StepClear(sid) => ClearWellFormed(db, sid);
    case StepRewind(sid, a, c) => RewindWellFormed(db, sid, a, c);
    case StepCompact(sid, msgs, w, h, n, c) => CompactRowsWellFormed(db, sid, msgs, w, n);
    case StepPublish(p, c) => PublishWellFormed(db, p, c);
    case StepReopen(sid, c) => ReopenWellFormed(db, sid, c);
    case StepPrune(m, guarded, c) => PruneWellFormed(db, m, guarded, c);
    case StepSweep(m, c) => SweepWellFormed(db, m, c);
    case _ => LeaseStepFrame(db, step);
  }

  lemma {:induction false} RunWellFormed(db: Db, steps: seq<Step>)
    requires WellFormed(db)
    ensures WellFormed(Run(db, steps))
  {
    if steps != [] {
      RunWellFormed(db, steps[..|steps| - 1]);
      StepWellFormed(Run(db, steps[..|steps| - 1]), steps[|steps| - 1]);
    }
  }
}
