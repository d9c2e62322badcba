/** The denormalised counters of a session agree with its live rows after every run. */
module Counters {
  import opened Lineage
  import opened Rows
  import opened Transcript
  import opened WellFormedness
  import opened Conservation

  ghost function LiveMsgs(db: Db, s: SessionId): seq<Msg> {
    Msgs(Select(db.rows, Live(s)))
  }

  ghost predicate CountedAt(db: Db, s: SessionId) {
    s in db.sessions ==>
      && db.sessions[s].messageCount == |LiveMsgs(db, s)|
      && db.sessions[s].toolCallCount == ToolCalls(LiveMsgs(db, s))
  }

  ghost predicate Counted(db: Db) {
    forall s :: s in db.sessions ==> CountedAt(db, s)
  }

  ghost predicate SameCounters(db: Db, d: Db, s: SessionId)
    requires s in d.sessions
  {
    && s in db.sessions
    && d.sessions[s].messageCount == db.sessions[s].messageCount
    && d.sessions[s].toolCallCount == db.sessions[s].toolCallCount
  }

  /** Same live rows and same counters for a session. */
  ghost predicate SameAt(db: Db, d: Db, s: SessionId) {
    && Select(d.rows, Live(s)) == Select(db.rows, Live(s))
    && (s in d.sessions ==> SameCounters(db, d, s))
  }

  lemma CarryOver(db: Db, d: Db, sid: SessionId)
    requires Counted(db) && CountedAt(d, sid)
    requires forall s :: s != sid ==> SameAt(db, d, s)
    ensures Counted(d)
  {
    forall s | s in d.sessions ensures CountedAt(d, s) {
      if s != sid {
        assert SameAt(db, d, s);
      }
    }
  }

  lemma InsertLive(rows: seq<Row>, sid: SessionId, id: nat, msgs: seq<Msg>, s: SessionId)
    ensures Select(rows + NewRows(sid, id, msgs), Live(s))
         == Select(rows, Live(s)) + if s == sid then NewRows(sid, id, msgs) else []
  {
    SelectConcat(rows, NewRows(sid, id, msgs), Live(s));
    if s == sid {
      SelectAll(NewRows(sid, id, msgs), Live(s));
    } else {
      SelectNone(NewRows(sid, id, msgs), Live(s));
    }
  }

  /** The live messages of every session after an INSERT into one of them. */
  lemma InsertMessagesLive(db: Db, sid: SessionId, msgs: seq<Msg>, s: SessionId)
    requires InsertMessages(db, sid, msgs).Ok?
    ensures var d := InsertMessages(db, sid, msgs).value;
      && Select(d.rows, Live(s)) == Select(db.rows, Live(s)) + (if s == sid then NewRows(sid, db.nextId, msgs) else [])
      && LiveMsgs(d, s) == LiveMsgs(db, s) + (if s == sid then msgs else [])
      && d.sessions == db.sessions
  {
    InsertLive(db.rows, sid, db.nextId, msgs, s);
    if s == sid {
      MsgsOfNewRows(sid, db.nextId, msgs);
      MsgsConcat(Select(db.rows, Live(s)), NewRows(sid, db.nextId, msgs));
    }
    assert Select(db.rows, Live(s)) + [] == Select(db.rows, Live(s));
    assert LiveMsgs(db, s) + [] == LiveMsgs(db, s);
  }

  lemma AppendCounted(db: Db, sid: SessionId, msgs: seq<Msg>)
    requires Counted(db) && AppendRows(db, sid, msgs).Ok?
    ensures Counted(AppendRows(db, sid, msgs).value)
  {
    var d := AppendRows(db, sid, msgs).value;
    forall s ensures s != sid ==> SameAt(db, d, s) {
      InsertMessagesLive(db, sid, msgs, s);
    }
    InsertMessagesLive(db, sid, msgs, sid);
    ToolCallsConcat(LiveMsgs(db, sid), msgs);
    CarryOver(db, d, sid);
  }

  /** The three ways of dropping rows leave no live row of the session, and those of others alone. */
  lemma DroppedLive(rows: seq<Row>, sid: SessionId, mode: ReplaceMode, s: SessionId)
    ensures Select(Dropped(rows, sid, mode), Live(s)) == if s == sid then [] else Select(rows, Live(s))
  {
    var kept := Dropped(rows, sid, mode);
    if s == sid {
      match mode {
        case DeleteAll => SelectMember(rows, Unless(InSession(sid)));
        case DeleteActive => SelectMember(rows, Unless(Live(sid)));
        case ArchiveDropped => UpdateMember(rows, Deactivate(Live(sid)));
      }
      SelectNone(kept, Live(s));
    } else {
      match mode {
        case DeleteAll => SelectSelect(rows, Unless(InSession(sid)), Live(s), Live(s));
        case DeleteActive => SelectSelect(rows, Unless(Live(sid)), Live(s), Live(s));
        case ArchiveDropped => SelectUntouched(rows, Deactivate(Live(sid)), Live(s));
      }
    }
  }

  lemma ReplaceCounted(db: Db, sid: SessionId, msgs: seq<Msg>, mode: ReplaceMode)
    requires Counted(db) && ReplaceRows(db, sid, msgs, mode).Ok?
    ensures Counted(ReplaceRows(db, sid, msgs, mode).value)
    ensures LiveMsgs(ReplaceRows(db, sid, msgs, mode).value, sid) == msgs
  {
    var d := ReplaceRows(db, sid, msgs, mode).value;
    var kept := db.(rows := Dropped(db.rows, sid, mode));
    forall s ensures s != sid ==> SameAt(db, d, s) {
      DroppedLive(db.rows, sid, mode, s);
      InsertMessagesLive(kept, sid, msgs, s);
    }
    DroppedLive(db.rows, sid, mode, sid);
    InsertMessagesLive(kept, sid, msgs, sid);
    assert LiveMsgs(d, sid) == msgs;
    CarryOver(db, d, sid);
  }

  lemma ClearCounted(db: Db, sid: SessionId)
    requires Counted(db)
    ensures Counted(Clear(db, sid))
  {
    forall s ensures s != sid ==> SameAt(db, Clear(db, sid), s) {
      DroppedLive(db.rows, sid, DeleteAll, s);
    }
    DroppedLive(db.rows, sid, DeleteAll, sid);
    CarryOver(db, Clear(db, sid), sid);
  }

  lemma RewindCounted(db: Db, sid: SessionId, target: nat, replacement: seq<Msg>)
    requires Counted(db) && RewindRows(db, sid, target, replacement).Ok?
    ensures Counted(RewindRows(db, sid, target, replacement).value)
  {
    var d := RewindRows(db, sid, target, replacement).value;
    var u := Deactivate(LiveAbove(sid, target - 1));
    var kept := db.(rows := Update(db.rows, u));
    forall s ensures s != sid ==> SameAt(db, d, s) {
      if s != sid {
        SelectUntouched(db.rows, u, Live(s));
        InsertMessagesLive(kept, sid, replacement, s);
      }
    }
    CarryOver(db, d, sid);
  }

  lemma {:induction false} CompactCounted(db: Db, sid: SessionId, msgs: seq<Msg>, w: Option<int>, n: int)
    requires Counted(db) && Admits(db, sid, msgs, w)
    ensures CompactRows(db, sid, msgs, w, n).Ok? && Counted(CompactRows(db, sid, msgs, w, n).value)
  {
    AdmitsIff(db, sid, msgs, w, n);
    var d := CompactRows(db, sid, msgs, w, n).value;
    var tail := Msgs(ConcurrentTail(db.rows, sid, w));
    var u := Archive(sid, Superseded(db.rows, sid, w, n));
    var archived := db.(rows := Update(db.rows, u));
    forall s ensures s != sid ==> SameAt(db, d, s) {
      if s != sid {
        forall r | r in db.rows ensures Live(s)(u(r)) == Live(s)(r) && (Live(s)(r) ==> u(r) == r) {
          assert Live(sid)(r) ==> r.session == sid;
        }
        SelectUntouched(db.rows, u, Live(s));
        InsertMessagesLive(archived, sid, msgs + tail, s);
      }
    }
    LiveAfterCompaction(db, sid, msgs, w, n);
    ToolCallsConcat(msgs, tail);
    CarryOver(db, d, sid);
  }

  lemma PublishCounted(db: Db, p: Publication, c: Clock)
    requires WellFormed(db) && Counted(db) && Publish(db, p, c).Ok?
    ensures Counted(Publish(db, p, c).value)
  {
    var d := Publish(db, p, c).value;
    var all := ChildMsgs(db.rows, p);
    PublishShape(db, p, c);
    forall s ensures s != p.child ==> SameAt(db, d, s) {
      InsertLive(db.rows, p.child, db.nextId, all, s);
    }
    InsertLive(db.rows, p.child, db.nextId, all, p.child);
    SelectNone(db.rows, Live(p.child));
    MsgsOfNewRows(p.child, db.nextId, all);
    assert LiveMsgs(d, p.child) == all;
    CarryOver(db, d, p.child);
  }

  lemma DeleteSessionsCounted(db: Db, gone: set<SessionId>)
    requires Counted(db)
    ensures Counted(DeleteSessions(db, gone))
  {
    var d := DeleteSessions(db, gone);
    forall s | s in d.sessions ensures CountedAt(d, s) {
      assert CountedAt(db, s);
      SelectSelect(db.rows, Unless(InSessions(gone)), Live(s), Live(s));
    }
  }

  lemma SameRowsCounted(db: Db, d: Db)
    requires Counted(db) && d.rows == db.rows
    requires forall s :: s in d.sessions ==> SameCounters(db, d, s)
    ensures Counted(d)
  {
    forall s | s in d.sessions ensures CountedAt(d, s) {
      assert CountedAt(db, s);
    }
  }

  lemma CreateCounted(db: Db, sid: SessionId, session: Session)
    requires WellFormed(db) && Counted(db) && CreateSession(db, sid, session).Ok?
    ensures Counted(CreateSession(db, sid, session).value)
  {
    var d := CreateSession(db, sid, session).value;
    if sid !in db.sessions {
      SelectNone(db.rows, Live(sid));
      forall s | s in d.sessions ensures CountedAt(d, s) {
        assert s != sid ==> CountedAt(db, s);
      }
    }
  }

  lemma {:induction false} GuardedCounted(db: Db, step: Step)
    requires Counted(db)
    requires step.StepAppend? || step.StepReplace? || step.StepRewind?
    ensures Counted(Apply(db, step))
  {
    match step {
      case StepAppend(sid, msgs, h, ttl, c) =>
        GuardLater(db, sid, h, ttl, false, false, c);
        var g := Guard(db, sid, None, h, ttl, false, false, false, c);
        if g.Ok? {
          SameRowsCounted(db, g.value);
          if AppendRows(g.value, sid, msgs).Ok? {
            AppendCounted(g.value, sid, msgs);
          }
        }
      case StepReplace(sid, msgs, mode, guarded, c) =>
        GuardLater(db, sid, "", 0.0, true, true, c);
        var g := if guarded then MutationGuard(db, sid, c) else Ok(db);
        if g.Ok? {
          SameRowsCounted(db, g.value);
          if ReplaceRows(g.value, sid, msgs, mode).Ok? {
            ReplaceCounted(g.value, sid, msgs, mode);
          }
        }
      case StepRewind(sid, a, c) =>
        GuardLater(db, sid, "", 0.0, true, true, c);
        var g := MutationGuard(db, sid, c);
        if g.Ok? && RewindCheck(g.value, sid, a).Ok? {
          SameRowsCounted(db, g.value);
          var msgs := RewindCheck(g.value, sid, a).value;
          if RewindRows(g.value, sid, a.target, msgs).Ok? {
            RewindCounted(g.value, sid, a.target, msgs);
          }
        }
    }
  }

  lemma PruneCounted(db: Db, m: set<SessionId>, guarded: bool, c: Clock)
    requires Counted(db)
    ensures Counted(Prune(db, m, guarded, c))
  {
    var candidates := Ended(db, m);
    if guarded {
      SameRowsCounted(db, ReclaimGuards(db, candidates, c));
      DeleteSessionsCounted(ReclaimGuards(db, candidates, c), set s | s in candidates && !Blocked(db, s, c));
    } else {
      DeleteSessionsCounted(db, candidates);
    }
  }

  /** Leases, ends, reopens and sweeps touch neither rows nor counters. */
  lemma UncountedStep(db: Db, step: Step)
    requires Counted(db)
    requires IsLeaseStep(step) || step.StepEnd? || step.StepReopen? || step.StepSweep?
    ensures Counted(Apply(db, step))
  {
    if IsLeaseStep(step) {
      LeaseStepFrame(db, step);
    }
    SameRowsCounted(db, Apply(db, step));
  }

  lemma WriterCounted(db: Db, step: Step)
    requires WellFormed(db) && Counted(db) && Try(db, step).Ok?
    requires step.StepCreate? || step.StepClear? || step.StepCompact? || step.StepPublish? || step.StepPrune?
    ensures Counted(Apply(db, step))
  {
    match step
    case StepCreate(sid, s) => CreateCounted(db, sid, s);
    case StepClear(sid) => ClearCounted(db, sid);
    case StepCompact(sid, msgs, w, _, n, _) =>
      AdmitsIff(db, sid, msgs, w, n);
      CompactCounted(db, sid, msgs, w, n);
    case StepPublish(p, c) => PublishCounted(db, p, c);
    case StepPrune(m, guarded, c) => PruneCounted(db, m, guarded, c);
  }

  lemma {:induction false} StepCounted(db: Db, step: Step)
    requires WellFormed(db) && Counted(db)
    ensures Counted(Apply(db, step))
  {
    if step.StepAppend? || step.StepReplace? || step.StepRewind? {
      GuardedCounted(db, step);
    } else if IsLeaseStep(step) || step.StepEnd? || step.StepReopen? || step.StepSweep? {
      UncountedStep(db, step);
    } else if Try(db, step).Ok? {
      WriterCounted(db, step);
    }
  }

  /** After any run from the empty store, `message_count` is the number of live rows of the session and
      `tool_call_count` the number of their tool calls. */
  lemma {:induction false} CountersAgree(steps: seq<Step>)
    ensures Counted(Run(EMPTY, steps))
  {
    if steps != [] {
      var init := steps[..|steps| - 1];
      RunWellFormed(EMPTY, init);
      CountersAgree(init);
      StepCounted(Run(EMPTY, init), steps[|steps| - 1]);
    }
  }
}
