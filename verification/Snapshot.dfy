/** A slow compressor takes the compression lock, reads the transcript up to a watermark, and commits
    later.  What it archives is exactly what it read, over every run of the other writers. */
module Snapshot {
  import opened Lineage
  import opened Rows
  import opened Transcript
  import opened WellFormedness
  import opened Conservation

  /** A step another writer may take between capture and commit: everything except the unguarded
      mutators of this session, and except the attempt's own acquire and commit.  Holder tokens are fresh
      per attempt, so nobody else acquires or commits under `h`. */
  predicate Foreign(step: Step, sid: SessionId, h: string) {
    match step
    case StepAcquireLock(s, holder, _, _) => !(s == sid && holder == h)
    case StepCompact(s, _, _, lockHolder, _, _) => s == sid ==> lockHolder.Some? && lockHolder.value != h
    case StepReplace(s, _, _, guarded, _) => s == sid ==> guarded
    case StepClear(s) => s != sid
    case StepPrune(_, guarded, _) => guarded
    case _ => true
  }

  // ---------------------------------------------------------------- The lock

  /** Nothing but an acquire under `h` gives `h` the lock. */
  lemma {:induction false} LockNotGained(db: Db, step: Step, sid: SessionId, h: string)
    requires Foreign(step, sid, h) && !Owns(db.locks, sid, h)
    ensures !Owns(Apply(db, step).locks, sid, h)
  {
    match step
    case StepAppend(s, msgs, holder, ttl, c) => AppendLater(db, s, msgs, holder, ttl, c);
    case StepReplace(s, msgs, mode, guarded, c) => ReplaceLater(db, s, msgs, mode, guarded, c);
    case StepRewind(s, a, c) => RewindLater(db, s, a, c);
    case StepCompact(s, msgs, w, _, n, _) => RowWritersLater(db, s, msgs, DeleteAll, 0, w, n);
    case _ =>
  }

  lemma {:induction false} LockNeverReturns(db: Db, steps: seq<Step>, sid: SessionId, h: string)
    requires forall i :: 0 <= i < |steps| ==> Foreign(steps[i], sid, h)
    requires !Owns(db.locks, sid, h)
    ensures !Owns(Run(db, steps).locks, sid, h)
  {
    if steps != [] {
      LockNeverReturns(db, steps[..|steps| - 1], sid, h);
      LockNotGained(Run(db, steps[..|steps| - 1]), steps[|steps| - 1], sid, h);
    }
  }

  /** A guarded mutation commits only over a lock row it has reclaimed. */
  lemma MutationClearsLock(db: Db, sid: SessionId, c: Clock)
    ensures MutationGuard(db, sid, c).Ok? ==> sid !in MutationGuard(db, sid, c).value.locks
  {
  }

  /** The steps that take live rows of `sid` away. */
  predicate Removes(step: Step, sid: SessionId) {
    || (step.StepReplace? && step.sid == sid)
    || (step.StepRewind? && step.sid == sid)
    || (step.StepCompact? && step.sid == sid)
  }

  predicate Pruned(db: Db, step: Step, sid: SessionId) {
    step.StepPrune? && step.guarded && sid in Ended(db, step.matched) && !Blocked(db, sid, step.clock)
  }

  lemma {:induction false} RemovalLosesLock(db: Db, step: Step, sid: SessionId, h: string)
    requires Foreign(step, sid, h)
    requires (Removes(step, sid) && Try(db, step).Ok?) || Pruned(db, step, sid)
    ensures !Owns(Apply(db, step).locks, sid, h)
  {
    match step
    case StepReplace(_, msgs, mode, _, c) =>
      MutationClearsLock(db, sid, c);
      RowWritersLater(MutationGuard(db, sid, c).value, sid, msgs, mode, 0, None, 0);
    case StepRewind(_, a, c) =>
      MutationClearsLock(db, sid, c);
      var d := MutationGuard(db, sid, c).value;
      RowWritersLater(d, sid, RewindCheck(d, sid, a).value, DeleteAll, a.target, None, 0);
    case StepCompact(_, _, _, _, _, _) =>
    case StepPrune(m, _, c) =>
      assert sid in Ended(db, m);
  }

  // ---------------------------------------------------------------- The rows

  /** Fresh rows lie above every captured watermark. */
  lemma InsertKeepsSeen(db: Db, s: SessionId, msgs: seq<Msg>, sid: SessionId, w: int)
    requires w < db.nextId
    ensures Select(db.rows + NewRows(s, db.nextId, msgs), LiveUpTo(sid, w)) == Select(db.rows, LiveUpTo(sid, w))
  {
    SelectConcat(db.rows, NewRows(s, db.nextId, msgs), LiveUpTo(sid, w));
    SelectNone(NewRows(s, db.nextId, msgs), LiveUpTo(sid, w));
  }

  lemma InsertMessagesKeepsSeen(db: Db, s: SessionId, msgs: seq<Msg>, sid: SessionId, w: int)
    requires w < db.nextId
    ensures var r := InsertMessages(db, s, msgs);
      r.Ok? ==> Select(r.value.rows, LiveUpTo(sid, w)) == Select(db.rows, LiveUpTo(sid, w))
  {
    InsertKeepsSeen(db, s, msgs, sid, w);
  }

  lemma SelectKeepsSeen(rows: seq<Row>, p: Row -> bool, sid: SessionId, w: int)
    requires forall r :: r in rows && LiveUpTo(sid, w)(r) ==> p(r)
    ensures Select(Select(rows, p), LiveUpTo(sid, w)) == Select(rows, LiveUpTo(sid, w))
  {
    SelectSelect(rows, p, LiveUpTo(sid, w), LiveUpTo(sid, w));
  }

  lemma AppendKeepsSeen(db: Db, s: SessionId, msgs: seq<Msg>, h: string, ttl: real, c: Clock, sid: SessionId, w: int)
    requires w < db.nextId
    ensures var r := Append(db, s, msgs, h, ttl, c);
      r.Ok? ==> Select(r.value.rows, LiveUpTo(sid, w)) == Select(db.rows, LiveUpTo(sid, w))
  {
    GuardFrame(db, s, None, h, ttl, false, false, false, c);
    var g := Guard(db, s, None, h, ttl, false, false, false, c);
    if g.Ok? {
      InsertMessagesKeepsSeen(g.value, s, msgs, sid, w);
    }
  }

  lemma ReplaceKeepsSeen(db: Db, s: SessionId, msgs: seq<Msg>, mode: ReplaceMode, guarded: bool, c: Clock,
                         sid: SessionId, w: int)
    requires w < db.nextId && s != sid
    ensures var r := Replace(db, s, msgs, mode, guarded, c);
      r.Ok? ==> Select(r.value.rows, LiveUpTo(sid, w)) == Select(db.rows, LiveUpTo(sid, w))
  {
    GuardFrame(db, s, None, "", 0.0, true, true, false, c);
    var g := if guarded then MutationGuard(db, s, c) else Ok(db);
    if g.Ok? {
      var d := g.value.(rows := Dropped(db.rows, s, mode));
      match mode {
        case DeleteAll => SelectKeepsSeen(db.rows, Unless(InSession(s)), sid, w);
        case DeleteActive => SelectKeepsSeen(db.rows, Unless(Live(s)), sid, w);
        case ArchiveDropped => SelectUntouched(db.rows, Deactivate(Live(s)), LiveUpTo(sid, w));
      }
      InsertMessagesKeepsSeen(d, s, msgs, sid, w);
    }
  }

  lemma {:induction false} RewindRowsKeepSeen(db: Db, s: SessionId, target: nat, head: seq<Msg>, sid: SessionId, w: int)
    requires w < db.nextId && s != sid
    ensures var r := RewindRows(db, s, target, head);
      r.Ok? ==> Select(r.value.rows, LiveUpTo(sid, w)) == Select(db.rows, LiveUpTo(sid, w))
  {
    var u := Deactivate(LiveAbove(s, target - 1));
    SelectUntouched(db.rows, u, LiveUpTo(sid, w));
    InsertMessagesKeepsSeen(db.(rows := Update(db.rows, u)), s, head, sid, w);
  }

  lemma {:induction false} RewindKeepsSeen(db: Db, s: SessionId, a: RewindArgs, c: Clock, sid: SessionId, w: int)
    requires w < db.nextId && s != sid
    ensures var r := Rewind(db, s, a, c);
      r.Ok? ==> Select(r.value.rows, LiveUpTo(sid, w)) == Select(db.rows, LiveUpTo(sid, w))
  {
    GuardFrame(db, s, None, "", 0.0, true, true, false, c);
    var g := MutationGuard(db, s, c);
    if g.Ok? && RewindCheck(g.value, s, a).Ok? {
      RewindRowsKeepSeen(g.value, s, a.target, RewindCheck(g.value, s, a).value, sid, w);
    }
  }

  lemma CompactKeepsSeen(db: Db, s: SessionId, msgs: seq<Msg>, wm: Option<int>, n: int, sid: SessionId, w: int)
    requires w < db.nextId && s != sid
    ensures var r := CompactRows(db, s, msgs, wm, n);
      r.Ok? ==> Select(r.value.rows, LiveUpTo(sid, w)) == Select(db.rows, LiveUpTo(sid, w))
  {
    var u := Archive(s, Superseded(db.rows, s, wm, n));
    forall r | r in db.rows
      ensures LiveUpTo(sid, w)(u(r)) == LiveUpTo(sid, w)(r) && (LiveUpTo(sid, w)(r) ==> u(r) == r)
    {
      assert Live(s)(r) ==> r.session == s;
    }
    SelectUntouched(db.rows, u, LiveUpTo(sid, w));
    InsertMessagesKeepsSeen(db.(rows := Update(db.rows, u)), s, msgs + Msgs(ConcurrentTail(db.rows, s, wm)), sid, w);
  }

  lemma PublishKeepsSeen(db: Db, p: Publication, c: Clock, sid: SessionId, w: int)
    requires w < db.nextId
    ensures var r := Publish(db, p, c);
      r.Ok? ==> Select(r.value.rows, LiveUpTo(sid, w)) == Select(db.rows, LiveUpTo(sid, w))
  {
    InsertKeepsSeen(db, p.child, ChildMsgs(db.rows, p), sid, w);
  }

  lemma PruneKeepsSeen(db: Db, m: set<SessionId>, c: Clock, sid: SessionId, w: int)
    requires !(sid in Ended(db, m) && !Blocked(db, sid, c))
    ensures Select(Prune(db, m, true, c).rows, LiveUpTo(sid, w)) == Select(db.rows, LiveUpTo(sid, w))
  {
    var victims := set s | s in Ended(db, m) && !Blocked(db, s, c);
    SelectKeepsSeen(db.rows, Unless(InSessions(victims)), sid, w);
  }

  /** One step that leaves the lock with `h` leaves the rows the compressor read as they were. */
  lemma StepKeepsSeen(db: Db, step: Step, sid: SessionId, h: string, w: int)
    requires w < db.nextId
    requires Foreign(step, sid, h) && Owns(Apply(db, step).locks, sid, h)
    ensures Select(Apply(db, step).rows, LiveUpTo(sid, w)) == Select(db.rows, LiveUpTo(sid, w))
  {
    if Removes(step, sid) {
      if Try(db, step).Ok? {
        RemovalLosesLock(db, step, sid, h);
      }
    } else {
      match step
      case StepAppend(s, msgs, holder, ttl, c) => AppendKeepsSeen(db, s, msgs, holder, ttl, c, sid, w);
      case StepReplace(s, msgs, mode, guarded, c) => ReplaceKeepsSeen(db, s, msgs, mode, guarded, c, sid, w);
      case StepClear(s) => SelectKeepsSeen(db.rows, Unless(InSession(s)), sid, w);
      case StepRewind(s, a, c) => RewindKeepsSeen(db, s, a, c, sid, w);
      case StepCompact(s, msgs, wm, _, n, _) => CompactKeepsSeen(db, s, msgs, wm, n, sid, w);
      case StepPublish(p, c) => PublishKeepsSeen(db, p, c, sid, w);
      case StepPrune(m, _, c) =>
        if Pruned(db, step, sid) {
          RemovalLosesLock(db, step, sid, h);
        }
        PruneKeepsSeen(db, m, c, sid, w);
      case StepCreate(_, _) =>
      case StepEnd(_, _) =>
      case StepReopen(_, _) =>
      case StepSweep(_, _) =>
      case _ => LeaseStepFrame(db, step);
    }
  }

  lemma {:induction false} StepKeepsNextId(db: Db, step: Step)
    ensures db.nextId <= Apply(db, step).nextId
  {
    match step
    case StepAppend(s, msgs, holder, ttl, c) => AppendLater(db, s, msgs, holder, ttl, c);
    case StepReplace(s, msgs, mode, guarded, c) => ReplaceLater(db, s, msgs, mode, guarded, c);
    case StepRewind(s, a, c) => RewindLater(db, s, a, c);
    case StepCompact(s, msgs, w, _, n, _) => RowWritersLater(db, s, msgs, DeleteAll, 0, w, n);
    case _ =>
  }

  /** Over a whole run: the lock was never lost, no removal committed, the rows read are untouched. */
  lemma {:induction false} RunKeepsSeen(db: Db, steps: seq<Step>, sid: SessionId, h: string, w: int)
    requires w < db.nextId
    requires forall i :: 0 <= i < |steps| ==> Foreign(steps[i], sid, h)
    requires Owns(Run(db, steps).locks, sid, h)
    ensures db.nextId <= Run(db, steps).nextId
    ensures Select(Run(db, steps).rows, LiveUpTo(sid, w)) == Select(db.rows, LiveUpTo(sid, w))
    ensures forall i :: 0 <= i < |steps| ==>
      !(Removes(steps[i], sid) && Try(Run(db, steps[..i]), steps[i]).Ok?) && !Pruned(Run(db, steps[..i]), steps[i], sid)
  {
    if steps != [] {
      var init, last := steps[..|steps| - 1], steps[|steps| - 1];
      var mid := Run(db, init);
      if !Owns(mid.locks, sid, h) {
        LockNotGained(mid, last, sid, h);
      }
      RunKeepsSeen(db, init, sid, h, w);
      StepKeepsSeen(mid, last, sid, h, w);
      StepKeepsNextId(mid, last);
      forall i | 0 <= i < |steps|
        ensures !(Removes(steps[i], sid) && Try(Run(db, steps[..i]), steps[i]).Ok?)
        ensures !Pruned(Run(db, steps[..i]), steps[i], sid)
      {
        if i < |steps| - 1 {
          assert steps[..i] == init[..i] && steps[i] == init[i];
        } else {
          assert steps[..i] == init;
          if (Removes(last, sid) && Try(mid, last).Ok?) || Pruned(mid, last, sid) {
            RemovalLosesLock(mid, last, sid, h);
          }
        }
      }
    }
  }

  // ---------------------------------------------------------------- The theorem

  lemma WatermarkCovers(db: Db, sid: SessionId)
    requires WellFormed(db)
    ensures Watermark(db, sid) < db.nextId
    ensures Select(db.rows, LiveUpTo(sid, Watermark(db, sid))) == Select(db.rows, Live(sid))
  {
    var live := Select(db.rows, Live(sid));
    var w := Watermark(db, sid);
    SelectOrdered(db.rows, Live(sid));
    SelectMember(db.rows, Live(sid));
    if live != [] {
      assert live[|live| - 1] in live;
    }
    forall r | r in db.rows ensures Live(sid)(r) == LiveUpTo(sid, w)(r) {
      if Live(sid)(r) {
        assert r in live;
        var i :| 0 <= i < |live| && live[i] == r;
        assert i < |live| - 1 ==> live[i].id < live[|live| - 1].id;
      }
    }
    SelectCongruent(db.rows, LiveUpTo(sid, w), Live(sid));
  }

  /** A compressor owned the lock when it captured the watermark of `before`, and any run of foreign steps
      follows.  If the lock check at commit time passes, what it is about to archive is exactly what it
      read: nothing was rewound, replaced, pruned or compacted by anyone else in between. */
  lemma {:induction false} LockAtCommitMeansUnchanged(before: Db, steps: seq<Step>, sid: SessionId, h: string, c: Clock)
    requires WellFormed(before) && Owns(before.locks, sid, h)
    requires forall i :: 0 <= i < |steps| ==> Foreign(steps[i], sid, h)
    requires HoldsLock(Run(before, steps), sid, h, c)
    ensures Seen(Run(before, steps).rows, sid, Some(Watermark(before, sid) as int)) == Select(before.rows, Live(sid))
    ensures forall i :: 0 <= i < |steps| && Removes(steps[i], sid) ==> Try(Run(before, steps[..i]), steps[i]).Err?
    ensures forall i :: 0 <= i < |steps| ==> !Pruned(Run(before, steps[..i]), steps[i], sid)
  {
    WatermarkCovers(before, sid);
    RunKeepsSeen(before, steps, sid, h, Watermark(before, sid));
  }

  /** What was live at capture and what has become live since: every live row is one or the other. */
  lemma {:induction false} LiveAtCommit(before: Db, steps: seq<Step>, sid: SessionId, h: string, r: Row)
    requires WellFormed(before)
    requires forall i :: 0 <= i < |steps| ==> Foreign(steps[i], sid, h)
    requires Owns(Run(before, steps).locks, sid, h)
    requires r in Run(before, steps).rows && Live(sid)(r)
    ensures r in Select(before.rows, Live(sid)) <==> r.id <= Watermark(before, sid)
    ensures r.id > Watermark(before, sid) ==> r.id >= before.nextId
  {
    var after := Run(before, steps);
    var w, top := Watermark(before, sid), before.nextId - 1;
    WatermarkCovers(before, sid);
    RunKeepsSeen(before, steps, sid, h, w);
    RunKeepsSeen(before, steps, sid, h, top);
    SelectMember(before.rows, Live(sid));
    SelectMember(before.rows, LiveUpTo(sid, top));
    SelectMember(after.rows, LiveUpTo(sid, w));
    SelectMember(after.rows, LiveUpTo(sid, top));
    if r.id <= top {
      assert r in Select(after.rows, LiveUpTo(sid, top));
      assert r in Select(before.rows, Live(sid));
    }
  }

  /** A compaction that commits under the lock leaves as the live transcript its summary followed by the
      messages that became live after the capture, in order. */
  lemma {:induction false} CommitArchivesWhatWasRead(before: Db, steps: seq<Step>, sid: SessionId, h: string,
                                                     summary: seq<Msg>, tailCount: int, c: Clock)
    requires WellFormed(before) && Owns(before.locks, sid, h)
    requires forall i :: 0 <= i < |steps| ==> Foreign(steps[i], sid, h)
    requires HoldsLock(Run(before, steps), sid, h, c)
    requires Admits(Run(before, steps), sid, summary, Some(Watermark(before, sid) as int))
    ensures var after := Run(before, steps);
      var w := Watermark(before, sid) as int;
      var r := Compact(after, sid, summary, Some(w), Some(h), tailCount, c);
      && r.Ok?
      && Msgs(Select(r.value.rows, Live(sid))) == summary + Msgs(Select(after.rows, LiveAbove(sid, w)))
      && forall x :: x in Select(after.rows, LiveAbove(sid, w)) ==> x.id >= before.nextId
  {
    var after := Run(before, steps);
    var w := Watermark(before, sid) as int;
    LiveAfterCompaction(after, sid, summary, Some(w), tailCount);
    SelectMember(after.rows, LiveAbove(sid, w));
    forall x | x in Select(after.rows, LiveAbove(sid, w)) ensures x.id >= before.nextId {
      LiveAtCommit(before, steps, sid, h, x);
    }
  }

  /** What that commit makes of a row: archived as compacted when it was live at capture, unless it is one
      of the last `tailCount` of those, which are hidden like the originals of the cloned tail; anything
      that was not live stays as it is. */
  function Settled(r: Row, captured: seq<Row>, tailCount: int, sid: SessionId): Row {
    if !Live(sid)(r) then r
    else if r in captured then r.(active := false, compacted := r.id !in Ids(Last(captured, tailCount)))
    else r.(active := false, compacted := false)
  }

  lemma {:induction false} CommitSettlesEveryRow(before: Db, steps: seq<Step>, sid: SessionId, h: string,
                                                 summary: seq<Msg>, tailCount: int, c: Clock, i: nat)
    requires WellFormed(before) && Owns(before.locks, sid, h)
    requires forall j :: 0 <= j < |steps| ==> Foreign(steps[j], sid, h)
    requires HoldsLock(Run(before, steps), sid, h, c)
    requires Admits(Run(before, steps), sid, summary, Some(Watermark(before, sid) as int))
    requires i < |Run(before, steps).rows|
    ensures var after := Run(before, steps);
      var r := Compact(after, sid, summary, Some(Watermark(before, sid) as int), Some(h), tailCount, c);
      && r.Ok? && i < |r.value.rows|
      && r.value.rows[i] == Settled(after.rows[i], Select(before.rows, Live(sid)), tailCount, sid)
  {
    var after := Run(before, steps);
    var w := Some(Watermark(before, sid) as int);
    var row, captured := after.rows[i], Select(before.rows, Live(sid));
    CompactedRows(after, sid, summary, w, tailCount);
    LockAtCommitMeansUnchanged(before, steps, sid, h, c);
    if Live(sid)(row) {
      LiveAtCommit(before, steps, sid, h, row);
      SelectMember(after.rows, LiveAbove(sid, w.value));
      if row.id <= w.value {
        forall q | q in ConcurrentTail(after.rows, sid, w) ensures q.id != row.id {
        }
        assert row.id in Superseded(after.rows, sid, w, tailCount) <==> row.id in Ids(Last(captured, tailCount));
      } else {
        assert row in ConcurrentTail(after.rows, sid, w);
        assert row.id in Superseded(after.rows, sid, w, tailCount);
      }
    }
  }

  /** Once a turn of the session has been removed, the compressor that might still hold it in its summary
      fails the lock check, however the run goes on, and is refused. */
  lemma {:induction false} RemovedTurnStaysRemoved(before: Db, removal: Step, steps: seq<Step>, sid: SessionId,
                                                   h: string, summary: seq<Msg>, watermark: Option<int>,
                                                   tailCount: int, c: Clock)
    requires Foreign(removal, sid, h)
    requires (Removes(removal, sid) && Try(before, removal).Ok?) || Pruned(before, removal, sid)
    requires forall i :: 0 <= i < |steps| ==> Foreign(steps[i], sid, h)
    ensures !HoldsLock(Run(Apply(before, removal), steps), sid, h, c)
    ensures Compact(Run(Apply(before, removal), steps), sid, summary, watermark, Some(h), tailCount, c)
         == Err(CompressionInProgress)
  {
    RemovalLosesLock(before, removal, sid, h);
    LockNeverReturns(Apply(before, removal), steps, sid, h);
  }
}
