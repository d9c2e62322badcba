/** Publishing a compression child closes the parent and hands the conversation to the child.  Over runs
    without pruning no parent is published twice, and the conversation keeps its lease key. */
module Rotation {
  import opened Lineage
  import opened Rows
  import opened Transcript
  import opened WellFormedness

  /** The child is a continuation of its parent, not a tool, branch or delegate child.  Markers copied
      from the parent's own config name an older session and do not matter. */
  predicate Unmarked(p: Publication) {
    p.source != "tool" && p.branchedFrom != Some(p.parent) && p.delegateFrom != Some(p.parent)
  }

  /** Everything but pruning, with published children unmarked. */
  predicate Rotating(step: Step) {
    !step.StepPrune? && (step.StepPublish? ==> Unmarked(step.publication))
  }

  /** The publications a run commits, in order. */
  function Published(db: Db, steps: seq<Step>): seq<Publication> {
    if steps == [] then []
    else
      var init, last := steps[..|steps| - 1], steps[|steps| - 1];
      Published(db, init)
      + (if last.StepPublish? && Try(Run(db, init), last).Ok? then [last.publication] else [])
  }

  // ---------------------------------------------------------------- One publication

  lemma OnlyAdded(rows: seq<Row>, added: seq<Row>, p: Row -> bool)
    requires (forall r :: r in rows ==> !p(r)) && (forall r :: r in added ==> p(r))
    ensures Select(rows + added, p) == added
  {
    SelectConcat(rows, added, p);
    SelectNone(rows, p);
    SelectAll(added, p);
    assert [] + added == added;
  }

  lemma NoneAdded(rows: seq<Row>, added: seq<Row>, p: Row -> bool)
    requires (forall r :: r in rows ==> p(r)) && (forall r :: r in added ==> !p(r))
    ensures Select(rows + added, p) == rows
  {
    SelectConcat(rows, added, p);
    SelectAll(rows, p);
    SelectNone(added, p);
    assert rows + [] == rows;
  }

  /** The child starts with the non-empty handoff followed by copies of the parent's foreign tail; the
      parent keeps every row and is closed. */
  lemma PublicationContents(db: Db, p: Publication, c: Clock)
    requires WellFormed(db) && Publish(db, p, c).Ok?
    ensures var d := Publish(db, p, c).value;
      && p.handoff != []
      && Select(d.rows, InSession(p.child)) == NewRows(p.child, db.nextId, p.handoff + Msgs(ForeignTail(db.rows, p)))
      && Select(d.rows, Live(p.child)) == Select(d.rows, InSession(p.child))
      && Select(d.rows, Unless(InSession(p.child))) == db.rows
      && Closed(d, p.parent) && Continues(d.sessions[p.child], p.parent) == Unmarked(p)
  {
    PublishShape(db, p, c);
    var added := NewRows(p.child, db.nextId, ChildMsgs(db.rows, p));
    OnlyAdded(db.rows, added, InSession(p.child));
    OnlyAdded(db.rows, added, Live(p.child));
    NoneAdded(db.rows, added, Unless(InSession(p.child)));
  }

  /** The foreign tail: live rows of the parent after the watermark and not past the ceiling. */
  lemma ForeignTailMembers(rows: seq<Row>, p: Publication, r: Row)
    ensures r in ForeignTail(rows, p) <==>
      && r in rows && Live(p.parent)(r) && p.watermark.Some? && r.id > p.watermark.value
      && (p.ceiling.Some? ==> r.id <= p.ceiling.value)
  {
    if p.watermark.Some? {
      SelectMember(rows, LiveAbove(p.parent, p.watermark.value));
      if p.ceiling.Some? {
        SelectMember(rows, LiveWithin(p.parent, p.watermark.value, p.ceiling.value));
      }
    }
  }

  // ---------------------------------------------------------------- A closed parent stays closed

  predicate SameOrigin(a: Session, b: Session) {
    a.parent == b.parent && a.source == b.source && a.branchedFrom == b.branchedFrom && a.delegateFrom == b.delegateFrom
  }

  /** Without pruning, sessions stay and keep what they were created from; an end reason changes only by
      ending an open session, clearing an automatic end on publication, or reopening an orphan. */
  ghost predicate SessionsKept(db: Db, d: Db) {
    forall s :: s in db.sessions ==> s in d.sessions && SameOrigin(db.sessions[s], d.sessions[s])
  }

  ghost predicate EndsKept(db: Db, d: Db) {
    forall s :: s in db.sessions && Closed(db, s) ==> Closed(d, s)
  }

  ghost predicate Kept(db: Db, r: Result<Db>) {
    r.Ok? ==> SessionsKept(db, r.value) && EndsKept(db, r.value)
  }

  lemma CountersKeep(db: Db, rows: seq<Row>, sid: SessionId, msgs: seq<Msg>, m: int, t: int)
    ensures var r := InsertMessages(db.(rows := rows), sid, msgs);
      r.Ok? ==> SessionsKept(db, SetCounters(r.value, sid, m, t)) && EndsKept(db, SetCounters(r.value, sid, m, t))
  {
  }

  lemma AppendKeeps(db: Db, sid: SessionId, msgs: seq<Msg>)
    ensures Kept(db, AppendRows(db, sid, msgs))
  {
    if sid in db.sessions {
      CountersKeep(db, db.rows, sid, msgs, db.sessions[sid].messageCount + |msgs|,
                   db.sessions[sid].toolCallCount + ToolCalls(msgs));
    }
  }

  lemma ReplaceKeeps(db: Db, sid: SessionId, msgs: seq<Msg>, mode: ReplaceMode)
    ensures Kept(db, ReplaceRows(db, sid, msgs, mode))
  {
    CountersKeep(db, Dropped(db.rows, sid, mode), sid, msgs, |msgs|, ToolCalls(msgs));
  }

  lemma RewindCountKeeps(db: Db, d: Db, sid: SessionId)
    requires SessionsKept(db, d) && EndsKept(db, d)
    ensures SessionsKept(db, CountRewind(d, sid)) && EndsKept(db, CountRewind(d, sid))
  {
  }

  lemma RewindKeeps(db: Db, sid: SessionId, target: nat, msgs: seq<Msg>)
    ensures Kept(db, RewindRows(db, sid, target, msgs))
  {
    var kept := Update(db.rows, Deactivate(LiveAbove(sid, target - 1)));
    var r := InsertMessages(db.(rows := kept), sid, msgs);
    if r.Ok? {
      var after := Msgs(Select(r.value.rows, Live(sid)));
      CountersKeep(db, kept, sid, msgs, |after|, ToolCalls(after));
      RewindCountKeeps(db, SetCounters(r.value, sid, |after|, ToolCalls(after)), sid);
    }
  }

  lemma CompactKeeps(db: Db, sid: SessionId, msgs: seq<Msg>, w: Option<int>, n: int)
    ensures Kept(db, CompactRows(db, sid, msgs, w, n))
  {
    var tail := Msgs(ConcurrentTail(db.rows, sid, w));
    CountersKeep(db, Update(db.rows, Archive(sid, Superseded(db.rows, sid, w, n))), sid, msgs + tail,
                 |msgs| + |tail|, ToolCalls(msgs) + ToolCalls(tail));
  }

  lemma {:induction false} GuardedKeep(db: Db, step: Step)
    requires step.StepAppend? || step.StepReplace? || step.StepRewind?
    ensures SessionsKept(db, Apply(db, step)) && EndsKept(db, Apply(db, step))
  {
    match step {
      case StepAppend(sid, msgs, h, ttl, c) =>
        GuardLater(db, sid, h, ttl, false, false, c);
        var g := Guard(db, sid, None, h, ttl, false, false, false, c);
        if g.Ok? { AppendKeeps(g.value, sid, msgs); }
      case StepReplace(sid, msgs, mode, guarded, c) =>
        GuardLater(db, sid, "", 0.0, true, true, c);
        var g := if guarded then MutationGuard(db, sid, c) else Ok(db);
        if g.Ok? { ReplaceKeeps(g.value, sid, msgs, mode); }
      case StepRewind(sid, a, c) =>
        GuardLater(db, sid, "", 0.0, true, true, c);
        var g := MutationGuard(db, sid, c);
        if g.Ok? && RewindCheck(g.value, sid, a).Ok? {
          RewindKeeps(g.value, sid, a.target, RewindCheck(g.value, sid, a).value);
        }
    }
  }

  lemma SessionRowsKept(db: Db, step: Step)
    requires step.StepCreate? || step.StepEnd? || step.StepSweep? || step.StepClear? || step.StepReopen?
    ensures SessionsKept(db, Apply(db, step))
    ensures !step.StepReopen? ==> EndsKept(db, Apply(db, step))
  {
  }

  lemma {:induction false} StepKeepsSessions(db: Db, step: Step)
    requires !step.StepPrune?
    ensures SessionsKept(db, Apply(db, step))
    ensures !step.StepReopen? ==> EndsKept(db, Apply(db, step))
  {
    if step.StepAppend? || step.StepReplace? || step.StepRewind? {
      GuardedKeep(db, step);
    } else if IsLeaseStep(step) {
      LeaseStepFrame(db, step);
    } else if step.StepCompact? {
      CompactKeeps(db, step.sid, step.msgs, step.watermark, step.tailCount);
    } else if step.StepPublish? {
      if Publish(db, step.publication, step.clock).Ok? {
        PublishShape(db, step.publication, step.clock);
      }
    } else {
      SessionRowsKept(db, step);
    }
  }

  ghost predicate HandedOver(db: Db, parent: SessionId, child: SessionId) {
    Closed(db, parent) && child in db.sessions && Continues(db.sessions[child], parent)
  }

  /** A handed-over parent cannot be reopened, and cannot be published again. */
  lemma {:induction false} HandedOverStays(db: Db, step: Step, parent: SessionId, child: SessionId)
    requires !step.StepPrune? && HandedOver(db, parent, child)
    ensures HandedOver(Apply(db, step), parent, child)
    ensures step.StepPublish? && step.publication.parent == parent ==> Try(db, step).Err?
  {
    StepKeepsSessions(db, step);
    if step.StepPublish? && Try(db, step).Ok? {
      PublishShape(db, step.publication, step.clock);
    }
  }

  lemma {:induction false} RunKeepsHandover(db: Db, steps: seq<Step>, parent: SessionId, child: SessionId)
    requires HandedOver(db, parent, child)
    requires forall i :: 0 <= i < |steps| ==> !steps[i].StepPrune?
    ensures HandedOver(Run(db, steps), parent, child)
  {
    if steps != [] {
      RunKeepsHandover(db, steps[..|steps| - 1], parent, child);
      HandedOverStays(Run(db, steps[..|steps| - 1]), steps[|steps| - 1], parent, child);
    }
  }

  /** Appends, replaces and rewinds on a closed parent are refused, guarded or not. */
  lemma ClosedRefuses(db: Db, sid: SessionId, msgs: seq<Msg>, mode: ReplaceMode, guarded: bool,
                      a: RewindArgs, h: string, ttl: real, c: Clock)
    requires Closed(db, sid)
    ensures msgs != [] ==> Append(db, sid, msgs, h, ttl, c).Err?
    ensures Replace(db, sid, msgs, mode, guarded, c).Err?
    ensures Rewind(db, sid, a, c).Err?
  {
    GuardLater(db, sid, h, ttl, false, false, c);
    GuardLater(db, sid, "", 0.0, true, true, c);
  }

  // ---------------------------------------------------------------- The theorem

  ghost predicate AllHandedOver(db: Db, pubs: seq<Publication>) {
    forall i :: 0 <= i < |pubs| ==> HandedOver(db, pubs[i].parent, pubs[i].child)
  }

  /** No parent is published twice, no child is published twice. */
  ghost predicate Distinct(pubs: seq<Publication>) {
    forall i, j :: 0 <= i < j < |pubs| ==> pubs[i].parent != pubs[j].parent && pubs[i].child != pubs[j].child
  }

  lemma {:induction false} StepKeepsHandovers(db: Db, step: Step, pubs: seq<Publication>)
    requires AllHandedOver(db, pubs) && !step.StepPrune?
    ensures AllHandedOver(Apply(db, step), pubs)
  {
    forall i | 0 <= i < |pubs| ensures HandedOver(Apply(db, step), pubs[i].parent, pubs[i].child) {
      HandedOverStays(db, step, pubs[i].parent, pubs[i].child);
    }
  }

  lemma PublicationIsNew(db: Db, step: Step, pubs: seq<Publication>)
    requires WellFormed(db) && AllHandedOver(db, pubs) && Distinct(pubs)
    requires step.StepPublish? && Unmarked(step.publication) && Try(db, step).Ok?
    ensures Distinct(pubs + [step.publication])
    ensures AllHandedOver(Apply(db, step), pubs + [step.publication])
  {
    var p := step.publication;
    StepKeepsHandovers(db, step, pubs);
    PublishShape(db, p, step.clock);
    assert HandedOver(Apply(db, step), p.parent, p.child);
    forall i | 0 <= i < |pubs| ensures pubs[i].parent != p.parent && pubs[i].child != p.child {
      HandedOverStays(db, step, pubs[i].parent, pubs[i].child);
    }
  }

  /** Every parent closed by publication has exactly one published continuation, which is still its child
      and still keeps it closed, however the run went on. */
  lemma {:induction false} Unforked(db: Db, steps: seq<Step>)
    requires WellFormed(db)
    requires forall i :: 0 <= i < |steps| ==> Rotating(steps[i])
    ensures Distinct(Published(db, steps))
    ensures AllHandedOver(Run(db, steps), Published(db, steps))
  {
    if steps != [] {
      var init, last := steps[..|steps| - 1], steps[|steps| - 1];
      assert forall i :: 0 <= i < |init| ==> init[i] == steps[i];
      assert Rotating(last);
      Unforked(db, init);
      RunWellFormed(db, init);
      if last.StepPublish? && Try(Run(db, init), last).Ok? {
        PublicationIsNew(Run(db, init), last, Published(db, init));
      } else {
        StepKeepsHandovers(Run(db, init), last, Published(db, init));
        assert Published(db, steps) == Published(db, init) + [];
      }
    }
  }

  // ---------------------------------------------------------------- Exactly when a parent forks

  ghost predicate PruneFree(steps: seq<Step>) {
    forall i :: 0 <= i < |steps| ==> !steps[i].StepPrune?
  }

  /** The run commits a publication of `parent`. */
  ghost predicate Publishes(db: Db, steps: seq<Step>, parent: SessionId) {
    exists i :: 0 <= i < |Published(db, steps)| && Published(db, steps)[i].parent == parent
  }

  /** Closed for good: nothing but a prune can undo it. */
  ghost predicate Settled(db: Db, parent: SessionId) {
    Closed(db, parent) && (parent == "" || exists x :: HandedOver(db, parent, x))
  }

  lemma {:induction false} StepKeepsSettled(db: Db, step: Step, parent: SessionId)
    requires !step.StepPrune? && Settled(db, parent)
    ensures Settled(Apply(db, step), parent)
    ensures step.StepPublish? && step.publication.parent == parent ==> Try(db, step).Err?
  {
    if parent != "" {
      var x :| HandedOver(db, parent, x);
      HandedOverStays(db, step, parent, x);
    } else {
      StepKeepsSessions(db, step);
      if step.StepPublish? && Try(db, step).Ok? {
        PublishShape(db, step.publication, step.clock);
      }
    }
  }

  lemma {:induction false} SettledIsNotPublished(db: Db, steps: seq<Step>, parent: SessionId)
    requires Settled(db, parent) && PruneFree(steps)
    ensures Settled(Run(db, steps), parent) && !Publishes(db, steps, parent)
  {
    if steps != [] {
      var init, last := steps[..|steps| - 1], steps[|steps| - 1];
      SettledIsNotPublished(db, init, parent);
      StepKeepsSettled(Run(db, init), last, parent);
      forall i | 0 <= i < |Published(db, steps)| ensures Published(db, steps)[i].parent != parent {
        if i < |Published(db, init)| {
          assert Published(db, steps)[i] == Published(db, init)[i];
        }
      }
    }
  }

  ghost function Longest(ids: set<string>): (n: nat)
    ensures forall id :: id in ids ==> |id| <= n
  {
    if ids == {} then 0
    else
      var x :| x in ids;
      var rest := Longest(ids - {x});
      assert forall id :: id in ids ==> id == x || id in ids - {x};
      if rest < |x| then |x| else rest
  }

  lemma FreshId(ss: Sessions) returns (id: SessionId)
    ensures id !in ss
  {
    id := seq(Longest(ss.Keys) + 1, i => 'x');
  }

  /** A compressor that finds the parent reopened takes the lock and publishes it once more. */
  lemma {:induction false} ReopenThenPublish(db: Db, parent: SessionId, c: Clock) returns (steps: seq<Step>)
    requires Reopenable(db, parent, c)
    ensures PruneFree(steps) && Publishes(db, steps, parent)
  {
    var d := Reopen(db, parent, c);
    var child := FreshId(d.sessions);
    var m := Msg("user", "summary", 0.0, None, [], None);
    var q := Publication(parent, child, "cli", None, None, [m], "h", true, false, 0.0, None, None);
    var reopen, lock, publish := StepReopen(parent, c), StepAcquireLock(parent, "h", 1.0, c), StepPublish(q, c);
    steps := [reopen, lock, publish];
    assert steps[..2] == [reopen, lock] && [reopen, lock][..1] == [reopen] && [reopen][..0] == [];
    assert Run(db, []) == db && Run(db, [reopen]) == d;
    var e := Run(db, [reopen, lock]);
    assert e == AcquireLock(d, parent, "h", 1.0, c);
    assert e.sessions == d.sessions && HoldsLock(e, parent, "h", c);
    assert Publish(e, q, c).Ok?;
    assert Published(db, steps) == Published(db, [reopen, lock]) + [q];
    assert Published(db, steps)[|Published(db, steps)| - 1] == q;
  }

  /** A clock by which whatever lock there is has expired. */
  function After(db: Db, sid: SessionId): Clock {
    Clock(if sid in db.locks then db.locks[sid].expiresAt + 1.0 else 0.0, {})
  }

  lemma {:induction false} ContinuedElsewhere(db: Db, p: Publication, c: Clock, x: SessionId)
    requires Publish(db, p, c).Ok? && x in db.sessions && Continues(db.sessions[x], p.parent)
    ensures HandedOver(Publish(db, p, c).value, p.parent, x)
  {
    PublishShape(db, p, c);
  }

  /** A published parent can be published again, by some run without a prune, exactly when its child is
      marked as a fork and nothing else continued it at the time. */
  lemma {:induction false} ForksIff(db: Db, p: Publication, c: Clock)
    requires WellFormed(db) && Publish(db, p, c).Ok?
    ensures (exists steps :: PruneFree(steps) && Publishes(Publish(db, p, c).value, steps, p.parent))
      <==> p.parent != "" && !Unmarked(p) && forall x :: x in db.sessions ==> !Continues(db.sessions[x], p.parent)
  {
    var d := Publish(db, p, c).value;
    PublicationContents(db, p, c);
    if p.parent != "" && !Unmarked(p) && forall x :: x in db.sessions ==> !Continues(db.sessions[x], p.parent) {
      ReopenableAfterPublishIff(db, p, c, After(d, p.parent));
      var steps := ReopenThenPublish(d, p.parent, After(d, p.parent));
    } else {
      if p.parent != "" {
        PublishShape(db, p, c);
        if Unmarked(p) {
          assert HandedOver(d, p.parent, p.child);
        } else {
          var x :| x in db.sessions && Continues(db.sessions[x], p.parent);
          ContinuedElsewhere(db, p, c, x);
        }
      }
      forall steps | PruneFree(steps) ensures !Publishes(d, steps, p.parent) {
        SettledIsNotPublished(d, steps, p.parent);
      }
    }
  }

  ghost predicate AllTracked(db: Db, pubs: seq<Publication>) {
    forall i :: 0 <= i < |pubs| ==>
      pubs[i].child in db.sessions && (pubs[i].parent == "" || Unmarked(pubs[i]) ==> Settled(db, pubs[i].parent))
  }

  /** No child is published twice, and only a marked child leaves its parent open to another. */
  ghost predicate ForksAreMarked(pubs: seq<Publication>) {
    forall i, j :: 0 <= i < j < |pubs| ==>
      pubs[i].child != pubs[j].child
      && (pubs[i].parent == pubs[j].parent ==> pubs[i].parent != "" && !Unmarked(pubs[i]))
  }

  lemma {:induction false} TrackedStays(db: Db, step: Step, pubs: seq<Publication>)
    requires AllTracked(db, pubs) && !step.StepPrune?
    ensures AllTracked(Apply(db, step), pubs)
  {
    StepKeepsSessions(db, step);
    forall i | 0 <= i < |pubs| && (pubs[i].parent == "" || Unmarked(pubs[i]))
      ensures Settled(Apply(db, step), pubs[i].parent)
    {
      StepKeepsSettled(db, step, pubs[i].parent);
    }
  }

  lemma {:induction false} PublicationTracked(db: Db, step: Step, pubs: seq<Publication>)
    requires WellFormed(db) && AllTracked(db, pubs) && ForksAreMarked(pubs)
    requires step.StepPublish? && Try(db, step).Ok?
    ensures AllTracked(Apply(db, step), pubs + [step.publication]) && ForksAreMarked(pubs + [step.publication])
  {
    var p := step.publication;
    TrackedStays(db, step, pubs);
    PublishShape(db, p, step.clock);
    if Unmarked(p) {
      assert HandedOver(Apply(db, step), p.parent, p.child);
    }
    forall i | 0 <= i < |pubs|
      ensures pubs[i].child != p.child
      ensures pubs[i].parent == p.parent ==> p.parent != "" && !Unmarked(pubs[i])
    {
      if pubs[i].parent == p.parent && (p.parent == "" || Unmarked(pubs[i])) {
        StepKeepsSettled(db, step, p.parent);
      }
    }
  }

  /** Over every run without a prune, whatever the children are marked as: a parent published again was
      published before with a marked child. */
  lemma {:induction false} OnlyMarkedChildrenFork(db: Db, steps: seq<Step>)
    requires WellFormed(db) && PruneFree(steps)
    ensures AllTracked(Run(db, steps), Published(db, steps)) && ForksAreMarked(Published(db, steps))
  {
    if steps != [] {
      var init, last := steps[..|steps| - 1], steps[|steps| - 1];
      assert PruneFree(init);
      OnlyMarkedChildrenFork(db, init);
      RunWellFormed(db, init);
      if last.StepPublish? && Try(Run(db, init), last).Ok? {
        PublicationTracked(Run(db, init), last, Published(db, init));
      } else {
        TrackedStays(Run(db, init), last, Published(db, init));
        assert Published(db, steps) == Published(db, init) + [];
      }
    }
  }

  /** Right after a publication the parent can be reopened exactly when the child is marked as a fork, no
      other child continues the parent, and its lock, if any is left, has expired. */
  lemma ReopenableAfterPublishIff(db: Db, p: Publication, c: Clock, later: Clock)
    requires WellFormed(db) && Publish(db, p, c).Ok? && p.parent != ""
    ensures var d := Publish(db, p, c).value;
      Reopenable(d, p.parent, later) <==>
        && !Unmarked(p)
        && (forall x :: x in db.sessions ==> !Continues(db.sessions[x], p.parent))
        && (p.parent in d.locks ==> d.locks[p.parent].expiresAt < later.now)
  {
    PublishShape(db, p, c);
    PublicationContents(db, p, c);
    var d := Publish(db, p, c).value;
    forall x | x in db.sessions ensures Continues(d.sessions[x], p.parent) == Continues(db.sessions[x], p.parent) {
    }
    if Reopenable(d, p.parent, later) {
      assert p.child in d.sessions;
      forall x | x in db.sessions ensures !Continues(db.sessions[x], p.parent) {
        assert x in d.sessions;
      }
    }
  }

  /** A publication that marks its child as a tool session. */
  function ToolChild(child: SessionId): Publication {
    Publication("p", child, "tool", None, None, [Msg("user", "summary", 0.0, None, [], None)], "", false, false, 0.0,
                None, None)
  }

  const ONE_SESSION := Db([], 1, map["p" := Session(None, "cli", None, None, None, 0, 0, 0, 0)], 1, map[], map[])

  lemma {:induction false} FirstForkCommits(c: Clock)
    ensures Publish(ONE_SESSION, ToolChild("c1"), c).Ok?
    ensures var d := Publish(ONE_SESSION, ToolChild("c1"), c).value;
      Reopenable(d, "p", c) && Publish(Reopen(d, "p", c), ToolChild("c2"), c).Ok?
  {
    PublishShape(ONE_SESSION, ToolChild("c1"), c);
    var d := Publish(ONE_SESSION, ToolChild("c1"), c).value;
    assert Reopen(d, "p", c).sessions["p"].end == None && "c2" !in d.sessions;
  }

  lemma {:induction false} PublishedOne(db: Db, step: Step)
    ensures Run(db, [step]) == Apply(db, step)
    ensures Published(db, [step]) == if step.StepPublish? && Try(db, step).Ok? then [step.publication] else []
  {
    assert [step][..0] == [];
  }

  lemma {:induction false} PublishedSnoc(db: Db, steps: seq<Step>, step: Step)
    ensures Run(db, steps + [step]) == Apply(Run(db, steps), step)
    ensures Published(db, steps + [step]) == Published(db, steps) + Published(Run(db, steps), [step])
  {
    assert (steps + [step])[..|steps|] == steps;
    PublishedOne(Run(db, steps), step);
  }

  lemma {:induction false} PublishedTwice(db: Db, one: Publication, sid: SessionId, two: Publication, c: Clock)
    requires Publish(db, one, c).Ok? && Publish(Reopen(Publish(db, one, c).value, sid, c), two, c).Ok?
    ensures Published(db, [StepPublish(one, c)] + [StepReopen(sid, c)] + [StepPublish(two, c)]) == [one] + [two]
  {
    var a, b, e := StepPublish(one, c), StepReopen(sid, c), StepPublish(two, c);
    var d := Publish(db, one, c).value;
    PublishedOne(db, a);
    PublishedOne(d, b);
    PublishedOne(Reopen(d, sid, c), e);
    TwoSnocs(db, a, b, e);
  }

  lemma {:induction false} TwoSnocs(db: Db, a: Step, b: Step, e: Step)
    ensures Published(db, [a] + [b] + [e])
         == Published(db, [a]) + Published(Apply(db, a), [b]) + Published(Apply(Apply(db, a), b), [e])
  {
    PublishedOne(db, a);
    PublishedSnoc(db, [a], b);
    PublishedSnoc(db, [a] + [b], e);
  }

  /** With a tool child the parent forks: published, reopened as an orphan, published again. */
  lemma {:induction false} MarkedChildForks() returns (db: Db, steps: seq<Step>)
    ensures WellFormed(db) && PruneFree(steps)
    ensures |Published(db, steps)| == 2 && Published(db, steps)[0].parent == Published(db, steps)[1].parent
  {
    var c := Clock(0.0, {});
    db := ONE_SESSION;
    FirstForkCommits(c);
    PublishedTwice(db, ToolChild("c1"), "p", ToolChild("c2"), c);
    steps := [StepPublish(ToolChild("c1"), c)] + [StepReopen("p", c)] + [StepPublish(ToolChild("c2"), c)];
  }

  // ---------------------------------------------------------------- The lease key

  /** Closing the parent and adding the child changes no step above the parent. */
  lemma UpAboveParent(db: Db, p: Publication, c: Clock, x: SessionId)
    requires WellFormed(db) && Publish(db, p, c).Ok?
    requires x in db.sessions && db.sessions[x].born <= db.sessions[p.parent].born
    ensures Up(Publish(db, p, c).value.sessions, x) == Up(db.sessions, x)
  {
    PublishShape(db, p, c);
  }

  lemma {:induction false} RootAboveParent(db: Db, p: Publication, c: Clock, x: SessionId,
                                           rank: map<SessionId, nat>, rank': map<SessionId, nat>)
    requires WellFormed(db) && Publish(db, p, c).Ok?
    requires RankedBy(db.sessions, rank) && RankedBy(Publish(db, p, c).value.sessions, rank')
    requires x in db.sessions && db.sessions[x].born <= db.sessions[p.parent].born
    ensures Root(Publish(db, p, c).value.sessions, x, rank') == Root(db.sessions, x, rank)
    decreases db.sessions[x].born
  {
    UpAboveParent(db, p, c, x);
    if Up(db.sessions, x).Some? {
      RootAboveParent(db, p, c, Up(db.sessions, x).value, rank, rank');
    }
  }

  /** Parent and child share the key the parent had before the rotation. */
  lemma PublicationKeepsKey(db: Db, p: Publication, c: Clock)
    requires WellFormed(db) && Publish(db, p, c).Ok?
    requires Unmarked(p) && p.parent != "" && p.child != ""
    ensures var d := Publish(db, p, c).value;
      && LeaseKey(d.sessions, p.child) == LeaseKey(d.sessions, p.parent)
      && LeaseKey(d.sessions, p.parent) == LeaseKey(db.sessions, p.parent)
  {
    var d := Publish(db, p, c).value;
    PublishWellFormed(db, p, c);
    PublishShape(db, p, c);
    BirthOrderedIsAcyclic(db.sessions);
    BirthOrderedIsAcyclic(d.sessions);
    assert Up(d.sessions, p.child) == Some(p.parent);
    KeyOfParent(d.sessions, p.child);
    var rank :| RankedBy(db.sessions, rank);
    var rank' :| RankedBy(d.sessions, rank');
    RootAboveParent(db, p, c, p.parent, rank, rank');
    KeyIsRoot(db.sessions, p.parent, rank);
    KeyIsRoot(d.sessions, p.parent, rank');
  }

  /** A turn that was running when the conversation rotated owns the child's turn, and nobody else does:
      a lease-fenced append to the child is accepted exactly from the holder of the parent's lease. */
  lemma TurnCarriesAcrossRotation(db: Db, p: Publication, c: Clock, h: string, msgs: seq<Msg>, ttl: real, later: Clock)
    requires WellFormed(db) && Publish(db, p, c).Ok?
    requires Unmarked(p) && p.parent != "" && p.child != "" && h != "" && msgs != []
    ensures Append(Publish(db, p, c).value, p.child, msgs, h, ttl, later).Ok?
      <==> Owns(db.turns, LeaseKey(db.sessions, p.parent), h)
  {
    var d := Publish(db, p, c).value;
    PublicationKeepsKey(db, p, c);
    PublishShape(db, p, c);
    assert !Closed(d, p.child);
    GuardLater(d, p.child, h, ttl, false, false, later);
    assert Guard(d, p.child, None, h, ttl, false, false, false, later).Ok?
      <==> Owns(d.turns, LeaseKey(d.sessions, p.child), h);
  }
}
