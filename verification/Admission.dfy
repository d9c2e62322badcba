/** What each writer checks before it commits, said on the rows of the two lease tables, the clock and the
    session columns: which input is refused with which error, and what the checks of an accepted one leave. */
module Admission {
  import opened Lineage
  import opened Rows
  import opened Transcript
  import opened WellFormedness
  import Edits

  function AtLeastTenth(ttl: real): real {
    if ttl < 0.1 then 0.1 else ttl
  }

  /** Somebody's row: unexpired, and its holder not known to be dead. */
  predicate LiveRow(t: Leases, k: SessionId, c: Clock) {
    k in t && t[k].expiresAt > c.now && t[k].holder !in c.dead
  }

  predicate EndedAs(db: Db, sid: SessionId, reason: string) {
    sid in db.sessions && db.sessions[sid].end == Some(reason)
  }

  // ---------------------------------------------------------------- The checks, one by one

  /** A live lock that is not the writer's own refuses; a dead or expired one, even its own, is reclaimed. */
  lemma {:induction false} LockGuardVerdict(db: Db, sid: SessionId, lockHolder: Option<string>, c: Clock)
    ensures LockGuard(db, sid, lockHolder, c)
         == if !LiveRow(db.locks, sid, c) then Ok(db.(locks := db.locks - {sid}))
            else if lockHolder == Some(db.locks[sid].holder) then Ok(db) else Err(CompressionInProgress)
  {
    if sid !in db.locks {
      assert db.locks - {sid} == db.locks;
    }
  }

  /** A fenced writer needs its own row, and renews it when it has expired; any other is refused by a live row
      and reclaims a dead one. */
  lemma {:induction false} TurnGuardVerdict(db: Db, sid: SessionId, h: string, ttl: real, c: Clock)
    ensures var k := LeaseKey(db.sessions, sid);
      TurnGuard(db, sid, h, ttl, c)
      == if h == "" then if LiveRow(db.turns, k, c) then Err(TurnLeaseLost) else Ok(db.(turns := db.turns - {k}))
         else if k !in db.turns || db.turns[k].holder != h then Err(TurnLeaseLost)
         else if db.turns[k].expiresAt > c.now then Ok(db)
         else Ok(db.(turns := db.turns[k := Lease(h, c.now + AtLeastTenth(ttl))]))
  {
    var k := LeaseKey(db.sessions, sid);
    if k !in db.turns {
      assert db.turns - {k} == db.turns;
    }
  }

  /** The lock is looked at when it may refuse, the lease when it may refuse or the writer is fenced, in that
      order, and a closed session last, unless it is allowed. */
  lemma {:induction false} GuardVerdict(db: Db, sid: SessionId, lockHolder: Option<string>, h: string, ttl: real,
                                        rejectTurn: bool, rejectLock: bool, allowClosed: bool, c: Clock)
    ensures var g := Guard(db, sid, lockHolder, h, ttl, rejectTurn, rejectLock, allowClosed, c);
      var lock := LockGuard(db, sid, lockHolder, c);
      if rejectLock && lock.Err? then g == Err(CompressionInProgress)
      else if (h != "" || rejectTurn) && TurnGuard(db, sid, h, ttl, c).Err? then g == Err(TurnLeaseLost)
      else if EndedAs(db, sid, "compression") && !allowClosed then g == Err(CompressionSessionClosed)
      else
        && g.Ok? && g.value == db.(locks := g.value.locks, turns := g.value.turns)
        && g.value.locks == (if rejectLock then lock.value.locks else db.locks)
        && g.value.turns == (if h != "" || rejectTurn then TurnGuard(db, sid, h, ttl, c).value.turns else db.turns)
  {
  }

  // ---------------------------------------------------------------- Appends and mutations

  /** An empty append checks nothing.  Otherwise a fenced one needs the caller's row of the conversation,
      expired or not, whether fenced or not the session must be open and there, and nothing else refuses. */
  lemma {:induction false} AppendVerdict(db: Db, sid: SessionId, msgs: seq<Msg>, h: string, ttl: real, c: Clock)
    ensures var r, k := Append(db, sid, msgs, h, ttl, c), LeaseKey(db.sessions, sid);
      var lost := h != "" && (k !in db.turns || db.turns[k].holder != h);
      if msgs == [] then r == Ok(db)
      else if lost then r == Err(TurnLeaseLost)
      else if EndedAs(db, sid, "compression") then r == Err(CompressionSessionClosed)
      else if sid !in db.sessions then r == Err(ForeignKey)
      else
        && r.Ok? && r.value.locks == db.locks
        && r.value.turns == if h != "" && db.turns[k].expiresAt <= c.now
                            then db.turns[k := Lease(h, c.now + AtLeastTenth(ttl))] else db.turns
  {
  }

  /** A user mutation is refused by any live compression lock on the session, then by any live turn lease of
      the conversation, then on a closed session; when it passes, whatever rows there were are reclaimed. */
  lemma {:induction false} MutationVerdict(db: Db, sid: SessionId, c: Clock)
    ensures var g, k := MutationGuard(db, sid, c), LeaseKey(db.sessions, sid);
      if LiveRow(db.locks, sid, c) then g == Err(CompressionInProgress)
      else if LiveRow(db.turns, k, c) then g == Err(TurnLeaseLost)
      else if EndedAs(db, sid, "compression") then g == Err(CompressionSessionClosed)
      else g == Ok(db.(locks := db.locks - {sid}, turns := db.turns - {k}))
  {
    var k := LeaseKey(db.sessions, sid);
    if sid !in db.locks {
      assert db.locks - {sid} == db.locks;
    }
    if k !in db.turns {
      assert db.turns - {k} == db.turns;
    }
  }

  /** A replacement that respects the guards is refused as any mutation is, one that does not only on a
      closed session; either needs the session to insert into. */
  lemma {:induction false} ReplaceVerdict(db: Db, sid: SessionId, msgs: seq<Msg>, mode: ReplaceMode, guarded: bool,
                                          c: Clock)
    ensures var r, k := Replace(db, sid, msgs, mode, guarded, c), LeaseKey(db.sessions, sid);
      if guarded && LiveRow(db.locks, sid, c) then r == Err(CompressionInProgress)
      else if guarded && LiveRow(db.turns, k, c) then r == Err(TurnLeaseLost)
      else if EndedAs(db, sid, "compression") then r == Err(CompressionSessionClosed)
      else if sid !in db.sessions && msgs != [] then r == Err(ForeignKey)
      else
        && r.Ok?
        && r.value.locks == (if guarded then db.locks - {sid} else db.locks)
        && r.value.turns == (if guarded then db.turns - {k} else db.turns)
  {
    MutationVerdict(db, sid, c);
  }

  lemma {:induction false} RewindCheckOnRows(db: Db, g: Db, sid: SessionId, a: RewindArgs)
    requires g.rows == db.rows
    ensures RewindCheck(g, sid, a) == RewindCheck(db, sid, a)
  {
  }

  /** A rewind is refused as any mutation is, and then for what `Edits.RewindNeedsTarget` and
      `Edits.RewindVerdict` say of the rows before it. */
  lemma {:induction false} RewindAdmission(db: Db, sid: SessionId, a: RewindArgs, c: Clock)
    ensures var r, k := Rewind(db, sid, a, c), LeaseKey(db.sessions, sid);
      if LiveRow(db.locks, sid, c) then r == Err(CompressionInProgress)
      else if LiveRow(db.turns, k, c) then r == Err(TurnLeaseLost)
      else if EndedAs(db, sid, "compression") then r == Err(CompressionSessionClosed)
      else if RewindCheck(db, sid, a).Err? then r.Err? && r.error == RewindCheck(db, sid, a).error
      else if sid !in db.sessions && RewindCheck(db, sid, a).value != [] then r == Err(ForeignKey)
      else r.Ok? && r.value.locks == db.locks - {sid} && r.value.turns == db.turns - {k}
  {
    MutationVerdict(db, sid, c);
    var g := MutationGuard(db, sid, c);
    if g.Ok? {
      RewindCheckOnRows(db, g.value, sid, a);
      if RewindCheck(g.value, sid, a).Ok? {
        RewindRowsVerdict(g.value, sid, a.target, RewindCheck(g.value, sid, a).value);
      }
    }
  }

  /** A rewind that commits counts one more rewind of its session, and of no other. */
  lemma {:induction false} RewindIsCounted(db: Db, sid: SessionId, a: RewindArgs, c: Clock)
    requires Rewind(db, sid, a, c).Ok?
    ensures var d := Rewind(db, sid, a, c).value;
      && d.sessions.Keys == db.sessions.Keys
      && forall x :: x in db.sessions ==>
           d.sessions[x].rewindCount == db.sessions[x].rewindCount + (if x == sid then 1 else 0)
  {
    MutationVerdict(db, sid, c);
    var g := MutationGuard(db, sid, c);
    RewindCheckOnRows(db, g.value, sid, a);
    RewindRowsCounted(g.value, sid, a.target, RewindCheck(g.value, sid, a).value);
  }

  lemma {:induction false} RewindRowsCounted(db: Db, sid: SessionId, target: nat, head: seq<Msg>)
    requires RewindRows(db, sid, target, head).Ok?
    ensures var d := RewindRows(db, sid, target, head).value;
      && d.sessions.Keys == db.sessions.Keys
      && forall x :: x in db.sessions ==>
           d.sessions[x].rewindCount == db.sessions[x].rewindCount + (if x == sid then 1 else 0)
  {
  }

  lemma {:induction false} RewindRowsVerdict(db: Db, sid: SessionId, target: nat, head: seq<Msg>)
    ensures var r := RewindRows(db, sid, target, head);
      if sid !in db.sessions && head != [] then r == Err(ForeignKey)
      else r.Ok? && r.value.locks == db.locks && r.value.turns == db.turns
  {
  }

  // ---------------------------------------------------------------- Committing a compaction

  /** A compaction under a lock is refused exactly when at commit the row is gone, somebody else's or expired;
      one that names no holder is not checked.  Its holder may be dead, and its session closed. */
  lemma {:induction false} CompactVerdict(db: Db, sid: SessionId, msgs: seq<Msg>, w: Option<int>,
                                          lockHolder: Option<string>, n: int, c: Clock)
    ensures Compact(db, sid, msgs, w, lockHolder, n, c) == Err(CompressionInProgress)
      <==> lockHolder.Some?
           && (sid !in db.locks || db.locks[sid].holder != lockHolder.value || db.locks[sid].expiresAt <= c.now)
    ensures var r := Compact(db, sid, msgs, w, lockHolder, n, c);
      && (r.Err? ==> r.error == CompressionInProgress || r.error == ForeignKey)
      && (r == Err(ForeignKey) ==> sid !in db.sessions)
      && (r.Ok? ==> r.value.locks == db.locks && r.value.turns == db.turns)
  {
  }

  // ---------------------------------------------------------------- Publishing a rotation

  /** The eight reasons an automatic cleanup stamps; every other end is deliberate. */
  const AUTOMATIC := {"agent_close", "ws_orphan_reap", "superseded_by_resume", "startup_orphan_reap",
                      "tui_shutdown", "ws_disconnect", "idle_timeout", "lru_evict"}

  /** No unexpired lock of the caller's: without a refresh by what the row says, with one by what the refresh
      is about to write. */
  predicate LeaseMissing(db: Db, p: Publication, c: Clock) {
    || p.lockHolder == "" || p.parent !in db.locks || db.locks[p.parent].holder != p.lockHolder
    || (if p.requireRefresh then p.ttl <= 0.0 else db.locks[p.parent].expiresAt <= c.now)
  }

  predicate DeliberatelyEnded(db: Db, sid: SessionId) {
    sid in db.sessions && db.sessions[sid].end.Some? && db.sessions[sid].end.value !in AUTOMATIC
  }

  /** Which publications are refused, in the order of the checks, and what an accepted one leaves in the lock
      table: the refreshed row when a refresh was asked for and the row is the caller's, else every row. */
  lemma {:induction false} PublishVerdict(db: Db, p: Publication, c: Clock)
    ensures var r := Publish(db, p, c);
      if p.requireLease && LeaseMissing(db, p, c) then r == Err(CompressionBusy)
      else if p.parent !in db.sessions then r == Err(ParentNotFound)
      else if DeliberatelyEnded(db, p.parent) then r == Err(ParentEnded)
      else if p.handoff == [] then r == Err(EmptyHandoff)
      else if p.child in db.sessions then r == Err(DuplicateKey)
      else
        && r.Ok? && r.value.turns == db.turns
        && r.value.locks == if p.requireRefresh && p.lockHolder != "" && p.parent in db.locks
                               && db.locks[p.parent].holder == p.lockHolder
                            then db.locks[p.parent := Lease(p.lockHolder, c.now + p.ttl)] else db.locks
  {
  }

  /** The session rows of an accepted publication: the child is open, under the parent, with the source and the
      markers given and the counts of what it starts with; the parent is closed by compression, whatever it was
      before, and is otherwise as it was; no other row changes. */
  lemma {:induction false} PublishedRows(db: Db, p: Publication, c: Clock)
    requires Publish(db, p, c).Ok?
    ensures var d, started := Publish(db, p, c).value, p.handoff + Msgs(ForeignTail(db.rows, p));
      && d.sessions.Keys == db.sessions.Keys + {p.child} && d.nextBorn == db.nextBorn + 1
      && d.sessions[p.child] == Session(Some(p.parent), p.source, p.branchedFrom, p.delegateFrom, None, |started|,
                                        ToolCalls(started), 0, db.nextBorn)
      && d.sessions[p.parent] == db.sessions[p.parent].(end := Some("compression"))
      && forall x :: x in db.sessions && x != p.parent ==> d.sessions[x] == db.sessions[x]
  {
    PublishShape(db, p, c);
  }

  /** So under another compressor's lock, live or expired, no publication that requires the lease commits. */
  lemma {:induction false} ForeignLockStopsPublication(db: Db, p: Publication, c: Clock, other: string)
    requires p.requireLease && p.parent in db.locks && db.locks[p.parent].holder == other && other != p.lockHolder
    ensures Publish(db, p, c) == Err(CompressionBusy)
  {
    PublishVerdict(db, p, c);
  }

  // ---------------------------------------------------------------- Orphans

  predicate Continuation(s: Session, sid: SessionId) {
    s.parent == Some(sid) && s.source != "tool" && s.branchedFrom != Some(sid) && s.delegateFrom != Some(sid)
  }

  /** A closed parent is reopened exactly when no child continues it, ended or not, and no lock row of it is
      unexpired, whether its holder is alive or not; the expired row goes with it, and nothing else changes. */
  lemma {:induction false} ReopenVerdict(db: Db, sid: SessionId, c: Clock)
    ensures var d := Reopen(db, sid, c);
      if && sid != "" && EndedAs(db, sid, "compression")
         && (forall x :: x in db.sessions ==> !Continuation(db.sessions[x], sid))
         && (sid in db.locks ==> db.locks[sid].expiresAt < c.now)
      then
        && d == db.(locks := db.locks - {sid}, sessions := d.sessions) && d.sessions.Keys == db.sessions.Keys
        && d.sessions[sid] == db.sessions[sid].(end := None)
        && (forall x :: x in db.sessions && x != sid ==> d.sessions[x] == db.sessions[x])
      else d == db
  {
  }

  // ---------------------------------------------------------------- Claims, refreshes and releases

  /** A compression lock is gained exactly over no row, an expired one or a dead holder's, and then runs for
      the time asked; any other row stays as it is, the caller's own included. */
  lemma {:induction false} LockClaim(db: Db, sid: SessionId, h: string, ttl: real, c: Clock)
    ensures var d := AcquireLock(db, sid, h, ttl, c);
      && d == db.(locks := d.locks)
      && d.locks == if sid == "" || (sid in db.locks && db.locks[sid].expiresAt >= c.now
                                     && db.locks[sid].holder !in c.dead)
                    then db.locks else db.locks[sid := Lease(h, c.now + ttl)]
  {
  }

  /** A turn lease likewise, except that it can be claimed at the very time it expires and runs for a tenth of
      a second at least. */
  lemma {:induction false} TurnClaim(db: Db, sid: SessionId, h: string, ttl: real, c: Clock)
    ensures var d, k := AcquireTurn(db, sid, h, ttl, c), LeaseKey(db.sessions, sid);
      && d == db.(turns := d.turns)
      && d.turns == if sid == "" || h == "" || LiveRow(db.turns, k, c) then db.turns
                    else db.turns[k := Lease(h, c.now + AtLeastTenth(ttl))]
  {
  }

  /** A refresh extends the caller's row, expired or not, to the time asked from now, and touches no other. */
  lemma {:induction false} Refreshes(db: Db, sid: SessionId, h: string, ttl: real, c: Clock)
    ensures RefreshLock(db, sid, h, ttl, c)
         == if sid != "" && h != "" && sid in db.locks && db.locks[sid].holder == h
            then db.(locks := db.locks[sid := Lease(h, c.now + ttl)]) else db
    ensures var k := LeaseKey(db.sessions, sid);
      RefreshTurn(db, sid, h, ttl, c)
      == if sid != "" && h != "" && k in db.turns && db.turns[k].holder == h
         then db.(turns := db.turns[k := Lease(h, c.now + AtLeastTenth(ttl))]) else db
  {
  }

  /** A release removes the caller's own row and nothing else; without a session, or a holder of the lease, it
      does nothing. */
  lemma {:induction false} Releases(db: Db, sid: SessionId, h: string)
    ensures ReleaseLock(db, sid, h)
         == if sid != "" && sid in db.locks && db.locks[sid].holder == h then db.(locks := db.locks - {sid}) else db
    ensures var k := LeaseKey(db.sessions, sid);
      ReleaseTurn(db, sid, h)
      == if sid != "" && h != "" && k in db.turns && db.turns[k].holder == h then db.(turns := db.turns - {k}) else db
  {
  }

  /** What is claimed can be given back: whoever the row belonged to, the caller's release leaves none of its
      own, and a claim that gained over no row is undone by it. */
  lemma {:induction false} ReleaseUndoesClaim(db: Db, sid: SessionId, h: string, ttl: real, c: Clock)
    requires sid != "" && h != ""
    ensures sid !in db.locks ==> ReleaseLock(AcquireLock(db, sid, h, ttl, c), sid, h) == db
    ensures LeaseKey(db.sessions, sid) !in db.turns ==> ReleaseTurn(AcquireTurn(db, sid, h, ttl, c), sid, h) == db
  {
    if sid !in db.locks {
      assert db.locks[sid := Lease(h, c.now + ttl)] - {sid} == db.locks;
    }
    var k := LeaseKey(db.sessions, sid);
    if k !in db.turns {
      assert db.turns[k := Lease(h, c.now + MaxReal(0.1, ttl))] - {k} == db.turns;
    }
  }

  // ---------------------------------------------------------------- Sessions and maintenance

  /** A new session starts open and empty, under the parent, source and markers it is given; a parent has to
      be there already. */
  lemma {:induction false} CreateVerdict(db: Db, sid: SessionId, s: Session)
    requires sid !in db.sessions
    ensures var r := CreateSession(db, sid, s);
      if s.parent.Some? && s.parent.value !in db.sessions then r == Err(ForeignKey)
      else
        && r.Ok? && r.value == db.(sessions := r.value.sessions, nextBorn := db.nextBorn + 1)
        && r.value.sessions.Keys == db.sessions.Keys + {sid}
        && (forall x :: x in db.sessions ==> r.value.sessions[x] == db.sessions[x])
        && r.value.sessions[sid]
           == s.(end := None, messageCount := 0, toolCallCount := 0, rewindCount := 0, born := db.nextBorn)
  {
  }

  /** The first end reason wins, and an existing session is not created again. */
  lemma {:induction false} FirstWins(db: Db, sid: SessionId, s: Session, first: string, second: string)
    ensures sid in db.sessions ==> CreateSession(db, sid, s) == Ok(db)
    ensures sid in db.sessions && db.sessions[sid].end.None? ==> EndedAs(EndSession(db, sid, first), sid, first)
    ensures EndSession(EndSession(db, sid, first), sid, second) == EndSession(db, sid, first)
  {
  }

  /** A live lock on the session or a live lease of its conversation. */
  predicate Guarded(db: Db, s: SessionId, c: Clock) {
    LiveRow(db.locks, s, c) || LiveRow(db.turns, LeaseKey(db.sessions, s), c)
  }

  /** A prune takes exactly the selected sessions that have ended and, when it respects guards, have none. */
  lemma {:induction false} PruneVerdict(db: Db, m: set<SessionId>, guarded: bool, c: Clock)
    requires WellFormed(db)
    ensures var d := Prune(db, m, guarded, c);
      forall s :: s in d.sessions <==>
        s in db.sessions && !(s in m && db.sessions[s].end.Some? && (guarded ==> !Guarded(db, s, c)))
  {
    Edits.PruneTakesExactly(db, m, guarded, c);
  }

  /** A startup sweep ends exactly the selected open sessions that no guard protects, and changes no other. */
  lemma {:induction false} SweepVerdict(db: Db, m: set<SessionId>, c: Clock)
    ensures var d := Sweep(db, m, c);
      && d.rows == db.rows && d.nextId == db.nextId && d.sessions.Keys == db.sessions.Keys
      && forall s :: s in db.sessions ==>
           d.sessions[s] == if s in m && db.sessions[s].end.None? && !Guarded(db, s, c)
                            then db.sessions[s].(end := Some("startup_orphan_reap")) else db.sessions[s]
  {
  }

  /** A lease is reached only when no live lock hides it from the check. */
  ghost predicate Reclaimed(db: Db, candidates: set<SessionId>, c: Clock, k: SessionId) {
    !LiveRow(db.turns, k, c)
    && exists s :: s in candidates && LeaseKey(db.sessions, s) == k && !LiveRow(db.locks, s, c)
  }

  /** Checking a guard reclaims no live row, and every dead or expired lock of a candidate it meets. */
  lemma {:induction false} ReclaimsOnlyStale(db: Db, candidates: set<SessionId>, c: Clock)
    ensures var d := ReclaimGuards(db, candidates, c);
      && d == db.(locks := d.locks, turns := d.turns)
      && (forall s :: s in d.locks <==> s in db.locks && (s in candidates ==> LiveRow(db.locks, s, c)))
      && (forall s :: s in d.locks ==> d.locks[s] == db.locks[s])
      && (forall k :: k in d.turns <==> k in db.turns && !Reclaimed(db, candidates, c, k))
      && (forall k :: k in d.turns ==> d.turns[k] == db.turns[k])
  {
    forall k | k in db.turns ensures k !in ReclaimGuards(db, candidates, c).turns <==> Reclaimed(db, candidates, c, k) {
      if Reclaimed(db, candidates, c, k) {
        var s :| s in candidates && LeaseKey(db.sessions, s) == k && !LiveRow(db.locks, s, c);
        assert !LockBlocks(db, s, c) && !TurnBlocks(db, s, c);
      }
    }
  }
}
