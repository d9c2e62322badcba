/** The store as the object whose methods run the transactions statement by statement.  Each method is
    proved to commit what `Transcript` specifies, and to restore every table when it is refused. */
module StateDb {
  import opened Lineage
  import opened Rows
  import opened Transcript
  import opened WellFormedness
  import opened Conservation
  import Edits

  // ---------------------------------------------------------------- Facts the statements rely on

  /** The store after an admission check, whether or not the check goes on to refuse. */
  function GuardEffect(db: Db, sid: SessionId, lockHolder: Option<string>, turnHolder: string, ttl: real,
                       rejectTurn: bool, rejectLock: bool, c: Clock): Db
  {
    var l := if rejectLock then LockGuard(db, sid, lockHolder, c) else Ok(db);
    if l.Err? then db
    else
      var t := if turnHolder != "" || rejectTurn then TurnGuard(l.value, sid, turnHolder, ttl, c) else l;
      if t.Err? then l.value else t.value
  }

  /** The three modes a replacement's two flags select. */
  function ModeOf(activeOnly: bool, archiveDropped: bool): ReplaceMode {
    if archiveDropped then ArchiveDropped else if activeOnly then DeleteActive else DeleteAll
  }

  function InIds(ids: set<nat>): Row -> bool {
    (r: Row) => r.id in ids
  }

  /** Selecting by the ids of some of the rows finds exactly those rows. */
  lemma SelectByOwnIds(rows: seq<Row>, p: Row -> bool)
    requires Ordered(rows)
    ensures Select(rows, InIds(Ids(Select(rows, p)))) == Select(rows, p)
  {
    var ids := Ids(Select(rows, p));
    SelectMember(rows, p);
    forall r | r in rows ensures InIds(ids)(r) == p(r) {
      if r.id in ids {
        var q :| q in Select(rows, p) && q.id == r.id;
        var i, j :| 0 <= i < |rows| && rows[i] == r && 0 <= j < |rows| && rows[j] == q;
        assert i == j;
      }
    }
    SelectCongruent(rows, InIds(ids), p);
  }

  /** After `was` come fresh live rows of `target`, ids counting up from `id`: a copy of each named row, and of
      no other. */
  ghost predicate Copies(was: seq<Row>, ids: set<nat>, target: SessionId, id: nat, now: seq<Row>) {
    && was <= now
    && (forall r: Row :: r in was && r.id in ids ==> r.msg in Msgs(now[|was|..]))
    && forall k :: |was| <= k < |now| ==>
         now[k] == Row(id + k - |was|, target, now[k].msg, true, false) && Named(was, ids, now[k].msg)
  }

  ghost predicate Named(rows: seq<Row>, ids: set<nat>, m: Msg) {
    exists r: Row :: r in rows && r.id in ids && r.msg == m
  }

  lemma ClonesAreCopies(rows: seq<Row>, ids: set<nat>, target: SessionId, id: nat)
    ensures Copies(rows, ids, target, id, rows + NewRows(target, id, Msgs(Select(rows, InIds(ids)))))
  {
    var named := Select(rows, InIds(ids));
    var added := NewRows(target, id, Msgs(named));
    var now := rows + added;
    SelectMember(rows, InIds(ids));
    MsgsOfNewRows(target, id, Msgs(named));
    assert now[|rows|..] == added;
    forall r: Row | r in rows && r.id in ids ensures r.msg in Msgs(added) {
      var k :| 0 <= k < |named| && named[k] == r;
      assert Msgs(added)[k] == r.msg;
    }
    forall k | |rows| <= k < |now| ensures Named(rows, ids, now[k].msg) {
      assert named[k - |rows|] in named && now[k].msg == named[k - |rows|].msg;
    }
  }

  /** Rows inserted later are not named by the ids of earlier rows. */
  lemma InsertedNotNamed(db: Db, ids: set<nat>, rows: seq<Row>, s: SessionId, msgs: seq<Msg>)
    requires forall id :: id in ids ==> id < db.nextId
    ensures Select(rows + NewRows(s, db.nextId, msgs), InIds(ids)) == Select(rows, InIds(ids))
  {
    var added := NewRows(s, db.nextId, msgs);
    SelectConcat(rows, added, InIds(ids));
    SelectNone(added, InIds(ids));
    assert Select(rows, InIds(ids)) + [] == Select(rows, InIds(ids));
  }

  /** Cloning by id after the flags have changed, and after other rows have been inserted, copies the
      messages the ids had. */
  lemma ClonesAreTail(db: Db, p: Row -> bool, u: Row -> Row, s: SessionId, msgs: seq<Msg>)
    requires WellFormed(db)
    requires forall r :: r in db.rows ==> u(r).id == r.id && u(r).msg == r.msg
    ensures Msgs(Select(Update(db.rows, u) + NewRows(s, db.nextId, msgs), InIds(Ids(Select(db.rows, p)))))
         == Msgs(Select(db.rows, p))
  {
    var tail := Select(db.rows, p);
    var ids := Ids(tail);
    SelectMember(db.rows, p);
    InsertedNotNamed(db, ids, Update(db.rows, u), s, msgs);
    SelectUpdate(db.rows, u, InIds(ids), InIds(ids));
    SelectByOwnIds(db.rows, p);
    assert Select(Update(db.rows, u), InIds(ids)) == Update(tail, u);
    forall i | 0 <= i < |tail| ensures Update(tail, u)[i].msg == tail[i].msg {
      assert tail[i] in tail;
    }
    assert Msgs(Update(tail, u)) == Msgs(tail);
  }

  /** UPDATE ... SET active = 0, compacted = 0 on the superseded rows. */
  function Supersede(sid: SessionId, ids: set<nat>): Row -> Row {
    (r: Row) => if r.session == sid && r.id in ids then r.(active := false, compacted := false) else r
  }

  /** UPDATE ... SET active = 0, compacted = 1 on the rows still live. */
  function Compacted(sid: SessionId, ids: set<nat>): Row -> Row {
    (r: Row) => if Live(sid)(r) && r.id !in ids then r.(active := false, compacted := true) else r
  }

  /** The two UPDATEs of a compaction are one pass over the rows. */
  lemma TwoUpdates(rows: seq<Row>, sid: SessionId, ids: set<nat>)
    requires Ordered(rows)
    requires forall x :: x in ids ==> exists r :: r in rows && r.id == x && Live(sid)(r)
    ensures Update(Update(rows, Supersede(sid, ids)), Compacted(sid, ids)) == Update(rows, Archive(sid, ids))
  {
    forall i | 0 <= i < |rows|
      ensures Compacted(sid, ids)(Supersede(sid, ids)(rows[i])) == Archive(sid, ids)(rows[i])
    {
      if rows[i].id in ids {
        var r :| r in rows && r.id == rows[i].id && Live(sid)(r);
        var j :| 0 <= j < |rows| && rows[j] == r;
        assert i == j;
      }
    }
  }

  lemma SupersededAreLive(rows: seq<Row>, sid: SessionId, w: Option<int>, n: int)
    requires Ordered(rows)
    ensures forall x :: x in Superseded(rows, sid, w, n) ==> exists r :: r in rows && r.id == x && Live(sid)(r)
  {
    var live := Select(rows, Live(sid));
    LiveAreSeenThenTail(rows, sid, w);
    SelectMember(rows, Live(sid));
    forall x | x in Superseded(rows, sid, w, n) ensures exists r :: r in rows && r.id == x && Live(sid)(r) {
      var r :| r in Last(Seen(rows, sid, w), n) + ConcurrentTail(rows, sid, w) && r.id == x;
      LastIsSuffix(Seen(rows, sid, w), n);
      assert r in live;
    }
  }

  /** The ids of selected rows still name their messages once an archiving pass has changed the flags. */
  lemma ArchivedStillNamed(db: Db, sid: SessionId, ids: set<nat>, p: Row -> bool, msgs: seq<Msg>)
    requires WellFormed(db)
    ensures Msgs(Select(Update(db.rows, Archive(sid, ids)) + NewRows(sid, db.nextId, msgs),
                        InIds(Ids(Select(db.rows, p))))) == Msgs(Select(db.rows, p))
  {
    ClonesAreTail(db, p, Archive(sid, ids), sid, msgs);
  }

  lemma StillNamed(db: Db, s: SessionId, p: Row -> bool, msgs: seq<Msg>)
    requires WellFormed(db)
    ensures Msgs(Select(db.rows + NewRows(s, db.nextId, msgs), InIds(Ids(Select(db.rows, p)))))
         == Msgs(Select(db.rows, p))
  {
    var same := (r: Row) => r;
    ClonesAreTail(db, p, same, s, msgs);
    assert Update(db.rows, same) == db.rows;
  }

  lemma NothingNamed(rows: seq<Row>)
    ensures Msgs(Select(rows, InIds(Ids([])))) == []
  {
    SelectNone(rows, InIds(Ids([])));
  }

  lemma LiveAboveNeedsSession(db: Db, sid: SessionId, w: int)
    requires WellFormed(db)
    ensures Select(db.rows, LiveAbove(sid, w)) != [] ==> sid in db.sessions
  {
    SelectMember(db.rows, LiveAbove(sid, w));
    var s := Select(db.rows, LiveAbove(sid, w));
    if s != [] {
      assert s[0] in s;
    }
  }

  // ---------------------------------------------------------------- Reclaiming guards one by one

  lemma {:induction false} ReclaimNext(db: Db, done: set<SessionId>, s: SessionId, c: Clock)
    requires s !in done
    ensures var d := ReclaimGuards(db, done, c);
      && GuardEffect(d, s, None, "", 0.0, true, true, c) == ReclaimGuards(db, done + {s}, c)
      && (Guard(d, s, None, "", 0.0, true, true, true, c).Err? <==> Blocked(db, s, c))
  {
    var d := ReclaimGuards(db, done, c);
    var k := LeaseKey(db.sessions, s);
    assert s in db.locks <==> s in d.locks;
    var e := GuardEffect(d, s, None, "", 0.0, true, true, c);
    var f := ReclaimGuards(db, done + {s}, c);
    assert e.locks == f.locks;
    assert e.turns == f.turns by {
      if LockBlocks(db, s, c) {
        assert f.turns == d.turns;
      } else if k in d.turns && Stale(d.turns[k], c) {
        assert f.turns == d.turns - {k};
      } else {
        assert f.turns == d.turns;
      }
    }
  }

  /** A session that is not closed by compression is checked alike with and without the closed check. */
  lemma OpenMayPass(db: Db, s: SessionId, allowClosed: bool, c: Clock)
    requires allowClosed || !Closed(db, s)
    ensures Guard(db, s, None, "", 0.0, true, true, allowClosed, c) == Guard(db, s, None, "", 0.0, true, true, true, c)
  {
  }

  lemma ReclaimNone(db: Db, c: Clock)
    ensures ReclaimGuards(db, {}, c) == db
  {
    var d := ReclaimGuards(db, {}, c);
    assert d.locks == db.locks && d.turns == db.turns;
  }

  lemma DeleteNext(rows: seq<Row>, done: set<SessionId>, s: SessionId)
    ensures Select(Select(rows, Unless(InSessions(done))), Unless(InSession(s)))
         == Select(rows, Unless(InSessions(done + {s})))
  {
    SelectSelect(rows, Unless(InSessions(done)), Unless(InSession(s)), Unless(InSessions(done + {s})));
  }

  /** The session rows left when `done` of the `gone` sessions are deleted. */
  function Survivors(ss: Sessions, gone: set<SessionId>, done: set<SessionId>): Sessions {
    map s | s in ss && s !in done :: Orphaned(ss[s], gone)
  }

  lemma SurvivorsNext(ss: Sessions, gone: set<SessionId>, done: set<SessionId>, s: SessionId)
    ensures Survivors(ss, gone, done) - {s} == Survivors(ss, gone, done + {s})
  {
  }

  lemma Exhausted<T>(all: set<T>, done: set<T>)
    requires done <= all && all - done == {}
    ensures done == all
  {
    assert all == done + (all - done);
  }

  /** What a rewind reports. */
  datatype Rewound = Rewound(count: nat, target: Row, head: Option<nat>, replacement: Option<nat>)

  lemma ReplacedIffKept(db: Db, sid: SessionId, a: RewindArgs)
    requires RewindCheck(db, sid, a).Ok?
    ensures RewindCheck(db, sid, a).value == [] <==> !a.preserveHandoff
  {
  }

  function HeadOf(rows: seq<Row>, sid: SessionId): Option<nat> {
    var live := Select(rows, Live(sid));
    if live == [] then None else Some(MaxId(live))
  }

  /** The head is the greatest live id, if any row is live. */
  lemma {:induction false} HeadIsGreatest(rows: seq<Row>, sid: SessionId)
    requires Ordered(rows)
    ensures HeadOf(rows, sid).None? <==> forall r :: r in rows ==> r.session != sid || !r.active
    ensures HeadOf(rows, sid).Some? ==>
      (exists r :: r in rows && r.session == sid && r.active && r.id == HeadOf(rows, sid).value)
      && forall r :: r in rows && r.session == sid && r.active ==> r.id <= HeadOf(rows, sid).value
  {
    SelectMember(rows, Live(sid));
    SelectOrdered(rows, Live(sid));
    var live := Select(rows, Live(sid));
    if live != [] {
      assert live[|live| - 1] in live;
      forall r | r in rows && r.session == sid && r.active ensures r.id <= live[|live| - 1].id {
        assert r in live;
        var i :| 0 <= i < |live| && live[i] == r;
      }
    } else {
      forall r | r in rows ensures r.session != sid || !r.active {
        assert r !in live;
      }
    }
  }

  /** The target is the row before it was hidden; the count is of the rows hidden with it; the head is the
      greatest live id afterwards; a replacement is reported exactly when the handoff was to be kept. */
  predicate Reports(x: Rewound, before: Db, after: Db, sid: SessionId, a: RewindArgs) {
    && Edits.IsTarget(before, sid, a, x.target) && x.target.msg.role == "user"
    && x.count == |Select(before.rows, LiveAbove(sid, a.target - 1))|
    && x.head == HeadOf(after.rows, sid)
    && x.replacement == if a.preserveHandoff then Some(before.nextId) else None
  }

  // ---------------------------------------------------------------- The store

  class StateDb {
    var rows: seq<Row>
    var nextId: nat
    var sessions: Sessions
    var nextBorn: nat
    var locks: Leases
    var turns: Leases

    function Tables(): Db
      reads this
    {
      Db(rows, nextId, sessions, nextBorn, locks, turns)
    }

    ghost predicate Valid()
      reads this
    {
      WellFormed(Tables())
    }

    constructor ()
      ensures Valid() && Tables() == EMPTY
    {
      rows, nextId, sessions, nextBorn, locks, turns := [], 1, map[], 0, map[], map[];
    }

    method Rollback(saved: Db)
      modifies this
      ensures Tables() == saved
    {
      rows, nextId, sessions := saved.rows, saved.nextId, saved.sessions;
      nextBorn, locks, turns := saved.nextBorn, saved.locks, saved.turns;
    }

    // -------------------------------------------------------------- Admission

    /** Walk compression parents to the conversation key; ends on every parent graph. */
    method SessionTurnLeaseKeyOnConn(sid: SessionId) returns (key: SessionId)
      ensures key == LeaseKey(sessions, sid)
    {
      if sid == "" { return sid; }
      var current, seen := sid, {sid};
      while true
        invariant Walk(sessions, current, seen) == LeaseKey(sessions, sid)
        decreases |sessions.Keys - seen|
      {
        if current !in sessions { break; }
        var parent := sessions[current].parent;
        if parent.None? || parent.value == "" || parent.value in seen || IsForkChild(sessions[current]) { break; }
        if parent.value !in sessions || !EndedByCompression(sessions[parent.value]) { break; }
        assert parent.value in sessions.Keys - seen;
        assert sessions.Keys - (seen + {parent.value}) < sessions.Keys - seen;
        SmallerSet(sessions.Keys - (seen + {parent.value}), sessions.Keys - seen);
        seen := seen + {parent.value};
        current := parent.value;
      }
      return current;
    }

    method CheckTranscriptWriteGuards(sid: SessionId, lockHolder: Option<string>, turnHolder: string, ttl: real,
                                      rejectTurn: bool, rejectLock: bool, allowClosed: bool, c: Clock)
      returns (refused: Option<Error>)
      modifies this`locks, this`turns
      ensures Tables() == GuardEffect(old(Tables()), sid, lockHolder, turnHolder, ttl, rejectTurn, rejectLock, c)
      ensures var g := Guard(old(Tables()), sid, lockHolder, turnHolder, ttl, rejectTurn, rejectLock, allowClosed, c);
        match refused case None => g == Ok(Tables()) case Some(e) => g == Err(e)
    {
      if rejectLock && sid in locks {
        if Stale(locks[sid], c) {
          locks := locks - {sid};
        } else if lockHolder != Some(locks[sid].holder) {
          return Some(CompressionInProgress);
        }
      }
      if turnHolder != "" || rejectTurn {
        var key := SessionTurnLeaseKeyOnConn(sid);
        if turnHolder != "" {
          if key !in turns || turns[key].holder != turnHolder {
            return Some(TurnLeaseLost);
          }
          if turns[key].expiresAt <= c.now {
            turns := turns[key := Lease(turnHolder, c.now + MaxReal(0.1, ttl))];
          }
        } else if key in turns {
          if !Stale(turns[key], c) {
            return Some(TurnLeaseLost);
          }
          turns := turns - {key};
        }
      }
      if sid in sessions && EndedByCompression(sessions[sid]) && !allowClosed {
        return Some(CompressionSessionClosed);
      }
      return None;
    }

    // -------------------------------------------------------------- Statements

    /** Insert messages one by one as live rows; refused by the foreign key when the session is missing. */
    method InsertMessageRows(sid: SessionId, msgs: seq<Msg>)
      returns (refused: Option<Error>, inserted: nat, toolCalls: nat)
      modifies this`rows, this`nextId
      ensures match refused
        case None => InsertMessages(old(Tables()), sid, msgs) == Ok(Tables())
                     && inserted == |msgs| && toolCalls == ToolCalls(msgs)
        case Some(e) => InsertMessages(old(Tables()), sid, msgs) == Err(e)
    {
      inserted, toolCalls := 0, 0;
      var i := 0;
      while i < |msgs|
        invariant 0 <= i <= |msgs| && inserted == i && toolCalls == ToolCalls(msgs[..i])
        invariant i > 0 ==> sid in sessions
        invariant rows == old(rows) + NewRows(sid, old(nextId), msgs[..i])
        invariant nextId == old(nextId) + i
      {
        if sid !in sessions {
          return Some(ForeignKey), inserted, toolCalls;
        }
        rows := rows + [Row(nextId, sid, msgs[i], true, false)];
        nextId := nextId + 1;
        inserted := inserted + 1;
        toolCalls := toolCalls + |msgs[i].toolCalls|;
        assert msgs[..i + 1][..i] == msgs[..i];
        assert NewRows(sid, old(nextId), msgs[..i + 1])
            == NewRows(sid, old(nextId), msgs[..i]) + [Row(old(nextId) + i, sid, msgs[i], true, false)];
        i := i + 1;
      }
      assert msgs[..i] == msgs;
      return None, inserted, toolCalls;
    }

    /** INSERT ... SELECT of the named rows, in id order, as fresh live rows of `target`. */
    method CloneMessageRows(ids: set<nat>, target: SessionId)
      modifies this`rows, this`nextId
      ensures var clones := Msgs(Select(old(rows), InIds(ids)));
        rows == old(rows) + NewRows(target, old(nextId), clones) && nextId == old(nextId) + |clones|
      ensures Copies(old(rows), ids, target, old(nextId), rows) && nextId - old(nextId) == |rows| - |old(rows)|
    {
      ClonesAreCopies(rows, ids, target, nextId);
      var clones := Msgs(Select(rows, InIds(ids)));
      rows := rows + NewRows(target, nextId, clones);
      nextId := nextId + |clones|;
    }

    method SetSessionCounters(sid: SessionId, messages: int, toolCalls: int)
      modifies this`sessions
      ensures Tables() == SetCounters(old(Tables()), sid, messages, toolCalls)
    {
      if sid in sessions {
        sessions := sessions[sid := sessions[sid].(messageCount := messages, toolCallCount := toolCalls)];
      }
    }

    // -------------------------------------------------------------- Transcript writers

    method AppendMessagesBatch(sid: SessionId, msgs: seq<Msg>, turnHolder: string, ttl: real, c: Clock)
      returns (r: Result<nat>)
      requires Valid()
      modifies this
      ensures Valid()
      ensures match Append(old(Tables()), sid, msgs, turnHolder, ttl, c)
        case Ok(d) => Tables() == d && r == Ok(|msgs|)
        case Err(e) => Tables() == old(Tables()) && r == Err(e)
    {
      AppendWellFormed(Tables(), sid, msgs, turnHolder, ttl, c);
      if msgs == [] { return Ok(0); }
      var saved := Tables();
      var refused := CheckTranscriptWriteGuards(sid, None, turnHolder, ttl, false, false, false, c);
      if refused.Some? {
        Rollback(saved);
        return Err(refused.value);
      }
      var missing, inserted, toolCalls := InsertMessageRows(sid, msgs);
      if missing.Some? {
        Rollback(saved);
        return Err(missing.value);
      }
      if sid in sessions {
        SetSessionCounters(sid, sessions[sid].messageCount + inserted, sessions[sid].toolCallCount + toolCalls);
      }
      return Ok(inserted);
    }

    /** The admission check of user-initiated mutations. */
    method CheckMutationGuards(sid: SessionId, c: Clock) returns (refused: Option<Error>)
      modifies this`locks, this`turns
      ensures match refused
        case None => MutationGuard(old(Tables()), sid, c) == Ok(Tables())
        case Some(e) => MutationGuard(old(Tables()), sid, c) == Err(e)
    {
      refused := CheckTranscriptWriteGuards(sid, None, "", 0.0, true, true, false, c);
    }

    method DropReplacedRows(sid: SessionId, activeOnly: bool, archiveDropped: bool)
      modifies this`rows
      ensures rows == Dropped(old(rows), sid, ModeOf(activeOnly, archiveDropped))
    {
      if archiveDropped {
        rows := Update(rows, Deactivate(Live(sid)));
      } else if activeOnly {
        rows := Select(rows, Unless(Live(sid)));
      } else {
        rows := Select(rows, Unless(InSession(sid)));
      }
    }

    /** Zero the counters, insert, and set them to what was inserted. */
    method InsertAndCount(sid: SessionId, msgs: seq<Msg>) returns (refused: Option<Error>)
      modifies this`rows, this`nextId, this`sessions
      ensures var r := InsertMessages(old(Tables()), sid, msgs);
        match refused
        case None => r.Ok? && Tables() == SetCounters(r.value, sid, |msgs|, ToolCalls(msgs))
        case Some(e) => r == Err(e)
    {
      SetSessionCounters(sid, 0, 0);
      var inserted, toolCalls;
      refused, inserted, toolCalls := InsertMessageRows(sid, msgs);
      if refused.None? {
        SetSessionCounters(sid, inserted, toolCalls);
      }
    }

    /** Drop the replaced rows, insert the new transcript, recount. */
    method ReplaceMessageRows(sid: SessionId, msgs: seq<Msg>, activeOnly: bool, archiveDropped: bool)
      returns (refused: Option<Error>)
      modifies this
      ensures var r := ReplaceRows(old(Tables()), sid, msgs, ModeOf(activeOnly, archiveDropped));
        match refused case None => r == Ok(Tables()) case Some(e) => r == Err(e)
    {
      DropReplacedRows(sid, activeOnly, archiveDropped);
      refused := InsertAndCount(sid, msgs);
    }

    method ReplaceMessages(sid: SessionId, msgs: seq<Msg>, activeOnly: bool, archiveDropped: bool,
                           rejectActiveTurnLease: bool, c: Clock)
      returns (refused: Option<Error>)
      requires Valid()
      modifies this
      ensures Valid()
      ensures match Replace(old(Tables()), sid, msgs, ModeOf(activeOnly, archiveDropped), rejectActiveTurnLease, c)
        case Ok(d) => Tables() == d && refused == None
        case Err(e) => Tables() == old(Tables()) && refused == Some(e)
    {
      var saved := Tables();
      ReplaceWellFormed(saved, sid, msgs, ModeOf(activeOnly, archiveDropped), rejectActiveTurnLease, c);
      if rejectActiveTurnLease {
        refused := CheckMutationGuards(sid, c);
      } else {
        refused := if sid in sessions && EndedByCompression(sessions[sid]) then Some(CompressionSessionClosed)
                   else None;
      }
      if refused.None? {
        refused := ReplaceMessageRows(sid, msgs, activeOnly, archiveDropped);
      }
      if refused.Some? {
        Rollback(saved);
      }
    }

    /** Validate the target of a rewind against the rows this transaction sees, and find it. */
    method ValidateRewind(sid: SessionId, a: RewindArgs) returns (r: Result<seq<Msg>>, target: Option<Row>)
      ensures r == RewindCheck(Tables(), sid, a)
      ensures r.Ok? ==> target.Some? && Edits.IsTarget(Tables(), sid, a, target.value)
      ensures r.Ok? ==> Edits.AsExpected(Tables(), sid, a) && target.value.msg.role == "user"
      ensures r.Ok? && Edits.MustSplit(a) ==> target.value.active && a.live.Some? && Edits.ContentAsPinned(a)
    {
      if a.expectedIds.Some? && a.expectedIds.value != IdsOf(Select(rows, Live(sid))) {
        return Err(TranscriptChanged), None;
      }
      var found := Select(rows, WithId(sid, a.target));
      if found == [] {
        return Err(MessageNotFound), None;
      }
      SelectMember(rows, WithId(sid, a.target));
      assert found[0] in found;
      if found[0].msg.role != "user" {
        return Err(NotUserMessage), None;
      }
      var replacement := SplitTarget(found[0], a);
      if replacement.Err? {
        return Err(replacement.error), None;
      }
      return Ok(OptionToSeq(replacement.value)), Some(found[0]);
    }

    /** MAX(id) of the live rows, if there are any. */
    method Head(sid: SessionId) returns (head: Option<nat>)
      ensures head == HeadOf(rows, sid)
    {
      var live := Select(rows, Live(sid));
      head := if live == [] then None else Some(MaxId(live));
    }

    /** Hide the target and everything after it, insert the replacement, recount. */
    method RewindMessageRows(sid: SessionId, target: nat, replacement: seq<Msg>)
      returns (refused: Option<Error>, rewound: nat)
      modifies this
      ensures var r := RewindRows(old(Tables()), sid, target, replacement);
        match refused case None => r == Ok(Tables()) case Some(e) => r == Err(e)
      ensures rewound == |Select(old(rows), LiveAbove(sid, target - 1))|
    {
      rewound := |Select(rows, LiveAbove(sid, target - 1))|;
      rows := Update(rows, Deactivate(LiveAbove(sid, target - 1)));
      var inserted, toolCalls;
      refused, inserted, toolCalls := InsertMessageRows(sid, replacement);
      if refused.Some? {
        return;
      }
      ghost var after := Tables();
      if sid in sessions {
        sessions := sessions[sid := sessions[sid].(rewindCount := sessions[sid].rewindCount + 1)];
      }
      var counted := Msgs(Select(rows, Live(sid)));
      SetSessionCounters(sid, |counted|, ToolCalls(counted));
      assert Tables() == CountRewind(SetCounters(after, sid, |counted|, ToolCalls(counted)), sid);
    }

    /** Rewind to a validated target and report. */
    method RewindTo(sid: SessionId, target: Row, replacement: seq<Msg>) returns (r: Result<Rewound>)
      modifies this
      ensures match RewindRows(old(Tables()), sid, target.id, replacement)
        case Ok(d) => Tables() == d
          && r == Ok(Rewound(|Select(old(rows), LiveAbove(sid, target.id - 1))|, target, HeadOf(d.rows, sid),
                             if replacement == [] then None else Some(old(nextId))))
        case Err(e) => r == Err(e)
    {
      var inserted := if replacement == [] then None else Some(nextId);
      var refused, count := RewindMessageRows(sid, target.id, replacement);
      if refused.Some? {
        return Err(refused.value);
      }
      var head := Head(sid);
      return Ok(Rewound(count, target, head, inserted));
    }

    /** The statements of a rewind, up to the one that is refused. */
    method RewindStatements(sid: SessionId, a: RewindArgs, c: Clock) returns (r: Result<Rewound>)
      modifies this
      ensures match Rewind(old(Tables()), sid, a, c)
        case Ok(d) => Tables() == d && r.Ok? && Reports(r.value, old(Tables()), d, sid, a)
        case Err(e) => r == Err(e)
    {
      var refused := CheckMutationGuards(sid, c);
      if refused.Some? {
        return Err(refused.value);
      }
      var replacement, target := ValidateRewind(sid, a);
      if replacement.Err? {
        return Err(replacement.error);
      }
      ReplacedIffKept(Tables(), sid, a);
      r := RewindTo(sid, target.value, replacement.value);
    }

    /** Returns how many rows were hidden, the target as it was, the new head and the replacement's id. */
    method RewindToMessage(sid: SessionId, a: RewindArgs, c: Clock) returns (r: Result<Rewound>)
      requires Valid()
      modifies this
      ensures Valid()
      ensures match Rewind(old(Tables()), sid, a, c)
        case Ok(d) => Tables() == d && r.Ok? && Reports(r.value, old(Tables()), d, sid, a)
        case Err(e) => Tables() == old(Tables()) && r == Err(e)
    {
      var saved := Tables();
      r := RewindStatements(sid, a, c);
      if r.Err? {
        Rollback(saved);
      }
      RewindWellFormed(saved, sid, a, c);
    }

    /** MAX(id) of the live rows, read when a compression starts. */
    method GetActiveMessageWatermark(sid: SessionId) returns (w: nat)
      requires Valid()
      ensures w == if sid == "" then 0 else Watermark(Tables(), sid)
    {
      w := 0;
      if sid == "" { return; }
      var i := 0;
      while i < |rows|
        invariant 0 <= i <= |rows|
        invariant w == MaxId(Select(rows[..i], Live(sid)))
        invariant forall j :: 0 <= j < i ==> Live(sid)(rows[j]) ==> rows[j].id <= w
      {
        assert rows[..i + 1][..i] == rows[..i];
        if rows[i].session == sid && rows[i].active {
          w := rows[i].id;
        }
        i := i + 1;
      }
      assert rows[..i] == rows;
    }

    /** Hide every live row: the superseded ones as rewound, then the rest as compacted. */
    method ArchiveLiveRows(sid: SessionId, watermark: Option<int>, tailCount: int) returns (tail: seq<Row>)
      requires Valid()
      modifies this`rows
      ensures rows == Update(old(rows), Archive(sid, Superseded(old(rows), sid, watermark, tailCount)))
      ensures tail == ConcurrentTail(old(rows), sid, watermark)
    {
      tail := [];
      if watermark.Some? {
        tail := Select(rows, LiveAbove(sid, watermark.value));
      }
      var rewound := [];
      if tailCount > 0 {
        if watermark.None? {
          rewound := Last(Select(rows, Live(sid)), tailCount);
        } else {
          rewound := Last(Select(rows, LiveUpTo(sid, watermark.value)), tailCount);
        }
      }
      var ids := Ids(rewound) + Ids(tail);
      assert ids == Superseded(rows, sid, watermark, tailCount);
      SupersededAreLive(rows, sid, watermark, tailCount);
      TwoUpdates(rows, sid, ids);
      rows := Update(rows, Supersede(sid, ids));
      rows := Update(rows, Compacted(sid, ids));
    }

    /** Clone a tail whose ids still name its messages. */
    method CloneTail(tail: seq<Row>, target: SessionId)
      requires Msgs(Select(rows, InIds(Ids(tail)))) == Msgs(tail)
      modifies this`rows, this`nextId
      ensures rows == old(rows) + NewRows(target, old(nextId), Msgs(tail)) && nextId == old(nextId) + |tail|
    {
      CloneMessageRows(Ids(tail), target);
    }

    /** Insert messages, then clone the tail, whose ids still name its messages. */
    method InsertThenClone(target: SessionId, msgs: seq<Msg>, tail: seq<Row>)
      returns (refused: Option<Error>, inserted: nat, toolCalls: nat)
      requires Msgs(Select(rows + NewRows(target, nextId, msgs), InIds(Ids(tail)))) == Msgs(tail)
      requires tail != [] ==> target in sessions
      modifies this`rows, this`nextId
      ensures var all := msgs + Msgs(tail);
        match refused
        case None => InsertMessages(old(Tables()), target, all) == Ok(Tables())
                     && inserted == |all| && toolCalls == ToolCalls(msgs) + ToolCalls(Msgs(tail))
        case Some(e) => InsertMessages(old(Tables()), target, all) == Err(e)
    {
      refused, inserted, toolCalls := InsertMessageRows(target, msgs);
      if tail == [] {
        assert msgs + Msgs(tail) == msgs;
        return;
      }
      if refused.Some? {
        return;
      }
      assert rows == old(rows) + NewRows(target, old(nextId), msgs) by {
        if msgs == [] { assert old(rows) + [] == old(rows); }
      }
      CloneTail(tail, target);
      NewRowsConcat(target, old(nextId), msgs, Msgs(tail));
      assert rows == old(rows) + NewRows(target, old(nextId), msgs + Msgs(tail));
      inserted := inserted + |tail|;
      toolCalls := toolCalls + ToolCalls(Msgs(tail));
    }

    /** Select the concurrent tail and archive; the tail's ids will still name it after the insert. */
    method ArchiveKeepingTail(sid: SessionId, watermark: Option<int>, tailCount: int, ghost compacted: seq<Msg>)
      returns (tail: seq<Row>)
      requires Valid()
      modifies this`rows
      ensures rows == Update(old(rows), Archive(sid, Superseded(old(rows), sid, watermark, tailCount)))
      ensures tail == ConcurrentTail(old(rows), sid, watermark)
      ensures Msgs(Select(rows + NewRows(sid, nextId, compacted), InIds(Ids(tail)))) == Msgs(tail)
      ensures tail != [] ==> sid in sessions
    {
      ghost var ids := Superseded(rows, sid, watermark, tailCount);
      ghost var db := Tables();
      tail := ArchiveLiveRows(sid, watermark, tailCount);
      if watermark.None? {
        NothingNamed(rows + NewRows(sid, nextId, compacted));
      } else {
        ArchivedStillNamed(db, sid, ids, LiveAbove(sid, watermark.value), compacted);
        LiveAboveNeedsSession(db, sid, watermark.value);
      }
    }

    /** Insert the compacted transcript and the tail's clones, and set the counters. */
    method InsertCompacted(sid: SessionId, compacted: seq<Msg>, tail: seq<Row>)
      returns (refused: Option<Error>, inserted: nat)
      requires Msgs(Select(rows + NewRows(sid, nextId, compacted), InIds(Ids(tail)))) == Msgs(tail)
      requires tail != [] ==> sid in sessions
      modifies this
      ensures match refused
        case None => FinishCompaction(old(Tables()), sid, compacted, Msgs(tail)) == Ok(Tables())
                     && inserted == |compacted + Msgs(tail)|
        case Some(e) => FinishCompaction(old(Tables()), sid, compacted, Msgs(tail)) == Err(e)
    {
      var toolCalls;
      refused, inserted, toolCalls := InsertThenClone(sid, compacted, tail);
      if refused.None? {
        SetSessionCounters(sid, inserted, toolCalls);
      }
    }

    method CompactMessageRows(sid: SessionId, compacted: seq<Msg>, watermark: Option<int>, tailCount: int)
      returns (refused: Option<Error>, inserted: nat)
      requires Valid()
      modifies this
      ensures var r := CompactRows(old(Tables()), sid, compacted, watermark, tailCount);
        match refused
        case None => r == Ok(Tables()) && inserted == |compacted + Msgs(ConcurrentTail(old(rows), sid, watermark))|
        case Some(e) => r == Err(e)
    {
      var tail := ArchiveKeepingTail(sid, watermark, tailCount, compacted);
      refused, inserted := InsertCompacted(sid, compacted, tail);
    }

    method ArchiveAndCompact(sid: SessionId, compacted: seq<Msg>, watermark: Option<int>,
                             lockHolder: Option<string>, tailCount: int, c: Clock)
      returns (r: Result<nat>)
      requires Valid()
      modifies this
      ensures Valid()
      ensures match Compact(old(Tables()), sid, compacted, watermark, lockHolder, tailCount, c)
        case Ok(d) => Tables() == d && r == Ok(|compacted + Msgs(ConcurrentTail(old(rows), sid, watermark))|)
        case Err(e) => Tables() == old(Tables()) && r == Err(e)
    {
      var saved := Tables();
      CompactRowsWellFormed(saved, sid, compacted, watermark, tailCount);
      if lockHolder.Some? {
        if sid !in locks || locks[sid].holder != lockHolder.value || locks[sid].expiresAt <= c.now {
          return Err(CompressionInProgress);
        }
      }
      var refused, inserted := CompactMessageRows(sid, compacted, watermark, tailCount);
      if refused.Some? {
        Rollback(saved);
        return Err(refused.value);
      }
      return Ok(inserted);
    }

    // -------------------------------------------------------------- Rotation

    /** May this publication go ahead?  Renews the lock first when it is asked to. */
    method AdmitPublication(p: Publication, c: Clock) returns (refused: Option<Error>)
      modifies this`locks, this`sessions
      ensures match Publish(old(Tables()), p, c)
        case Ok(d) => refused == None && locks == d.locks
                      && p.parent in old(sessions) && p.child !in old(sessions) && p.handoff != []
                      && sessions == old(sessions)[p.parent := old(sessions)[p.parent].(end := None)]
        case Err(e) => refused == Some(e)
    {
      if p.requireRefresh && p.lockHolder != "" && p.parent in locks && locks[p.parent].holder == p.lockHolder {
        locks := locks[p.parent := Lease(p.lockHolder, c.now + p.ttl)];
      }
      if p.requireLease
         && (p.parent !in locks || p.lockHolder == "" || locks[p.parent].holder != p.lockHolder
             || locks[p.parent].expiresAt <= c.now)
      {
        return Some(CompressionBusy);
      }
      if p.parent !in sessions {
        return Some(ParentNotFound);
      }
      if sessions[p.parent].end.Some? {
        if !AutomaticEnd(sessions[p.parent].end.value) {
          return Some(ParentEnded);
        }
        sessions := sessions[p.parent := sessions[p.parent].(end := None)];
      }
      if p.handoff == [] {
        return Some(EmptyHandoff);
      }
      if p.child in sessions {
        return Some(DuplicateKey);
      }
      return None;
    }

    /** What reached the parent while the summary was being written. */
    method SelectForeignTail(p: Publication) returns (tail: seq<Row>)
      requires Valid()
      ensures tail == ForeignTail(rows, p)
      ensures Msgs(Select(rows + NewRows(p.child, nextId, p.handoff), InIds(Ids(tail)))) == Msgs(tail)
    {
      tail := [];
      if p.watermark.None? {
        NothingNamed(rows + NewRows(p.child, nextId, p.handoff));
      } else if p.ceiling.Some? {
        tail := Select(rows, LiveWithin(p.parent, p.watermark.value, p.ceiling.value));
        StillNamed(Tables(), p.child, LiveWithin(p.parent, p.watermark.value, p.ceiling.value), p.handoff);
      } else {
        tail := Select(rows, LiveAbove(p.parent, p.watermark.value));
        StillNamed(Tables(), p.child, LiveAbove(p.parent, p.watermark.value), p.handoff);
      }
    }

    /** Insert the handoff into the child, then clone the foreign tail after it, and count both. */
    method InsertChildRows(p: Publication, tail: seq<Row>)
      requires p.child in sessions
      requires Msgs(Select(rows + NewRows(p.child, nextId, p.handoff), InIds(Ids(tail)))) == Msgs(tail)
      modifies this`rows, this`nextId, this`sessions
      ensures var all := p.handoff + Msgs(tail);
        && rows == old(rows) + NewRows(p.child, old(nextId), all)
        && nextId == old(nextId) + |all|
        && sessions == old(sessions)[p.child :=
                         old(sessions)[p.child].(messageCount := |all|, toolCallCount := ToolCalls(all))]
    {
      var missing, total, toolCalls := InsertThenClone(p.child, p.handoff, tail);
      ToolCallsConcat(p.handoff, Msgs(tail));
      SetSessionCounters(p.child, total, toolCalls);
      assert old(rows) + [] == old(rows);
    }

    /** Insert the child with its rows, then close the parent. */
    method InsertChild(p: Publication, tail: seq<Row>)
      requires p.parent in sessions && p.child != p.parent
      requires Msgs(Select(rows + NewRows(p.child, nextId, p.handoff), InIds(Ids(tail)))) == Msgs(tail)
      modifies this`rows, this`nextId, this`sessions, this`nextBorn
      ensures var all := p.handoff + Msgs(tail);
        && rows == old(rows) + NewRows(p.child, old(nextId), all)
        && nextId == old(nextId) + |all|
        && nextBorn == old(nextBorn) + 1
        && sessions == old(sessions)
             [p.child := ChildRow(p, old(nextBorn)).(messageCount := |all|, toolCallCount := ToolCalls(all))]
             [p.parent := old(sessions)[p.parent].(end := Some("compression"))]
    {
      sessions := sessions[p.child := ChildRow(p, nextBorn)];
      nextBorn := nextBorn + 1;
      InsertChildRows(p, tail);
      sessions := sessions[p.parent := sessions[p.parent].(end := Some("compression"))];
    }

    /** The statements of a publication, up to the one that is refused. */
    method PublishStatements(p: Publication, c: Clock) returns (refused: Option<Error>)
      requires Valid()
      modifies this
      ensures match Publish(old(Tables()), p, c)
        case Ok(d) => Tables() == d && refused == None
        case Err(e) => refused == Some(e)
    {
      var tail := SelectForeignTail(p);
      refused := AdmitPublication(p, c);
      if refused.None? {
        InsertChild(p, tail);
      }
    }

    method PublishCompressionChild(p: Publication, c: Clock) returns (refused: Option<Error>)
      requires Valid()
      modifies this
      ensures Valid()
      ensures match Publish(old(Tables()), p, c)
        case Ok(d) => Tables() == d && refused == None
        case Err(e) => Tables() == old(Tables()) && refused == Some(e)
    {
      var saved := Tables();
      PublishWellFormed(saved, p, c);
      refused := PublishStatements(p, c);
      if refused.Some? {
        Rollback(saved);
      }
    }

    method ReopenOrphanedCompressionSession(sid: SessionId, c: Clock) returns (reopened: bool)
      requires Valid()
      modifies this
      ensures Valid() && Tables() == Reopen(old(Tables()), sid, c)
      ensures reopened <==> Reopenable(old(Tables()), sid, c)
    {
      ReopenWellFormed(Tables(), sid, c);
      if sid == "" || sid !in sessions || !EndedByCompression(sessions[sid]) { return false; }
      var children := set x | x in sessions && Continues(sessions[x], sid);
      if children != {} {
        assert exists x :: x in children;
        return false;
      }
      assert forall x :: x in sessions && Continues(sessions[x], sid) ==> x in children;
      if sid in locks {
        if locks[sid].expiresAt >= c.now { return false; }
        locks := locks - {sid};
      }
      sessions := sessions[sid := sessions[sid].(end := None)];
      return true;
    }

    // -------------------------------------------------------------- Leases

    /** Delete a stale holder's row, insert ours unless one is left, then look who owns the row. */
    static method ClaimLeaseRow(table: Leases, key: SessionId, holder: string, expiresAt: real, stale: bool)
      returns (claimed: Leases, acquired: bool, reclaimed: Option<string>)
      requires stale ==> key in table
      ensures claimed == Claim(table, key, holder, expiresAt, stale)
      ensures acquired <==> key !in table || stale || table[key].holder == holder
      ensures reclaimed == if stale then Some(table[key].holder) else None
    {
      claimed, reclaimed := table, None;
      if key in claimed && stale {
        reclaimed := Some(claimed[key].holder);
        claimed := claimed - {key};
      }
      if key !in claimed {
        claimed := claimed[key := Lease(holder, expiresAt)];
      }
      acquired := claimed[key].holder == holder;
    }

    method TryAcquireCompressionLock(sid: SessionId, holder: string, ttl: real, c: Clock) returns (acquired: bool)
      modifies this`locks
      ensures Tables() == AcquireLock(old(Tables()), sid, holder, ttl, c)
      ensures acquired <==> sid != "" && Owns(locks, sid, holder)
    {
      if sid == "" { return false; }
      var stale := sid in locks && (locks[sid].expiresAt < c.now || locks[sid].holder in c.dead);
      var reclaimed;
      locks, acquired, reclaimed := ClaimLeaseRow(locks, sid, holder, c.now + ttl, stale);
    }

    method RefreshCompressionLock(sid: SessionId, holder: string, ttl: real, c: Clock) returns (refreshed: bool)
      modifies this`locks
      ensures Tables() == RefreshLock(old(Tables()), sid, holder, ttl, c)
      ensures refreshed <==> sid != "" && holder != "" && Owns(old(locks), sid, holder)
    {
      if sid == "" || holder == "" { return false; }
      if sid !in locks || locks[sid].holder != holder { return false; }
      locks := locks[sid := Lease(holder, c.now + ttl)];
      return true;
    }

    method ReleaseCompressionLock(sid: SessionId, holder: string)
      modifies this`locks
      ensures Tables() == ReleaseLock(old(Tables()), sid, holder)
      ensures sid != "" ==> !Owns(locks, sid, holder)
      ensures forall k :: k in locks ==> k in old(locks) && locks[k] == old(locks)[k]
      ensures forall k :: k in old(locks) && (k != sid || old(locks)[k].holder != holder) ==> k in locks
    {
      if sid != "" && sid in locks && locks[sid].holder == holder {
        locks := locks - {sid};
      }
    }

    method TryAcquireSessionTurnLease(sid: SessionId, holder: string, ttl: real, c: Clock) returns (acquired: bool)
      modifies this`turns
      ensures Tables() == AcquireTurn(old(Tables()), sid, holder, ttl, c)
      ensures acquired <==> sid != "" && holder != "" && Owns(turns, LeaseKey(sessions, sid), holder)
    {
      if sid == "" || holder == "" { return false; }
      var key := SessionTurnLeaseKeyOnConn(sid);
      var stale := key in turns && Stale(turns[key], c);
      var reclaimed;
      turns, acquired, reclaimed := ClaimLeaseRow(turns, key, holder, c.now + MaxReal(0.1, ttl), stale);
    }

    method RefreshSessionTurnLease(sid: SessionId, holder: string, ttl: real, c: Clock) returns (refreshed: bool)
      modifies this`turns
      ensures Tables() == RefreshTurn(old(Tables()), sid, holder, ttl, c)
      ensures refreshed <==> sid != "" && holder != "" && Owns(old(turns), LeaseKey(sessions, sid), holder)
    {
      if sid == "" || holder == "" { return false; }
      var key := SessionTurnLeaseKeyOnConn(sid);
      if key !in turns || turns[key].holder != holder { return false; }
      turns := turns[key := Lease(holder, c.now + MaxReal(0.1, ttl))];
      return true;
    }

    method ReleaseSessionTurnLease(sid: SessionId, holder: string)
      modifies this`turns
      ensures Tables() == ReleaseTurn(old(Tables()), sid, holder)
      ensures sid != "" && holder != "" ==> !Owns(turns, LeaseKey(sessions, sid), holder)
      ensures forall k :: k in turns ==> k in old(turns) && turns[k] == old(turns)[k]
      ensures forall k :: k in old(turns) && (k != LeaseKey(sessions, sid) || old(turns)[k].holder != holder) ==>
        k in turns
    {
      if sid == "" || holder == "" { return; }
      var key := SessionTurnLeaseKeyOnConn(sid);
      if key in turns && turns[key].holder == holder {
        turns := turns - {key};
      }
    }

    // -------------------------------------------------------------- Maintenance

    /** Check every candidate's guards in turn, reclaiming stale ones; keep those with none left. */
    method UnguardedOf(candidates: set<SessionId>, allowClosed: bool, c: Clock) returns (victims: set<SessionId>)
      requires allowClosed || forall s :: s in candidates ==> !Closed(Tables(), s)
      modifies this`locks, this`turns
      ensures Tables() == ReclaimGuards(old(Tables()), candidates, c)
      ensures victims == set s | s in candidates && !Blocked(old(Tables()), s, c)
    {
      ghost var db := Tables();
      victims := {};
      var todo := candidates;
      ReclaimNone(db, c);
      assert candidates - todo == {};
      while todo != {}
        invariant todo <= candidates
        invariant Tables() == ReclaimGuards(db, candidates - todo, c)
        invariant victims == set s | s in candidates - todo && !Blocked(db, s, c)
        decreases |todo|
      {
        var sid :| sid in todo;
        ReclaimNext(db, candidates - todo, sid, c);
        OpenMayPass(Tables(), sid, allowClosed, c);
        var refused := CheckTranscriptWriteGuards(sid, None, "", 0.0, true, true, allowClosed, c);
        if refused.None? {
          victims := victims + {sid};
        }
        assert candidates - (todo - {sid}) == candidates - todo + {sid};
        todo := todo - {sid};
      }
      assert candidates - todo == candidates;
    }

    /** Children of the victims lose their parent. */
    method OrphanChildren(gone: set<SessionId>)
      modifies this`sessions
      ensures sessions == Survivors(old(sessions), gone, {})
    {
      sessions := map s | s in sessions :: Orphaned(sessions[s], gone);
    }

    /** A session's messages, and only then its row. */
    method DeleteSession(sid: SessionId)
      modifies this`rows, this`sessions
      ensures rows == Select(old(rows), Unless(InSession(sid)))
      ensures sessions == old(sessions) - {sid}
    {
      rows := Select(rows, Unless(InSession(sid)));
      sessions := sessions - {sid};
    }

    method DeleteSessionRows(gone: set<SessionId>)
      modifies this`rows, this`sessions
      ensures rows == Select(old(rows), Unless(InSessions(gone)))
      ensures sessions == Survivors(old(sessions), gone, gone)
    {
      ghost var was, kept := sessions, rows;
      OrphanChildren(gone);
      SelectAll(rows, Unless(InSessions({})));
      var done := {};
      while gone - done != {}
        invariant done <= gone
        invariant rows == Select(kept, Unless(InSessions(done)))
        invariant sessions == Survivors(was, gone, done)
        decreases gone - done
      {
        var sid :| sid in gone - done;
        DeleteNext(kept, done, sid);
        SurvivorsNext(was, gone, done, sid);
        DeleteSession(sid);
        done := done + {sid};
      }
      Exhausted(gone, done);
    }

    method DeleteVictims(victims: set<SessionId>) returns (removed: nat)
      requires victims <= sessions.Keys
      modifies this`rows, this`sessions
      ensures Tables() == DeleteSessions(old(Tables()), victims)
      ensures removed == |old(sessions).Keys - sessions.Keys|
    {
      DeleteSessionRows(victims);
      assert old(sessions).Keys - sessions.Keys == victims;
      return |victims|;
    }

    /** Ended sessions the filters matched, less those a live guard protects. */
    method PruneVictims(matched: set<SessionId>, excludeActiveWriteGuards: bool, c: Clock)
      returns (victims: set<SessionId>)
      modifies this`locks, this`turns
      ensures victims <= sessions.Keys
      ensures DeleteSessions(Tables(), victims) == Prune(old(Tables()), matched, excludeActiveWriteGuards, c)
    {
      victims := set s | s in matched && s in sessions && sessions[s].end.Some?;
      assert victims == Ended(Tables(), matched);
      if excludeActiveWriteGuards {
        victims := UnguardedOf(victims, true, c);
      }
    }

    /** End the matched open sessions that no live guard protects; their messages stay. */
    method SweepOrphanedSessions(matched: set<SessionId>, c: Clock) returns (victims: set<SessionId>)
      requires Valid()
      modifies this
      ensures Valid() && Tables() == Sweep(old(Tables()), matched, c)
      ensures victims == set s | s in Unended(old(Tables()), matched) && !Blocked(old(Tables()), s, c)
    {
      SweepWellFormed(Tables(), matched, c);
      var candidates := set s | s in matched && s in sessions && sessions[s].end.None?;
      assert candidates == Unended(Tables(), matched);
      victims := UnguardedOf(candidates, false, c);
      StampEnded(victims);
    }

    method StampEnded(victims: set<SessionId>)
      modifies this`sessions
      ensures sessions == map s | s in old(sessions) ::
        if s in victims then old(sessions)[s].(end := Some("startup_orphan_reap")) else old(sessions)[s]
    {
      sessions := map s | s in sessions ::
        if s in victims then sessions[s].(end := Some("startup_orphan_reap")) else sessions[s];
    }

    method PruneSessions(matched: set<SessionId>, excludeActiveWriteGuards: bool, c: Clock) returns (removed: nat)
      requires Valid()
      modifies this
      ensures Valid() && Tables() == Prune(old(Tables()), matched, excludeActiveWriteGuards, c)
      ensures removed == |old(sessions).Keys - sessions.Keys|
    {
      PruneWellFormed(Tables(), matched, excludeActiveWriteGuards, c);
      var victims := PruneVictims(matched, excludeActiveWriteGuards, c);
      removed := DeleteVictims(victims);
    }
  }
}
