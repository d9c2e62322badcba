/** The shared transcript store as a value, and what each public writer commits to it.  A writer is one
    write transaction: it either commits a new store or is refused and leaves the store as it was. */
module Transcript {
  import opened Lineage
  import opened Rows

  datatype Error =
    | CompressionInProgress | TurnLeaseLost | CompressionSessionClosed | ForeignKey | DuplicateKey
    | CompressionBusy | ParentNotFound | ParentEnded | EmptyHandoff
    | TranscriptChanged | MessageNotFound | NotUserMessage | TargetNotActive
    | NotUserOriginated | TargetChanged | NoHandoff

  datatype Result<+T> = Ok(value: T) | Err(error: Error) {
    predicate IsFailure() { Err? }
    function PropagateFailure<U>(): Result<U> requires Err? { Err(error) }
    function Extract(): T requires Ok? { value }
  }

  /** A row of `compression_locks` or `session_turn_leases`. */
  datatype Lease = Lease(holder: string, expiresAt: real)

  type Leases = map<SessionId, Lease>

  datatype Db = Db(
    rows: seq<Row>,
    nextId: nat,
    sessions: Sessions,
    nextBorn: nat,
    locks: Leases,
    turns: Leases)

  /** What a transaction reads from outside the store: the wall clock, and the holders whose local
      process is provably gone.  Nothing is assumed about successive readings. */
  datatype Clock = Clock(now: real, dead: set<string>)

  ghost predicate WellFormed(db: Db) {
    && Ordered(db.rows)
    && db.nextId >= 1
    && (forall r :: r in db.rows ==> 1 <= r.id < db.nextId && r.session in db.sessions)
    && BirthOrdered(db.sessions)
    && (forall s :: s in db.sessions ==> db.sessions[s].born < db.nextBorn)
  }

  const EMPTY := Db([], 1, map[], 0, map[], map[])

  // ---------------------------------------------------------------- Admission

  predicate Stale(l: Lease, c: Clock) {
    l.expiresAt <= c.now || l.holder in c.dead
  }

  predicate Closed(db: Db, sid: SessionId) {
    sid in db.sessions && EndedByCompression(db.sessions[sid])
  }

  function MaxReal(a: real, b: real): real {
    if a < b then b else a
  }

  /** Refuses a foreign compression lock; reclaims a stale one. */
  function LockGuard(db: Db, sid: SessionId, lockHolder: Option<string>, c: Clock): Result<Db> {
    if sid !in db.locks then Ok(db)
    else if Stale(db.locks[sid], c) then Ok(db.(locks := db.locks - {sid}))
    else if Some(db.locks[sid].holder) != lockHolder then Err(CompressionInProgress)
    else Ok(db)
  }

  /** A lease-fenced writer must own the lease row and renews it when expired; an unowned mutation is
      refused by a live lease and reclaims a stale one. */
  function TurnGuard(db: Db, sid: SessionId, turnHolder: string, ttl: real, c: Clock): Result<Db> {
    var k := LeaseKey(db.sessions, sid);
    if turnHolder != "" then
      if k !in db.turns || db.turns[k].holder != turnHolder then Err(TurnLeaseLost)
      else if db.turns[k].expiresAt <= c.now then
        Ok(db.(turns := db.turns[k := Lease(turnHolder, c.now + MaxReal(0.1, ttl))]))
      else Ok(db)
    else if k !in db.turns then Ok(db)
    else if !Stale(db.turns[k], c) then Err(TurnLeaseLost)
    else Ok(db.(turns := db.turns - {k}))
  }

  function Guard(db: Db, sid: SessionId, lockHolder: Option<string>, turnHolder: string, ttl: real,
                 rejectTurn: bool, rejectLock: bool, allowClosed: bool, c: Clock): Result<Db>
  {
    var d1 :- if rejectLock then LockGuard(db, sid, lockHolder, c) else Ok(db);
    var d2 :- if turnHolder != "" || rejectTurn then TurnGuard(d1, sid, turnHolder, ttl, c) else Ok(d1);
    if Closed(db, sid) && !allowClosed then Err(CompressionSessionClosed) else Ok(d2)
  }

  // ---------------------------------------------------------------- Statements

  function InsertMessages(db: Db, sid: SessionId, msgs: seq<Msg>): Result<Db> {
    if msgs == [] then Ok(db)
    else if sid !in db.sessions then Err(ForeignKey)
    else Ok(db.(rows := db.rows + NewRows(sid, db.nextId, msgs), nextId := db.nextId + |msgs|))
  }

  function SetCounters(db: Db, sid: SessionId, messages: int, toolCalls: int): Db {
    if sid !in db.sessions then db
    else db.(sessions := db.sessions[sid := db.sessions[sid].(messageCount := messages, toolCallCount := toolCalls)])
  }

  function BumpCounters(db: Db, sid: SessionId, messages: int, toolCalls: int): Db {
    if sid !in db.sessions then db
    else SetCounters(db, sid, db.sessions[sid].messageCount + messages, db.sessions[sid].toolCallCount + toolCalls)
  }

  function Unless(p: Row -> bool): Row -> bool {
    (r: Row) => !p(r)
  }

  function Deactivate(p: Row -> bool): Row -> Row {
    (r: Row) => if p(r) then r.(active := false) else r
  }

  // ---------------------------------------------------------------- Append, replace, rewind

  function AppendRows(db: Db, sid: SessionId, msgs: seq<Msg>): Result<Db> {
    var d :- InsertMessages(db, sid, msgs);
    Ok(BumpCounters(d, sid, |msgs|, ToolCalls(msgs)))
  }

  function Append(db: Db, sid: SessionId, msgs: seq<Msg>, turnHolder: string, ttl: real, c: Clock): Result<Db> {
    if msgs == [] then Ok(db)
    else
      var d :- Guard(db, sid, None, turnHolder, ttl, false, false, false, c);
      AppendRows(d, sid, msgs)
  }

  datatype ReplaceMode = DeleteAll | DeleteActive | ArchiveDropped

  /** The rows left once the replaced ones are dropped. */
  function Dropped(rows: seq<Row>, sid: SessionId, mode: ReplaceMode): seq<Row> {
    match mode
    case DeleteAll => Select(rows, Unless(InSession(sid)))
    case DeleteActive => Select(rows, Unless(Live(sid)))
    case ArchiveDropped => Update(rows, Deactivate(Live(sid)))
  }

  /** The admission check of user-initiated mutations. */
  function MutationGuard(db: Db, sid: SessionId, c: Clock): Result<Db> {
    Guard(db, sid, None, "", 0.0, true, true, false, c)
  }

  function ReplaceRows(db: Db, sid: SessionId, msgs: seq<Msg>, mode: ReplaceMode): Result<Db> {
    var d :- InsertMessages(db.(rows := Dropped(db.rows, sid, mode)), sid, msgs);
    Ok(SetCounters(d, sid, |msgs|, ToolCalls(msgs)))
  }

  function Replace(db: Db, sid: SessionId, msgs: seq<Msg>, mode: ReplaceMode, guarded: bool, c: Clock): Result<Db> {
    var d :- if guarded then MutationGuard(db, sid, c)
             else if Closed(db, sid) then Err(CompressionSessionClosed) else Ok(db);
    ReplaceRows(d, sid, msgs, mode)
  }

  function Clear(db: Db, sid: SessionId): Db {
    SetCounters(db.(rows := Select(db.rows, Unless(InSession(sid)))), sid, 0, 0)
  }

  /** The parameters of a rewind.  `handoff` and `live` are what splitting the target turn yields. */
  datatype RewindArgs = RewindArgs(
    target: nat,
    preserveHandoff: bool,
    expectedIds: Option<seq<nat>>,
    expectedContent: Option<string>,
    handoff: Option<Msg>,
    live: Option<string>)

  function IdsOf(rows: seq<Row>): seq<nat> {
    seq(|rows|, i requires 0 <= i < |rows| => rows[i].id)
  }

  function WithId(sid: SessionId, id: nat): Row -> bool {
    (r: Row) => r.id == id && r.session == sid
  }

  /** The replacement row of a rewind, or why the target cannot be rewound to. */
  function SplitTarget(target: Row, a: RewindArgs): Result<Option<Msg>> {
    if !a.preserveHandoff && a.expectedContent.None? then Ok(None)
    else if !target.active then Err(TargetNotActive)
    else if a.live.None? then Err(NotUserOriginated)
    else if a.expectedContent.Some? && a.live != a.expectedContent then Err(TargetChanged)
    else if a.preserveHandoff && a.handoff.None? then Err(NoHandoff)
    else Ok(if a.preserveHandoff then a.handoff else None)
  }

  function OptionToSeq<T>(o: Option<T>): seq<T> {
    match o case None => [] case Some(x) => [x]
  }

  /** Rows at or above the target leave the live set; a replacement head may be inserted. */
  function RewindRows(db: Db, sid: SessionId, target: nat, replacement: seq<Msg>): Result<Db> {
    var kept := Update(db.rows, Deactivate(LiveAbove(sid, target - 1)));
    var d :- InsertMessages(db.(rows := kept), sid, replacement);
    var after := Msgs(Select(d.rows, Live(sid)));
    Ok(CountRewind(SetCounters(d, sid, |after|, ToolCalls(after)), sid))
  }

  function CountRewind(db: Db, sid: SessionId): Db {
    if sid !in db.sessions then db
    else db.(sessions := db.sessions[sid := db.sessions[sid].(rewindCount := db.sessions[sid].rewindCount + 1)])
  }

  /** The replacement rows of an admissible rewind. */
  function RewindCheck(db: Db, sid: SessionId, a: RewindArgs): Result<seq<Msg>> {
    if a.expectedIds.Some? && a.expectedIds.value != IdsOf(Select(db.rows, Live(sid))) then Err(TranscriptChanged)
    else
      var found := Select(db.rows, WithId(sid, a.target));
      if found == [] then Err(MessageNotFound)
      else if found[0].msg.role != "user" then Err(NotUserMessage)
      else
        var replacement :- SplitTarget(found[0], a);
        Ok(OptionToSeq(replacement))
  }

  function Rewind(db: Db, sid: SessionId, a: RewindArgs, c: Clock): Result<Db> {
    var d :- MutationGuard(db, sid, c);
    var replacement :- RewindCheck(d, sid, a);
    RewindRows(d, sid, a.target, replacement)
  }

  // ---------------------------------------------------------------- Compaction

  predicate HoldsLock(db: Db, sid: SessionId, holder: string, c: Clock) {
    sid in db.locks && db.locks[sid].holder == holder && db.locks[sid].expiresAt > c.now
  }

  /** Live rows that arrived after the compressor read the transcript. */
  function ConcurrentTail(rows: seq<Row>, sid: SessionId, watermark: Option<int>): seq<Row> {
    match watermark case None => [] case Some(w) => Select(rows, LiveAbove(sid, w))
  }

  /** Live rows the compressor read. */
  function Seen(rows: seq<Row>, sid: SessionId, watermark: Option<int>): seq<Row> {
    match watermark case None => Select(rows, Live(sid)) case Some(w) => Select(rows, LiveUpTo(sid, w))
  }

  /** Rows whose copies stay live after the compaction: the carried tail and the concurrent tail. */
  function Superseded(rows: seq<Row>, sid: SessionId, watermark: Option<int>, tailCount: int): set<nat> {
    Ids(Last(Seen(rows, sid, watermark), tailCount)) + Ids(ConcurrentTail(rows, sid, watermark))
  }

  /** Every live row leaves the live set: superseded rows as if rewound, the rest as compacted. */
  function Archive(sid: SessionId, superseded: set<nat>): Row -> Row {
    (r: Row) => if Live(sid)(r) then r.(active := false, compacted := r.id !in superseded) else r
  }

  /** The compacted transcript and the clones of the concurrent tail go in behind the archived rows. */
  function FinishCompaction(archived: Db, sid: SessionId, compacted: seq<Msg>, tail: seq<Msg>): Result<Db> {
    var d :- InsertMessages(archived, sid, compacted + tail);
    Ok(SetCounters(d, sid, |compacted| + |tail|, ToolCalls(compacted) + ToolCalls(tail)))
  }

  function CompactRows(db: Db, sid: SessionId, compacted: seq<Msg>, watermark: Option<int>, tailCount: int): Result<Db>
  {
    var archived := Update(db.rows, Archive(sid, Superseded(db.rows, sid, watermark, tailCount)));
    FinishCompaction(db.(rows := archived), sid, compacted, Msgs(ConcurrentTail(db.rows, sid, watermark)))
  }

  function Compact(db: Db, sid: SessionId, compacted: seq<Msg>, watermark: Option<int>,
                   lockHolder: Option<string>, tailCount: int, c: Clock): Result<Db>
  {
    if lockHolder.Some? && !HoldsLock(db, sid, lockHolder.value, c) then Err(CompressionInProgress)
    else CompactRows(db, sid, compacted, watermark, tailCount)
  }

  /** The greatest live id, captured when a compression starts. */
  function Watermark(db: Db, sid: SessionId): nat {
    MaxId(Select(db.rows, Live(sid)))
  }

  // ---------------------------------------------------------------- Rotation

  datatype Publication = Publication(
    parent: SessionId,
    child: SessionId,
    source: string,
    branchedFrom: Option<SessionId>,
    delegateFrom: Option<SessionId>,
    handoff: seq<Msg>,
    lockHolder: string,
    requireLease: bool,
    requireRefresh: bool,
    ttl: real,
    watermark: Option<int>,
    ceiling: Option<int>)

  predicate AutomaticEnd(reason: string) {
    reason in {"agent_close", "ws_orphan_reap", "superseded_by_resume", "startup_orphan_reap",
               "tui_shutdown", "ws_disconnect", "idle_timeout", "lru_evict"}
  }

  /** The parent's rows that arrived during the summary and are not already in the handoff. */
  function ForeignTail(rows: seq<Row>, p: Publication): seq<Row> {
    match p.watermark
    case None => []
    case Some(w) =>
      match p.ceiling
      case None => Select(rows, LiveAbove(p.parent, w))
      case Some(hi) => Select(rows, LiveWithin(p.parent, w, hi))
  }

  /** What the child starts with. */
  function ChildMsgs(rows: seq<Row>, p: Publication): seq<Msg> {
    p.handoff + Msgs(ForeignTail(rows, p))
  }

  function ChildRow(p: Publication, born: nat): Session {
    Session(Some(p.parent), p.source, p.branchedFrom, p.delegateFrom, None, 0, 0, 0, born)
  }

  function Publish(db: Db, p: Publication, c: Clock): Result<Db> {
    var locks :=
      if p.requireRefresh && p.lockHolder != "" && p.parent in db.locks && db.locks[p.parent].holder == p.lockHolder
      then db.locks[p.parent := Lease(p.lockHolder, c.now + p.ttl)]
      else db.locks;
    if p.requireLease && (p.lockHolder == "" || !HoldsLock(db.(locks := locks), p.parent, p.lockHolder, c)) then
      Err(CompressionBusy)
    else if p.parent !in db.sessions then Err(ParentNotFound)
    else if db.sessions[p.parent].end.Some? && !AutomaticEnd(db.sessions[p.parent].end.value) then Err(ParentEnded)
    else if p.handoff == [] then Err(EmptyHandoff)
    else if p.child in db.sessions then Err(DuplicateKey)
    else
      var all := ChildMsgs(db.rows, p);
      var child := ChildRow(p, db.nextBorn).(messageCount := |all|, toolCallCount := ToolCalls(all));
      var parent := db.sessions[p.parent].(end := Some("compression"));
      Ok(db.(locks := locks,
             rows := db.rows + NewRows(p.child, db.nextId, all),
             nextId := db.nextId + |all|,
             sessions := db.sessions[p.child := child][p.parent := parent],
             nextBorn := db.nextBorn + 1))
  }

  /** A child that continues `sid`, whatever its own state. */
  predicate Continues(s: Session, sid: SessionId) {
    s.parent == Some(sid) && s.branchedFrom != Some(sid) && s.delegateFrom != Some(sid) && s.source != "tool"
  }

  predicate Reopenable(db: Db, sid: SessionId, c: Clock) {
    && sid != "" && Closed(db, sid)
    && (forall x :: x in db.sessions ==> !Continues(db.sessions[x], sid))
    && (sid in db.locks ==> db.locks[sid].expiresAt < c.now)
  }

  function Reopen(db: Db, sid: SessionId, c: Clock): Db {
    if !Reopenable(db, sid, c) then db
    else db.(locks := db.locks - {sid}, sessions := db.sessions[sid := db.sessions[sid].(end := None)])
  }

  // ---------------------------------------------------------------- Leases

  /** Delete a stale row, insert ours unless a row is left. */
  function Claim(t: Leases, key: SessionId, holder: string, expiresAt: real, stale: bool): Leases {
    if key in t && !stale then t else t[key := Lease(holder, expiresAt)]
  }

  predicate Owns(t: Leases, key: SessionId, holder: string) {
    key in t && t[key].holder == holder
  }

  function RefreshRow(t: Leases, key: SessionId, holder: string, expiresAt: real): Leases {
    if Owns(t, key, holder) then t[key := Lease(holder, expiresAt)] else t
  }

  function ReleaseRow(t: Leases, key: SessionId, holder: string): Leases {
    if Owns(t, key, holder) then t - {key} else t
  }

  /** `c` is sampled before the transaction, so it may lag the commit. */
  function AcquireLock(db: Db, sid: SessionId, holder: string, ttl: real, c: Clock): Db {
    if sid == "" then db
    else
      var stale := sid in db.locks && (db.locks[sid].expiresAt < c.now || db.locks[sid].holder in c.dead);
      db.(locks := Claim(db.locks, sid, holder, c.now + ttl, stale))
  }

  function RefreshLock(db: Db, sid: SessionId, holder: string, ttl: real, c: Clock): Db {
    if sid == "" || holder == "" then db else db.(locks := RefreshRow(db.locks, sid, holder, c.now + ttl))
  }

  function ReleaseLock(db: Db, sid: SessionId, holder: string): Db {
    if sid == "" then db else db.(locks := ReleaseRow(db.locks, sid, holder))
  }

  function AcquireTurn(db: Db, sid: SessionId, holder: string, ttl: real, c: Clock): Db {
    if sid == "" || holder == "" then db
    else
      var k := LeaseKey(db.sessions, sid);
      var stale := k in db.turns && Stale(db.turns[k], c);
      db.(turns := Claim(db.turns, k, holder, c.now + MaxReal(0.1, ttl), stale))
  }

  function RefreshTurn(db: Db, sid: SessionId, holder: string, ttl: real, c: Clock): Db {
    if sid == "" || holder == "" then db
    else db.(turns := RefreshRow(db.turns, LeaseKey(db.sessions, sid), holder, c.now + MaxReal(0.1, ttl)))
  }

  function ReleaseTurn(db: Db, sid: SessionId, holder: string): Db {
    if sid == "" || holder == "" then db
    else db.(turns := ReleaseRow(db.turns, LeaseKey(db.sessions, sid), holder))
  }

  // ---------------------------------------------------------------- Sessions and maintenance

  function CreateSession(db: Db, sid: SessionId, s: Session): Result<Db> {
    if sid in db.sessions then Ok(db)
    else if s.parent.Some? && s.parent.value !in db.sessions then Err(ForeignKey)
    else Ok(db.(sessions := db.sessions[sid := Session(s.parent, s.source, s.branchedFrom, s.delegateFrom,
                                                       None, 0, 0, 0, db.nextBorn)],
                nextBorn := db.nextBorn + 1))
  }

  /** The first end reason wins. */
  function EndSession(db: Db, sid: SessionId, reason: string): Db {
    if sid !in db.sessions || db.sessions[sid].end.Some? then db
    else db.(sessions := db.sessions[sid := db.sessions[sid].(end := Some(reason))])
  }

  predicate LockBlocks(db: Db, sid: SessionId, c: Clock) {
    sid in db.locks && !Stale(db.locks[sid], c)
  }

  predicate TurnBlocks(db: Db, sid: SessionId, c: Clock) {
    var k := LeaseKey(db.sessions, sid);
    k in db.turns && !Stale(db.turns[k], c)
  }

  predicate Blocked(db: Db, sid: SessionId, c: Clock) {
    LockBlocks(db, sid, c) || TurnBlocks(db, sid, c)
  }

  /** Checking the guards of every candidate reclaims stale locks, and stale leases that no live lock
      hides from the check. */
  function ReclaimGuards(db: Db, candidates: set<SessionId>, c: Clock): Db {
    db.(locks := db.locks - (set s | s in candidates && s in db.locks && Stale(db.locks[s], c)),
        turns := db.turns - (set s | s in candidates && !LockBlocks(db, s, c)
                                     && LeaseKey(db.sessions, s) in db.turns && !TurnBlocks(db, s, c)
                               :: LeaseKey(db.sessions, s)))
  }

  function InSessions(sids: set<SessionId>): Row -> bool {
    (r: Row) => r.session in sids
  }

  function Orphaned(s: Session, gone: set<SessionId>): Session {
    if s.parent.Some? && s.parent.value in gone then s.(parent := None) else s
  }

  function DeleteSessions(db: Db, gone: set<SessionId>): Db {
    db.(rows := Select(db.rows, Unless(InSessions(gone))),
        sessions := map s | s in db.sessions && s !in gone :: Orphaned(db.sessions[s], gone))
  }

  function Ended(db: Db, matched: set<SessionId>): set<SessionId> {
    set s | s in matched && s in db.sessions && db.sessions[s].end.Some?
  }

  /** `matched` is what the age window and the filters select; only ended sessions are candidates. */
  function Prune(db: Db, matched: set<SessionId>, guarded: bool, c: Clock): Db {
    var candidates := Ended(db, matched);
    if guarded then
      DeleteSessions(ReclaimGuards(db, candidates, c), set s | s in candidates && !Blocked(db, s, c))
    else DeleteSessions(db, candidates)
  }

  function Unended(db: Db, matched: set<SessionId>): set<SessionId> {
    set s | s in matched && s in db.sessions && db.sessions[s].end.None?
  }

  function Sweep(db: Db, matched: set<SessionId>, c: Clock): Db {
    var candidates := Unended(db, matched);
    var victims := set s | s in candidates && !Blocked(db, s, c);
    var d := ReclaimGuards(db, candidates, c);
    d.(sessions := map s | s in d.sessions ::
         if s in victims then d.sessions[s].(end := Some("startup_orphan_reap")) else d.sessions[s])
  }

  // ---------------------------------------------------------------- Runs

  datatype Step =
    | StepCreate(sid: SessionId, session: Session)
    | StepEnd(sid: SessionId, reason: string)
    | StepAppend(sid: SessionId, msgs: seq<Msg>, turnHolder: string, ttl: real, clock: Clock)
    | StepReplace(sid: SessionId, msgs: seq<Msg>, mode: ReplaceMode, guarded: bool, clock: Clock)
    | StepClear(sid: SessionId)
    | StepRewind(sid: SessionId, rewind: RewindArgs, clock: Clock)
    | StepCompact(sid: SessionId, msgs: seq<Msg>, watermark: Option<int>, lockHolder: Option<string>,
                  tailCount: int, clock: Clock)
    | StepPublish(publication: Publication, clock: Clock)
    | StepReopen(sid: SessionId, clock: Clock)
    | StepAcquireLock(sid: SessionId, holder: string, ttl: real, clock: Clock)
    | StepRefreshLock(sid: SessionId, holder: string, ttl: real, clock: Clock)
    | StepReleaseLock(sid: SessionId, holder: string)
    | StepAcquireTurn(sid: SessionId, holder: string, ttl: real, clock: Clock)
    | StepRefreshTurn(sid: SessionId, holder: string, ttl: real, clock: Clock)
    | StepReleaseTurn(sid: SessionId, holder: string)
    | StepPrune(matched: set<SessionId>, guarded: bool, clock: Clock)
    | StepSweep(matched: set<SessionId>, clock: Clock)

  function Try(db: Db, step: Step): Result<Db> {
    match step
    case StepCreate(sid, s) => CreateSession(db, sid, s)
    case StepEnd(sid, reason) => Ok(EndSession(db, sid, reason))
    case StepAppend(sid, msgs, h, ttl, c) => Append(db, sid, msgs, h, ttl, c)
    case StepReplace(sid, msgs, mode, guarded, c) => Replace(db, sid, msgs, mode, guarded, c)
    case StepClear(sid) => Ok(Clear(db, sid))
    case StepRewind(sid, a, c) => Rewind(db, sid, a, c)
    case StepCompact(sid, msgs, w, h, n, c) => Compact(db, sid, msgs, w, h, n, c)
    case StepPublish(p, c) => Publish(db, p, c)
    case StepReopen(sid, c) => Ok(Reopen(db, sid, c))
    case StepAcquireLock(sid, h, ttl, c) => Ok(AcquireLock(db, sid, h, ttl, c))
    case StepRefreshLock(sid, h, ttl, c) => Ok(RefreshLock(db, sid, h, ttl, c))
    case StepReleaseLock(sid, h) => Ok(ReleaseLock(db, sid, h))
    case StepAcquireTurn(sid, h, ttl, c) => Ok(AcquireTurn(db, sid, h, ttl, c))
    case StepRefreshTurn(sid, h, ttl, c) => Ok(RefreshTurn(db, sid, h, ttl, c))
    case StepReleaseTurn(sid, h) => Ok(ReleaseTurn(db, sid, h))
    case StepPrune(m, guarded, c) => Ok(Prune(db, m, guarded, c))
    case StepSweep(m, c) => Ok(Sweep(db, m, c))
  }

  /** A refused transaction rolls back. */
  function Apply(db: Db, step: Step): Db {
    var r := Try(db, step);
    if r.Ok? then r.value else db
  }

  function Run(db: Db, steps: seq<Step>): Db {
    if steps == [] then db else Apply(Run(db, steps[..|steps| - 1]), steps[|steps| - 1])
  }
}
