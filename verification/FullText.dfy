/** The external-content full-text indexes over `messages`, kept up by row triggers that are gated on the
    window a deferred rebuild has not reached yet.  The base, trigram and CJK indexes differ in which rows
    they cover and what they store; no trigger of one reads another, so each is followed on its own, over
    the rows they share and its own pair of rebuild markers. */
module FullText {
  import opened Lineage

  datatype Kind = Base | Trigram | Cjk

  /** The columns of a message the triggers read.  The tokenizer treats NULL as the empty string. */
  datatype Rec = Rec(session: SessionId, role: string, content: string, toolName: string, toolCalls: string)

  /** What an index stores for a row. */
  datatype Doc = Doc(content: string, toolName: string, toolCalls: string)

  /** `..._rebuild_high_water` and `..._rebuild_progress`. */
  datatype Gate = Gate(high: Option<int>, progress: Option<int>)

  /** One index beside the rows.  `sessions` says of each session row whether the trigram index takes its
      messages; `toolHigh` is the id above which tool output is indexed by its prefix only; `live` says
      whether the triggers are installed. */
  datatype Store = Store(
    rows: map<nat, Rec>,
    nextId: nat,
    sessions: map<SessionId, bool>,
    toolHigh: Option<int>,
    gate: Gate,
    docs: map<nat, Doc>,
    live: bool,
    corrupt: bool)

  const PREFIX_CHARS := 8192
  const CHUNK_ROWS := 500
  const SWEEP_SPAN := 1000
  const NO_GATE := Gate(None, None)

  function Coalesce(mark: Option<int>): int {
    if mark.Some? then mark.value else -1
  }

  /** Rows at or below the progress mark, or above the high water, are indexed. */
  predicate Open(g: Gate, id: nat) {
    id > Coalesce(g.high) || id <= Coalesce(g.progress)
  }

  predicate Covered(k: Kind, sessions: map<SessionId, bool>, r: Rec) {
    match k
    case Base => true
    case Trigram => r.role != "tool" && r.session in sessions && sessions[r.session]
    case Cjk => r.role != "tool"
  }

  function Prefix(s: string): string {
    if |s| <= PREFIX_CHARS then s else s[..PREFIX_CHARS]
  }

  /** The whole row, as a rebuild or a backfill reads it. */
  function Whole(k: Kind, r: Rec): Doc {
    Doc(r.content, r.toolName, if k == Trigram then "" else r.toolCalls)
  }

  /** The row as the triggers index it. */
  function Projection(k: Kind, toolHigh: Option<int>, id: nat, r: Rec): Doc {
    if k == Base && r.role == "tool" && id > Coalesce(toolHigh) then Whole(k, r).(content := Prefix(r.content))
    else Whole(k, r)
  }

  predicate Listed(k: Kind, st: Store, id: nat) {
    id in st.rows && Open(st.gate, id) && Covered(k, st.sessions, st.rows[id])
  }

  /** What the index should hold, as a function of the rows. */
  function Expected(k: Kind, st: Store): map<nat, Doc> {
    map id | id in st.rows && Listed(k, st, id) :: Projection(k, st.toolHigh, id, st.rows[id])
  }

  /** The index is right about one id. */
  predicate Right(k: Kind, st: Store, id: nat) {
    if Listed(k, st, id) then id in st.docs && st.docs[id] == Projection(k, st.toolHigh, id, st.rows[id])
    else id !in st.docs
  }

  ghost predicate Exact(k: Kind, st: Store) {
    !st.corrupt && forall id: nat :: Right(k, st, id)
  }

  lemma ExactIsExpected(k: Kind, st: Store)
    ensures Exact(k, st) <==> !st.corrupt && st.docs == Expected(k, st)
  {
    if !st.corrupt && st.docs == Expected(k, st) {
      forall id: nat ensures Right(k, st, id) {
        assert id in st.docs <==> id in Expected(k, st);
      }
    }
    if Exact(k, st) {
      forall id: nat ensures id in st.docs <==> id in Expected(k, st) {
        assert Right(k, st, id);
      }
      forall id: nat | id in st.docs ensures st.docs[id] == Expected(k, st)[id] {
        assert Right(k, st, id);
      }
    }
  }

  // ---------------------------------------------------------------- FTS5 commands

  /** The 'delete' command of an external-content table corrupts the index unless it names an indexed
      row with the values it was indexed under. */
  function FtsDelete(st: Store, id: nat, d: Doc): (t: Store)
    ensures t == st.(docs := t.docs, corrupt := t.corrupt)
  {
    if id in st.docs && st.docs[id] == d then st.(docs := st.docs - {id}) else st.(corrupt := true)
  }

  /** So does inserting a row that is already indexed. */
  function FtsInsert(st: Store, id: nat, d: Doc): (t: Store)
    ensures t == st.(docs := t.docs, corrupt := t.corrupt)
  {
    if id in st.docs then st.(corrupt := true) else st.(docs := st.docs[id := d])
  }

  /** INSERT ... SELECT. */
  function FtsInsertAll(st: Store, more: map<nat, Doc>): (t: Store)
    ensures t == st.(docs := t.docs, corrupt := t.corrupt)
  {
    if more.Keys !! st.docs.Keys then st.(docs := st.docs + more) else st.(corrupt := true)
  }

  /** The 'rebuild' command: start over from every row of the content table or view. */
  function FtsRebuild(k: Kind, st: Store): Store {
    st.(docs := map id | id in st.rows && Covered(k, st.sessions, st.rows[id]) :: Whole(k, st.rows[id]),
        corrupt := false)
  }

  // ---------------------------------------------------------------- Row triggers

  function InsertRow(k: Kind, st: Store, r: Rec): Store {
    if r.session !in st.sessions then st
    else
      var id := st.nextId;
      var after := st.(rows := st.rows[id := r], nextId := id + 1);
      if st.live && Covered(k, st.sessions, r) && Open(st.gate, id) then
        FtsInsert(after, id, Projection(k, st.toolHigh, id, r))
      else after
  }

  function DeleteRow(k: Kind, st: Store, id: nat): Store {
    if id !in st.rows then st
    else
      var after := st.(rows := st.rows - {id});
      if st.live && Covered(k, st.sessions, st.rows[id]) && Open(st.gate, id) then
        FtsDelete(after, id, Projection(k, st.toolHigh, id, st.rows[id]))
      else after
  }

  predicate Changed(k: Kind, a: Rec, b: Rec) {
    || a.content != b.content || a.toolName != b.toolName || a.role != b.role
    || (k != Trigram && a.toolCalls != b.toolCalls)
  }

  /** The two commands of an update trigger: out with what the old row stored, in with the new. */
  function MoveDoc(k: Kind, st: Store, id: nat, was: Rec, r: Rec): (t: Store)
    ensures t == st.(docs := t.docs, corrupt := t.corrupt)
  {
    var out := if Covered(k, st.sessions, was) then FtsDelete(st, id, Projection(k, st.toolHigh, id, was)) else st;
    if Covered(k, st.sessions, r) then FtsInsert(out, id, Projection(k, st.toolHigh, id, r)) else out
  }

  /** An update that may change the role as well as the text; the session of a row never changes. */
  function UpdateRow(k: Kind, st: Store, id: nat, r: Rec): Store {
    if id !in st.rows || r.session != st.rows[id].session then st
    else
      var after := st.(rows := st.rows[id := r]);
      if st.live && Changed(k, st.rows[id], r) && Open(st.gate, id) then MoveDoc(k, after, id, st.rows[id], r)
      else after
  }

  // ---------------------------------------------------------------- Rebuild life cycle

  function Least(a: int, b: int): int {
    if a < b then a else b
  }

  function Window(k: Kind, st: Store, lo: int, hi: int): set<nat> {
    set id | id in st.rows && lo < id <= hi && Covered(k, st.sessions, st.rows[id])
  }

  /** Index the next chunk of the window and move the progress mark over it. */
  function Chunk(k: Kind, st: Store): Store {
    if st.gate.high.None? || st.gate.progress.None? || st.gate.progress.value >= st.gate.high.value then st
    else
      var upper := Least(st.gate.progress.value + CHUNK_ROWS, st.gate.high.value);
      var more := map id | id in Window(k, st, st.gate.progress.value, upper) :: Whole(k, st.rows[id]);
      FtsInsertAll(st, more).(gate := st.gate.(progress := Some(upper)))
  }

  /** Index whatever is missing around the high water, tool output past it by its prefix, then drop both
      marks. */
  function Finish(k: Kind, st: Store): Store {
    if st.gate.high.None? then st.(gate := NO_GATE)
    else
      var hw := st.gate.high.value;
      var missing := Window(k, st, hw - SWEEP_SPAN, hw + SWEEP_SPAN) - st.docs.Keys;
      var more := map id | id in missing :: Projection(k, Some(hw), id, st.rows[id]);
      FtsInsertAll(st, more).(gate := NO_GATE)
  }

  /** MAX(id), 0 when there is none. */
  ghost function Greatest(ids: set<nat>): (m: nat)
    ensures forall id :: id in ids ==> id <= m
    ensures m == 0 || m in ids
  {
    if ids == {} then 0
    else
      var x :| x in ids;
      var rest := Greatest(ids - {x});
      assert forall id :: id in ids ==> id == x || id in ids - {x};
      if rest < x then x else rest
  }

  /** A fresh, empty index over the present rows: all of them are in the window. */
  ghost function Seed(st: Store): Store {
    var top := Greatest(st.rows.Keys);
    st.(docs := map[], gate := Gate(Some(top), Some(0)), toolHigh := Some(top), live := true, corrupt := false)
  }

  /** Corruption was seen: the triggers are dropped so that writes can go on. */
  function Detach(st: Store): Store {
    st.(live := false)
  }

  /** Recovery at a later open: drop, recreate, rebuild, drop the marks, reinstall the triggers.  The tool
      high water is left where it was. */
  function Recover(k: Kind, st: Store): Store {
    FtsRebuild(k, st).(gate := NO_GATE, live := true)
  }

  /** In-place repair: move the tool high water over all rows and rebuild.  The marks stay. */
  ghost function RebuildInPlace(k: Kind, st: Store): Store {
    FtsRebuild(k, st.(toolHigh := Some(Greatest(st.rows.Keys))))
  }

  function AddSession(st: Store, sid: SessionId, taken: bool): Store {
    if sid in st.sessions then st else st.(sessions := st.sessions[sid := taken])
  }

  function DropSession(st: Store, sid: SessionId): Store {
    st.(sessions := st.sessions - {sid})
  }

  // ---------------------------------------------------------------- Runs

  datatype Step =
    | Insert(row: Rec)
    | Delete(id: nat)
    | Update(id: nat, row: Rec)
    | BackfillChunk
    | FinishRebuild
    | SeedMarkers
    | FailOpen
    | RecoverStale
    | RebuildNow
    | NewSession(sid: SessionId, taken: bool)
    | DropSessionRow(sid: SessionId)

  ghost function Apply(k: Kind, st: Store, step: Step): Store {
    match step
    case Insert(r) => InsertRow(k, st, r)
    case Delete(id) => DeleteRow(k, st, id)
    case Update(id, r) => UpdateRow(k, st, id, r)
    case BackfillChunk => Chunk(k, st)
    case FinishRebuild => Finish(k, st)
    case SeedMarkers => Seed(st)
    case FailOpen => Detach(st)
    case RecoverStale => Recover(k, st)
    case RebuildNow => RebuildInPlace(k, st)
    case NewSession(sid, taken) => AddSession(st, sid, taken)
    case DropSessionRow(sid) => DropSession(st, sid)
  }

  ghost function Run(k: Kind, st: Store, steps: seq<Step>): Store {
    if steps == [] then st else Apply(k, Run(k, st, steps[..|steps| - 1]), steps[|steps| - 1])
  }

  /** A database born with its index. */
  const EMPTY := Store(map[], 1, map[], Some(0), NO_GATE, map[], true, false)

  /** Ids are handed out upwards, sessions outlive their rows, and no row the window may still hold is
      above the tool high water. */
  ghost predicate Sound(k: Kind, st: Store) {
    && (forall id :: id in st.rows ==> 1 <= id < st.nextId && st.rows[id].session in st.sessions)
    && st.nextId >= 1
    && Coalesce(st.gate.high) < st.nextId
    && (k == Base ==> forall id :: id in st.rows && id <= Coalesce(st.gate.high) ==> id <= Coalesce(st.toolHigh))
  }

  ghost predicate Kept(k: Kind, st: Store) {
    Sound(k, st) && (st.live ==> Exact(k, st))
  }

  // ---------------------------------------------------------------- When a step keeps the index exact

  /** A tool row whose rebuilt entry is not what the triggers would have stored. */
  predicate Overlong(k: Kind, st: Store, id: nat) {
    k == Base && id in st.rows && st.rows[id].role == "tool" && id > Coalesce(st.toolHigh)
    && |st.rows[id].content| > PREFIX_CHARS
  }

  /** A row the index covers and the window still hides. */
  predicate Hidden(k: Kind, st: Store, id: nat) {
    id in st.rows && !Open(st.gate, id) && Covered(k, st.sessions, st.rows[id])
  }

  /** What a caller can check before the step.  Everything but these four steps is always fine. */
  ghost predicate Fine(k: Kind, st: Store, step: Step) {
    match step
    case FinishRebuild =>
      forall id: nat :: Hidden(k, st, id) ==> id > Coalesce(st.gate.high) - 1000
    case RecoverStale => forall id: nat :: !Overlong(k, st, id)
    case RebuildNow => forall id: nat :: !Hidden(k, st, id)
    case DropSessionRow(sid) => forall id :: id in st.rows ==> st.rows[id].session != sid
    case _ => true
  }

  ghost predicate AllFine(k: Kind, st: Store, steps: seq<Step>) {
    steps == [] ||
    (AllFine(k, st, steps[..|steps| - 1])
     && Fine(k, Run(k, st, steps[..|steps| - 1]), steps[|steps| - 1]))
  }

  lemma RowStepSound(k: Kind, st: Store, step: Step)
    requires Sound(k, st) && (step.Insert? || step.Delete? || step.Update?)
    ensures Sound(k, Apply(k, st, step))
  {
    match step
    case Insert(r) => InsertSound(k, st, r);
    case Delete(id) => DeleteRemoves(k, st, id);
      var t := DeleteRow(k, st, id);
      assert t.gate == st.gate && t.toolHigh == st.toolHigh && t.nextId == st.nextId;
    case Update(id, r) => UpdateSound(k, st, id, r);
  }

  lemma InsertSound(k: Kind, st: Store, r: Rec)
    requires Sound(k, st)
    ensures Sound(k, InsertRow(k, st, r))
  {
    var t := InsertRow(k, st, r);
    assert t.gate == st.gate && t.toolHigh == st.toolHigh && t.sessions == st.sessions;
    if r.session in st.sessions {
      assert t.nextId == st.nextId + 1 && t.rows == st.rows[st.nextId := r];
    }
  }

  lemma UpdateSound(k: Kind, st: Store, id: nat, r: Rec)
    requires Sound(k, st)
    ensures Sound(k, UpdateRow(k, st, id, r))
  {
    var t := UpdateRow(k, st, id, r);
    assert t.gate == st.gate && t.toolHigh == st.toolHigh && t.sessions == st.sessions && t.nextId == st.nextId;
    if id in st.rows && r.session == st.rows[id].session {
      assert t.rows == st.rows[id := r];
    }
  }

  lemma DeleteRemoves(k: Kind, st: Store, id: nat)
    ensures var t := DeleteRow(k, st, id);
      t.rows == st.rows - {id} && t.sessions == st.sessions && t.live == st.live
  {
  }

  lemma OtherStepSound(k: Kind, st: Store, step: Step)
    requires Sound(k, st) && !step.Insert? && !step.Delete? && !step.Update?
    requires step.DropSessionRow? ==> Fine(k, st, step)
    ensures Sound(k, Apply(k, st, step))
  {
    match step
    case BackfillChunk => assert Chunk(k, st).gate.high == st.gate.high;
    case FinishRebuild => assert Finish(k, st).gate == NO_GATE;
    case SeedMarkers =>
    case FailOpen =>
    case RecoverStale => assert Recover(k, st).gate == NO_GATE;
    case RebuildNow =>
    case NewSession(sid, taken) =>
    case DropSessionRow(sid) =>
  }

  /** No step but dropping a session row whose messages remain breaks the bookkeeping. */
  lemma {:induction false} StepSound(k: Kind, st: Store, step: Step)
    requires Sound(k, st) && (step.DropSessionRow? ==> Fine(k, st, step))
    ensures Sound(k, Apply(k, st, step))
  {
    if step.Insert? || step.Delete? || step.Update? {
      RowStepSound(k, st, step);
    } else {
      OtherStepSound(k, st, step);
    }
  }

  lemma InsertExact(k: Kind, st: Store, r: Rec)
    requires Sound(k, st) && Exact(k, st) && st.live
    ensures Exact(k, InsertRow(k, st, r))
  {
    var t := InsertRow(k, st, r);
    assert Right(k, st, st.nextId);
    forall id: nat ensures Right(k, t, id) {
      assert Right(k, st, id);
    }
  }

  lemma DeleteExact(k: Kind, st: Store, id: nat)
    requires Exact(k, st) && st.live
    ensures Exact(k, DeleteRow(k, st, id))
  {
    var t := DeleteRow(k, st, id);
    assert Right(k, st, id);
    forall x: nat ensures Right(k, t, x) {
      assert Right(k, st, x);
    }
  }

  lemma UpdateExact(k: Kind, st: Store, id: nat, r: Rec)
    requires Exact(k, st) && st.live
    ensures Exact(k, UpdateRow(k, st, id, r))
  {
    var t := UpdateRow(k, st, id, r);
    assert Right(k, st, id);
    forall x: nat ensures Right(k, t, x) {
      assert Right(k, st, x);
    }
  }

  /** Backfilled rows are stored whole, which is their projection: none is above the tool high water. */
  lemma ChunkExact(k: Kind, st: Store)
    requires Sound(k, st) && Exact(k, st)
    ensures Exact(k, Chunk(k, st))
  {
    var t := Chunk(k, st);
    if st.gate.high.Some? && st.gate.progress.Some? && st.gate.progress.value < st.gate.high.value {
      var upper := Least(st.gate.progress.value + CHUNK_ROWS, st.gate.high.value);
      var ids := Window(k, st, st.gate.progress.value, upper);
      forall id | id in ids ensures id !in st.docs {
        assert Right(k, st, id);
      }
      forall id: nat ensures Right(k, t, id) {
        assert Right(k, st, id);
      }
    }
  }

  lemma SeedExact(k: Kind, st: Store)
    requires Sound(k, st)
    ensures Exact(k, Seed(st))
  {
    var t := Seed(st);
    forall id: nat ensures Right(k, t, id) {
    }
  }

  lemma FinishAt(k: Kind, st: Store, id: nat)
    requires Sound(k, st) && Right(k, st, id) && !st.corrupt
    ensures Right(k, Finish(k, st), id) <==> (Hidden(k, st, id) ==> id > Coalesce(st.gate.high) - 1000)
  {
    var t := Finish(k, st);
    if st.gate.high.Some? {
      var hw := st.gate.high.value;
      var ids := Window(k, st, hw - SWEEP_SPAN, hw + SWEEP_SPAN) - st.docs.Keys;
      assert id in t.docs <==> id in st.docs || id in ids;
    }
  }

  /** Finishing keeps the index exact exactly when no covered row is left in the part of the window the
      sweep does not reach. */
  lemma FinishExactIff(k: Kind, st: Store)
    requires Sound(k, st) && Exact(k, st)
    ensures Exact(k, Finish(k, st)) <==> Fine(k, st, FinishRebuild)
  {
    var t := Finish(k, st);
    assert !t.corrupt;
    forall id: nat ensures Right(k, t, id) <==> (Hidden(k, st, id) ==> id > Coalesce(st.gate.high) - 1000) {
      FinishAt(k, st, id);
    }
  }

  /** Recovering a stale index makes it exact exactly when no tool row above the tool high water is longer
      than the indexed prefix: the rebuild indexes the whole of such a row, the triggers its prefix. */
  lemma RecoverExactIff(k: Kind, st: Store)
    ensures Exact(k, Recover(k, st)) <==> Fine(k, st, RecoverStale)
  {
    var t := Recover(k, st);
    forall id: nat ensures Right(k, t, id) <==> !Overlong(k, st, id) {
      if Overlong(k, st, id) {
        assert Projection(k, t.toolHigh, id, t.rows[id]).content == Prefix(st.rows[id].content);
      }
    }
  }

  /** Rebuilding in place makes the index exact exactly when the rebuild window hides no covered row. */
  lemma RebuildInPlaceExactIff(k: Kind, st: Store)
    ensures Exact(k, RebuildInPlace(k, st)) <==> Fine(k, st, RebuildNow)
  {
    var t := RebuildInPlace(k, st);
    forall id: nat ensures Right(k, t, id) <==> !Hidden(k, st, id) {
    }
  }

  lemma SessionsExact(k: Kind, st: Store, t: Store)
    requires Sound(k, st) && Exact(k, st)
    requires t == st.(sessions := t.sessions)
    requires forall id :: id in st.rows ==> Covered(k, t.sessions, st.rows[id]) == Covered(k, st.sessions, st.rows[id])
    ensures Exact(k, t)
  {
    forall id: nat ensures Right(k, t, id) {
      assert Right(k, st, id);
    }
  }

  lemma StepExact(k: Kind, st: Store, step: Step)
    requires Kept(k, st) && Fine(k, st, step)
    ensures var t := Apply(k, st, step); t.live ==> Exact(k, t)
  {
    match step
    case RecoverStale => RecoverExactIff(k, st);
    case RebuildNow => RebuildInPlaceExactIff(k, st);
    case SeedMarkers => SeedExact(k, st);
    case FailOpen =>
    case _ =>
      if st.live { TrackedStepExact(k, st, step); }
  }

  lemma TrackedStepExact(k: Kind, st: Store, step: Step)
    requires Sound(k, st) && Exact(k, st) && st.live && Fine(k, st, step)
    requires !step.RecoverStale? && !step.RebuildNow? && !step.SeedMarkers? && !step.FailOpen?
    ensures Exact(k, Apply(k, st, step))
  {
    match step
    case Insert(r) => InsertExact(k, st, r);
    case Delete(id) => DeleteExact(k, st, id);
    case Update(id, r) => UpdateExact(k, st, id, r);
    case BackfillChunk => ChunkExact(k, st);
    case FinishRebuild => FinishExactIff(k, st);
    case NewSession(sid, taken) => SessionsExact(k, st, AddSession(st, sid, taken));
    case DropSessionRow(sid) => SessionsExact(k, st, DropSession(st, sid));
  }

  lemma StepKeeps(k: Kind, st: Store, step: Step)
    requires Kept(k, st) && Fine(k, st, step)
    ensures Kept(k, Apply(k, st, step))
  {
    StepSound(k, st, step);
    StepExact(k, st, step);
  }

  /** In every reachable state with the triggers installed the index is exactly the projection of the
      rows the gate lets through, and no command has corrupted it. */
  lemma {:induction false} ReachableIsExact(k: Kind, steps: seq<Step>)
    requires AllFine(k, EMPTY, steps)
    ensures Kept(k, Run(k, EMPTY, steps))
  {
    if steps == [] {
    } else {
      ReachableIsExact(k, steps[..|steps| - 1]);
      StepKeeps(k, Run(k, EMPTY, steps[..|steps| - 1]), steps[|steps| - 1]);
    }
  }

  /** Writes to the rows and the sessions, and a detach. */
  predicate IsWrite(step: Step) {
    || step.Insert? || step.Delete? || step.Update? || step.NewSession? || step.DropSessionRow? || step.FailOpen?
  }

  /** As long as it is detached no write reaches the index. */
  lemma {:induction false} DetachedIsStill(k: Kind, st: Store, steps: seq<Step>)
    requires !st.live && forall i :: 0 <= i < |steps| ==> IsWrite(steps[i])
    ensures var t := Run(k, st, steps);
      t.docs == st.docs && t.corrupt == st.corrupt && t.gate == st.gate && t.toolHigh == st.toolHigh && !t.live
  {
    if steps != [] {
      DetachedIsStill(k, st, steps[..|steps| - 1]);
    }
  }

  // ---------------------------------------------------------------- Which rows, and which columns

  /** The rows an index is for: all of them, or those that are not tool output, for the trigram index in a
      session it takes. */
  predicate MeantFor(k: Kind, sessions: map<SessionId, bool>, r: Rec) {
    && (k != Base ==> r.role != "tool")
    && (k == Trigram ==> r.session in sessions && sessions[r.session])
  }

  /** Not in the window a rebuild has yet to reach. */
  predicate PastWindow(g: Gate, id: nat) {
    || g.high.None? || id > g.high.value
    || (g.progress.Some? && id <= g.progress.value)
  }

  /** The columns as they are stored: tool output above the tool high water by its first 8192 characters,
      everything else whole; no tool calls in the trigram index. */
  predicate HoldsColumns(k: Kind, toolHigh: Option<int>, id: nat, r: Rec, d: Doc) {
    && d.toolName == r.toolName
    && d.toolCalls == (if k == Trigram then "" else r.toolCalls)
    && d.content == if && k == Base && r.role == "tool" && |r.content| > 8192
                       && (toolHigh.None? || id > toolHigh.value)
                    then r.content[..8192] else r.content
  }

  /** In every state with the triggers installed: an entry is of a stored row the index is meant for and that
      the rebuild, if one is pending, has reached, and holds its columns; and every such row has one. */
  lemma {:induction false} EntriesOnColumns(k: Kind, st: Store, id: nat)
    requires Kept(k, st) && st.live
    ensures id in st.docs
      <==> id in st.rows && MeantFor(k, st.sessions, st.rows[id]) && PastWindow(st.gate, id)
    ensures id in st.docs ==> HoldsColumns(k, st.toolHigh, id, st.rows[id], st.docs[id])
  {
    assert Right(k, st, id);
  }

  /** One chunk of the backfill: the progress mark moves by at most 500 ids and never past the high water, and
      exactly the rows the index is meant for in between are added, whole. */
  lemma {:induction false} ChunkOnColumns(k: Kind, st: Store, id: nat)
    requires Kept(k, st) && st.live && st.gate.high.Some? && st.gate.progress.Some?
    ensures var t, lo, hi := Chunk(k, st), st.gate.progress.value, st.gate.high.value;
      && t.gate.high == st.gate.high
      && t.gate.progress == Some(if lo >= hi then lo else if lo + 500 <= hi then lo + 500 else hi)
      && (id in t.docs <==>
            id in st.docs
            || (id in st.rows && lo < id <= t.gate.progress.value && MeantFor(k, st.sessions, st.rows[id])))
      && (id in t.docs ==> id in st.rows && HoldsColumns(k, st.toolHigh, id, st.rows[id], t.docs[id]))
  {
    ChunkExact(k, st);
    StepSound(k, st, BackfillChunk);
    EntriesOnColumns(k, st, id);
    EntriesOnColumns(k, Chunk(k, st), id);
  }

  /** The state of some run all of whose steps meet their conditions. */
  ghost predicate Reached(k: Kind, st: Store) {
    exists steps :: AllFine(k, EMPTY, steps) && st == Run(k, EMPTY, steps)
  }

  lemma {:induction false} ReachNext(k: Kind, st: Store, step: Step)
    requires Reached(k, st) && Fine(k, st, step)
    ensures Reached(k, Apply(k, st, step))
  {
    var steps :| AllFine(k, EMPTY, steps) && st == Run(k, EMPTY, steps);
    var more := steps + [step];
    assert more[..|more| - 1] == steps;
    assert AllFine(k, EMPTY, more) && Run(k, EMPTY, more) == Apply(k, st, step);
  }

  lemma {:induction false} ReachEmpty(k: Kind)
    ensures Reached(k, EMPTY)
  {
    assert AllFine(k, EMPTY, []) && Run(k, EMPTY, []) == EMPTY;
  }

  lemma {:induction false} ReachedIsKept(k: Kind, st: Store)
    requires Reached(k, st)
    ensures Kept(k, st)
  {
    var steps :| AllFine(k, EMPTY, steps) && st == Run(k, EMPTY, steps);
    ReachableIsExact(k, steps);
  }

  // ---------------------------------------------------------------- What the inexact cases lead to

  /** A store of one session and `n` copies of a row. */
  function Filled(k: Kind, row: Rec, n: nat): Store {
    if n == 0 then AddSession(EMPTY, row.session, true) else InsertRow(k, Filled(k, row, n - 1), row)
  }

  lemma {:induction false} FilledRows(k: Kind, row: Rec, n: nat)
    ensures var st := Filled(k, row, n);
      && st.sessions == map[row.session := true] && st.nextId == n + 1
      && st.live && st.gate == NO_GATE && st.toolHigh == Some(0)
      && (forall id: nat :: id in st.rows <==> 1 <= id <= n)
      && forall id :: id in st.rows ==> st.rows[id] == row
  {
    if n > 0 {
      FilledRows(k, row, n - 1);
      InsertAdds(k, Filled(k, row, n - 1), row);
    }
  }

  lemma InsertAdds(k: Kind, st: Store, r: Rec)
    requires r.session in st.sessions
    ensures var t := InsertRow(k, st, r);
      t == st.(rows := st.rows[st.nextId := r], nextId := st.nextId + 1, docs := t.docs, corrupt := t.corrupt)
  {
  }

  lemma {:induction false} FilledIsReached(k: Kind, row: Rec, n: nat)
    ensures Reached(k, Filled(k, row, n)) && Reached(k, Seed(Filled(k, row, n)))
    decreases n
  {
    if n == 0 {
      ReachEmpty(k);
      ReachNext(k, EMPTY, NewSession(row.session, true));
    } else {
      FilledIsReached(k, row, n - 1);
      ReachNext(k, Filled(k, row, n - 1), Insert(row));
    }
    ReachNext(k, Filled(k, row, n), SeedMarkers);
  }

  lemma SeededHides(k: Kind, row: Rec, n: nat)
    requires row.role != "tool" && n > 0
    ensures var st := Seed(Filled(k, row, n));
      && st.gate == Gate(Some(n), Some(0)) && st.live
      && forall id: nat :: 1 <= id <= n ==> Hidden(k, st, id)
  {
    FilledRows(k, row, n);
    var was := Filled(k, row, n);
    assert n in was.rows;
    assert Greatest(was.rows.Keys) == n;
  }

  /** Deleting an over-long tool row after a recovery corrupts the index. */
  lemma DeleteAfterRecoveryCorrupts(st: Store, id: nat)
    requires Overlong(Base, st, id)
    ensures DeleteRow(Base, Recover(Base, st), id).corrupt
  {
    var t := Recover(Base, st);
    assert t.docs[id] == Whole(Base, st.rows[id]);
  }

  /** One tool result of 8193 characters, written by the triggers, is enough. */
  lemma {:induction false} RecoveryNotExact() returns (st: Store)
    ensures Reached(Base, st) && Kept(Base, st) && st.live
    ensures !Exact(Base, Recover(Base, Detach(st))) && DeleteRow(Base, Recover(Base, Detach(st)), 1).corrupt
  {
    var long := Rec("s", "tool", seq(PREFIX_CHARS + 1, i => 'x'), "", "");
    st := Filled(Base, long, 1);
    FilledIsReached(Base, long, 1);
    ReachedIsKept(Base, st);
    FilledRows(Base, long, 1);
    assert Overlong(Base, Detach(st), 1);
    RecoverExactIff(Base, Detach(st));
    DeleteAfterRecoveryCorrupts(Detach(st), 1);
  }

  /** Backfilling the window after an in-place rebuild corrupts the index when the chunk is not empty. */
  lemma BackfillAfterRebuildCorrupts(k: Kind, st: Store, id: nat)
    requires Hidden(k, st, id) && st.gate.progress.Some? && id <= st.gate.progress.value + CHUNK_ROWS
    ensures Chunk(k, RebuildInPlace(k, st)).corrupt
  {
    var t := RebuildInPlace(k, st);
    var upper := Least(st.gate.progress.value + CHUNK_ROWS, st.gate.high.value);
    assert id in Window(k, t, st.gate.progress.value, upper) && id in t.docs;
  }

  /** For each of the three indexes: one message, then a fresh deferred rebuild, and repairing in place
      before its first chunk leaves the index inexact and lets that chunk corrupt it. */
  lemma {:induction false} RepairDuringRebuildCorrupts(k: Kind) returns (st: Store)
    ensures Reached(k, st) && Kept(k, st) && st.live
    ensures !Exact(k, RebuildInPlace(k, st)) && Chunk(k, RebuildInPlace(k, st)).corrupt
  {
    var row := Rec("s", "user", "hello", "", "");
    st := Seed(Filled(k, row, 1));
    FilledIsReached(k, row, 1);
    ReachedIsKept(k, st);
    SeededHides(k, row, 1);
    assert Hidden(k, st, 1);
    RebuildInPlaceExactIff(k, st);
    BackfillAfterRebuildCorrupts(k, st, 1);
  }

  /** Finishing is asked for once the backfill has reached the high water, or when there was nothing to
      backfill: then no covered row is hidden, and it is exact. */
  lemma FinishWhenDoneExact(k: Kind, st: Store)
    requires Sound(k, st) && Exact(k, st)
    requires st.gate.high.Some? ==> st.gate.high.value <= 0 || st.gate.high.value <= Coalesce(st.gate.progress)
    ensures Exact(k, Finish(k, st))
  {
    FinishExactIff(k, st);
  }

  /** Any earlier, as after another process has seeded the marks anew, it drops the marks over rows the index
      does not hold: 1001 messages are enough. */
  lemma {:induction false} FinishTooSoonNotExact(k: Kind) returns (st: Store)
    ensures Reached(k, st) && Kept(k, st) && st.live && !Exact(k, Finish(k, st))
  {
    var row := Rec("s", "user", "hello", "", "");
    st := Seed(Filled(k, row, 1001));
    FilledIsReached(k, row, 1001);
    ReachedIsKept(k, st);
    SeededHides(k, row, 1001);
    assert Hidden(k, st, 1);
    FinishExactIff(k, st);
  }

  // ---------------------------------------------------------------- Pruning

  function Deletes(ids: seq<nat>): seq<Step> {
    seq(|ids|, i requires 0 <= i < |ids| => Delete(ids[i]))
  }

  lemma {:induction false} DeletesKeep(k: Kind, st: Store, ids: seq<nat>)
    requires Kept(k, st)
    ensures Kept(k, Run(k, st, Deletes(ids)))
  {
    if ids != [] {
      var init := ids[..|ids| - 1];
      DeletesKeep(k, st, init);
      DeletesNext(k, st, ids);
      StepKeeps(k, Run(k, st, Deletes(init)), Delete(ids[|ids| - 1]));
    }
  }

  lemma DeletesNext(k: Kind, st: Store, ids: seq<nat>)
    requires ids != []
    ensures Run(k, st, Deletes(ids)) == DeleteRow(k, Run(k, st, Deletes(ids[..|ids| - 1])), ids[|ids| - 1])
  {
    var steps := Deletes(ids);
    assert steps[..|steps| - 1] == Deletes(ids[..|ids| - 1]);
  }

  lemma {:induction false} DeletesRemove(k: Kind, st: Store, ids: seq<nat>)
    ensures var t := Run(k, st, Deletes(ids));
      forall id :: id in t.rows ==> id in st.rows && t.rows[id] == st.rows[id] && id !in ids
  {
    if ids != [] {
      var init := ids[..|ids| - 1];
      DeletesRemove(k, st, init);
      DeletesNext(k, st, ids);
      DeleteRemoves(k, Run(k, st, Deletes(init)), ids[|ids| - 1]);
      assert ids == init + [ids[|ids| - 1]];
    }
  }

  /** Deleting a session's messages and then its row keeps the index exact. */
  lemma PruneKeeps(k: Kind, st: Store, sid: SessionId, ids: seq<nat>)
    requires Kept(k, st)
    requires forall id :: id in st.rows && st.rows[id].session == sid ==> id in ids
    ensures Kept(k, DropSession(Run(k, st, Deletes(ids)), sid))
  {
    DeletesKeep(k, st, ids);
    DeletesRemove(k, st, ids);
    StepKeeps(k, Run(k, st, Deletes(ids)), DropSessionRow(sid));
  }

  /** With the session row gone first, the delete trigger's probe of it fails: an indexed message keeps
      its entry after the message is deleted. */
  lemma ReversedPruneLeavesEntry(st: Store, id: nat)
    requires Kept(Trigram, st) && st.live && Listed(Trigram, st, id)
    ensures var t := DeleteRow(Trigram, DropSession(st, st.rows[id].session), id);
      id !in t.rows && id in t.docs && !Exact(Trigram, t)
  {
    var t := DeleteRow(Trigram, DropSession(st, st.rows[id].session), id);
    assert Right(Trigram, st, id) && !Right(Trigram, t, id);
  }
}
