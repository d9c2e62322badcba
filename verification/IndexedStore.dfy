/** The transcript store and one of its full-text indexes, run together: every commit of the store reaches
    the index as the row inserts and deletes its triggers see, between maintenance steps of the index. */
module IndexedStore {
  import opened Lineage
  import opened Rows
  import T = Transcript
  import F = FullText
  import opened WellFormedness

  // ---------------------------------------------------------------- What a commit does to the rows

  /** The JSON text of a list, from the texts of its elements. */
  function JoinJson(calls: seq<string>): string {
    if calls == [] then ""
    else if |calls| == 1 then calls[0]
    else JoinJson(calls[..|calls| - 1]) + ", " + calls[|calls| - 1]
  }

  /** The elements in order, with a comma and a blank between neighbours and nowhere else. */
  lemma {:induction false} JoinJsonConcat(a: seq<string>, b: seq<string>)
    requires a != [] && b != []
    ensures JoinJson(a + b) == JoinJson(a) + ", " + JoinJson(b)
    ensures |a| == 1 ==> JoinJson(a) == a[0]
    decreases |b|
  {
    assert (a + b)[..|a + b| - 1] == a + b[..|b| - 1];
    if |b| == 1 {
      assert a + b[..|b| - 1] == a;
    } else {
      JoinJsonConcat(a, b[..|b| - 1]);
      var x, y, z := JoinJson(a), JoinJson(b[..|b| - 1]), b[|b| - 1];
      assert (x + ", " + y) + ", " + z == x + ", " + (y + ", " + z);
    }
  }

  /** An empty list is stored as NULL. */
  function Json(calls: seq<string>): string {
    if calls == [] then "" else "[" + JoinJson(calls) + "]"
  }

  /** An empty list is stored as NULL; any other is bracketed. */
  lemma JsonOfList(calls: seq<string>)
    ensures Json([]) == ""
    ensures calls != [] ==> Json(calls) == ['['] + JoinJson(calls) + [']']
  {
  }

  /** The columns the triggers read; NULL columns count as empty. */
  function AsRec(r: Row): F.Rec {
    F.Rec(r.session, r.msg.role, r.msg.content,
          if r.msg.toolName.Some? then r.msg.toolName.value else "",
          Json(r.msg.toolCalls))
  }

  /** Whether the trigram index takes the messages of a session. */
  predicate Taken(s: Session) {
    s.source != "cron" && s.source != "subagent" && s.delegateFrom.None?
  }

  predicate SameMessage(q: Row, r: Row) {
    q.id == r.id && q.session == r.session && q.msg == r.msg
  }

  /** Rows are dropped or have their flags changed, and nothing else. */
  ghost predicate Fewer(rows: seq<Row>, kept: seq<Row>) {
    forall r :: r in kept ==> exists q :: q in rows && SameMessage(q, r)
  }

  ghost predicate SameCover(a: Sessions, b: Sessions) {
    forall s :: s in a && s in b ==> Taken(a[s]) == Taken(b[s])
  }

  function Added(db: T.Db, d: T.Db): nat {
    if db.nextId <= d.nextId <= db.nextId + |d.rows| then d.nextId - db.nextId else 0
  }

  function Kept(db: T.Db, d: T.Db): seq<Row> {
    d.rows[..|d.rows| - Added(db, d)]
  }

  function News(db: T.Db, d: T.Db): seq<Row> {
    d.rows[|d.rows| - Added(db, d)..]
  }

  /** Old messages survive unaltered or go; new ones follow them under the next ids. */
  ghost predicate Shaped(db: T.Db, d: T.Db) {
    && d.nextId == db.nextId + Added(db, d)
    && Fewer(db.rows, Kept(db, d))
    && (forall i :: 0 <= i < |News(db, d)| ==> News(db, d)[i].id == db.nextId + i)
    && SameCover(db.sessions, d.sessions)
  }

  lemma FewerUpdate(rows: seq<Row>, u: Row -> Row)
    requires forall r :: r in rows ==> SameMessage(r, u(r))
    ensures Fewer(rows, Update(rows, u))
  {
    UpdateMember(rows, u);
  }

  lemma FewerSelect(rows: seq<Row>, p: Row -> bool)
    ensures Fewer(rows, Select(rows, p))
  {
    SelectMember(rows, p);
    forall r | r in Select(rows, p) ensures exists q :: q in rows && SameMessage(q, r) {
      assert SameMessage(r, r);
    }
  }

  lemma FewerSame(rows: seq<Row>)
    ensures Fewer(rows, rows)
  {
    forall r | r in rows ensures exists q :: q in rows && SameMessage(q, r) {
      assert SameMessage(r, r);
    }
  }

  lemma ShapedSame(db: T.Db, d: T.Db)
    requires d.rows == db.rows && d.nextId == db.nextId && SameCover(db.sessions, d.sessions)
    ensures Shaped(db, d)
  {
    FewerSame(db.rows);
    assert Kept(db, d) == d.rows;
  }

  lemma ShapedFewer(db: T.Db, d: T.Db)
    requires Fewer(db.rows, d.rows) && d.nextId == db.nextId && SameCover(db.sessions, d.sessions)
    ensures Shaped(db, d)
  {
    assert Kept(db, d) == d.rows;
  }

  lemma ShapedInsert(db: T.Db, d: T.Db, kept: seq<Row>, sid: SessionId, msgs: seq<Msg>)
    requires Fewer(db.rows, kept) && SameCover(db.sessions, d.sessions)
    requires d.rows == kept + NewRows(sid, db.nextId, msgs) && d.nextId == db.nextId + |msgs|
    ensures Shaped(db, d)
  {
    assert Added(db, d) == |msgs|;
    assert Kept(db, d) == kept && News(db, d) == NewRows(sid, db.nextId, msgs);
  }

  /** An INSERT of messages behind rows that were dropped or flagged. */
  lemma InsertedShaped(db: T.Db, kept: seq<Row>, sid: SessionId, msgs: seq<Msg>, d: T.Db)
    requires Fewer(db.rows, kept)
    requires var r := T.InsertMessages(db.(rows := kept), sid, msgs);
      r.Ok? && d.rows == r.value.rows && d.nextId == r.value.nextId
    requires SameCover(db.sessions, d.sessions)
    ensures Shaped(db, d)
  {
    if msgs == [] {
      ShapedFewer(db, d);
    } else {
      ShapedInsert(db, d, kept, sid, msgs);
    }
  }

  lemma AppendShaped(db: T.Db, sid: SessionId, msgs: seq<Msg>, h: string, ttl: real, c: T.Clock)
    ensures var r := T.Append(db, sid, msgs, h, ttl, c); r.Ok? ==> Shaped(db, r.value)
  {
    var r := T.Append(db, sid, msgs, h, ttl, c);
    if r.Ok? {
      if msgs == [] {
        ShapedSame(db, r.value);
      } else {
        GuardFrame(db, sid, None, h, ttl, false, false, false, c);
        var g := T.Guard(db, sid, None, h, ttl, false, false, false, c).value;
        FewerSame(db.rows);
        assert T.InsertMessages(g, sid, msgs).Ok?;
        InsertedShaped(db, db.rows, sid, msgs, r.value);
      }
    }
  }

  lemma DroppedFewer(rows: seq<Row>, sid: SessionId, mode: T.ReplaceMode)
    ensures Fewer(rows, T.Dropped(rows, sid, mode))
  {
    match mode
    case DeleteAll => FewerSelect(rows, T.Unless(InSession(sid)));
    case DeleteActive => FewerSelect(rows, T.Unless(Live(sid)));
    case ArchiveDropped => FewerUpdate(rows, T.Deactivate(Live(sid)));
  }

  lemma {:induction false} ReplaceRowsShaped(db: T.Db, sid: SessionId, msgs: seq<Msg>, mode: T.ReplaceMode)
    ensures var r := T.ReplaceRows(db, sid, msgs, mode); r.Ok? ==> Shaped(db, r.value)
  {
    var r := T.ReplaceRows(db, sid, msgs, mode);
    if r.Ok? {
      DroppedFewer(db.rows, sid, mode);
      var d := T.InsertMessages(db.(rows := T.Dropped(db.rows, sid, mode)), sid, msgs).value;
      SetCountersFrame(d, sid, |msgs|, ToolCalls(msgs));
      InsertedShaped(db, T.Dropped(db.rows, sid, mode), sid, msgs, r.value);
    }
  }

  lemma SetCountersFrame(db: T.Db, sid: SessionId, messages: int, toolCalls: int)
    ensures var d := T.SetCounters(db, sid, messages, toolCalls);
      d.rows == db.rows && d.nextId == db.nextId && SameCover(db.sessions, d.sessions)
  {
  }

  /** The guards write only the lease tables. */
  lemma ShapedFrom(db: T.Db, g: T.Db, d: T.Db)
    requires g.rows == db.rows && g.nextId == db.nextId && g.sessions == db.sessions && Shaped(g, d)
    ensures Shaped(db, d)
  {
    assert Kept(db, d) == Kept(g, d) && News(db, d) == News(g, d);
  }

  lemma {:induction false} ReplaceShaped(db: T.Db, sid: SessionId, msgs: seq<Msg>, mode: T.ReplaceMode, guarded: bool,
                                         c: T.Clock)
    ensures var r := T.Replace(db, sid, msgs, mode, guarded, c); r.Ok? ==> Shaped(db, r.value)
  {
    GuardFrame(db, sid, None, "", 0.0, true, true, false, c);
    if T.Replace(db, sid, msgs, mode, guarded, c).Ok? {
      var g := if guarded then T.MutationGuard(db, sid, c).value else db;
      ReplaceRowsShaped(g, sid, msgs, mode);
      ShapedFrom(db, g, T.ReplaceRows(g, sid, msgs, mode).value);
    }
  }

  lemma ClearShaped(db: T.Db, sid: SessionId)
    ensures Shaped(db, T.Clear(db, sid))
  {
    FewerSelect(db.rows, T.Unless(InSession(sid)));
    ShapedFewer(db, T.Clear(db, sid));
  }

  lemma CountersFrame(db: T.Db, sid: SessionId, messages: int, toolCalls: int)
    ensures var d := T.CountRewind(T.SetCounters(db, sid, messages, toolCalls), sid);
      d.rows == db.rows && d.nextId == db.nextId && SameCover(db.sessions, d.sessions)
  {
  }

  lemma {:induction false} RewindRowsShaped(db: T.Db, sid: SessionId, target: nat, replacement: seq<Msg>)
    ensures var r := T.RewindRows(db, sid, target, replacement); r.Ok? ==> Shaped(db, r.value)
  {
    var u := T.Deactivate(LiveAbove(sid, target - 1));
    FewerUpdate(db.rows, u);
    var d := T.InsertMessages(db.(rows := Update(db.rows, u)), sid, replacement);
    if d.Ok? {
      var after := Msgs(Select(d.value.rows, Live(sid)));
      CountersFrame(d.value, sid, |after|, ToolCalls(after));
      InsertedShaped(db, Update(db.rows, u), sid, replacement, T.RewindRows(db, sid, target, replacement).value);
    }
  }

  lemma {:induction false} RewindShaped(db: T.Db, sid: SessionId, a: T.RewindArgs, c: T.Clock)
    ensures var r := T.Rewind(db, sid, a, c); r.Ok? ==> Shaped(db, r.value)
  {
    GuardFrame(db, sid, None, "", 0.0, true, true, false, c);
    var g := T.MutationGuard(db, sid, c);
    if g.Ok? && T.RewindCheck(g.value, sid, a).Ok? {
      var replacement := T.RewindCheck(g.value, sid, a).value;
      RewindRowsShaped(g.value, sid, a.target, replacement);
      var r := T.RewindRows(g.value, sid, a.target, replacement);
      if r.Ok? {
        ShapedFrom(db, g.value, r.value);
      }
    }
  }

  lemma FinishShaped(db: T.Db, kept: seq<Row>, sid: SessionId, msgs: seq<Msg>, tail: seq<Msg>)
    requires Fewer(db.rows, kept)
    ensures var r := T.FinishCompaction(db.(rows := kept), sid, msgs, tail); r.Ok? ==> Shaped(db, r.value)
  {
    var d := T.InsertMessages(db.(rows := kept), sid, msgs + tail);
    if d.Ok? {
      SetCountersFrame(d.value, sid, |msgs| + |tail|, ToolCalls(msgs) + ToolCalls(tail));
      InsertedShaped(db, kept, sid, msgs + tail, T.FinishCompaction(db.(rows := kept), sid, msgs, tail).value);
    }
  }

  lemma {:induction false} CompactShaped(db: T.Db, sid: SessionId, msgs: seq<Msg>, w: Option<int>, n: int)
    ensures var r := T.CompactRows(db, sid, msgs, w, n); r.Ok? ==> Shaped(db, r.value)
  {
    var u := T.Archive(sid, T.Superseded(db.rows, sid, w, n));
    FewerUpdate(db.rows, u);
    FinishShaped(db, Update(db.rows, u), sid, msgs, Msgs(T.ConcurrentTail(db.rows, sid, w)));
  }

  lemma PublishShaped(db: T.Db, p: T.Publication, c: T.Clock)
    ensures var r := T.Publish(db, p, c); r.Ok? ==> Shaped(db, r.value)
  {
    var r := T.Publish(db, p, c);
    if r.Ok? {
      PublishShape(db, p, c);
      FewerSame(db.rows);
      ShapedInsert(db, r.value, db.rows, p.child, T.ChildMsgs(db.rows, p));
    }
  }

  lemma PruneShaped(db: T.Db, m: set<SessionId>, guarded: bool, c: T.Clock)
    ensures Shaped(db, T.Prune(db, m, guarded, c))
  {
    var candidates := T.Ended(db, m);
    var gone := if guarded then set s | s in candidates && !T.Blocked(db, s, c) else candidates;
    var d := T.Prune(db, m, guarded, c);
    assert d.rows == Select(db.rows, T.Unless(T.InSessions(gone)));
    FewerSelect(db.rows, T.Unless(T.InSessions(gone)));
    ShapedFewer(db, d);
  }

  predicate WritesRows(step: T.Step) {
    || step.StepAppend? || step.StepReplace? || step.StepClear? || step.StepRewind? || step.StepCompact?
    || step.StepPublish? || step.StepPrune?
  }

  lemma SessionStepShaped(db: T.Db, step: T.Step)
    requires step.StepCreate? || step.StepEnd? || step.StepReopen? || step.StepSweep?
    ensures Shaped(db, T.Apply(db, step))
  {
    ShapedSame(db, T.Apply(db, step));
  }

  lemma RowStepShaped(db: T.Db, step: T.Step)
    requires WritesRows(step) && T.Try(db, step).Ok?
    ensures Shaped(db, T.Apply(db, step))
  {
    match step
    case StepAppend(sid, msgs, h, ttl, c) => AppendShaped(db, sid, msgs, h, ttl, c);
    case StepReplace(sid, msgs, mode, guarded, c) => ReplaceShaped(db, sid, msgs, mode, guarded, c);
    case StepClear(sid) => ClearShaped(db, sid);
    case StepRewind(sid, a, c) => RewindShaped(db, sid, a, c);
    case StepCompact(sid, msgs, w, h, n, c) => CompactShaped(db, sid, msgs, w, n);
    case StepPublish(p, c) => PublishShaped(db, p, c);
    case StepPrune(m, guarded, c) => PruneShaped(db, m, guarded, c);
  }

  /** Every writer keeps a message as it is, drops it, or adds it under the next id. */
  lemma {:induction false} CommitShaped(db: T.Db, step: T.Step)
    ensures Shaped(db, T.Apply(db, step))
  {
    if WritesRows(step) {
      if T.Try(db, step).Ok? {
        RowStepShaped(db, step);
      } else {
        ShapedSame(db, db);
      }
    } else if IsLeaseStep(step) {
      LeaseStepFrame(db, step);
      ShapedSame(db, T.Apply(db, step));
    } else {
      SessionStepShaped(db, step);
    }
  }

  // ---------------------------------------------------------------- What the triggers see of a commit

  ghost function Listing(s: set<SessionId>): (names: seq<SessionId>)
    ensures forall x :: x in names <==> x in s
  {
    if s == {} then []
    else
      var x :| x in s;
      [x] + Listing(s - {x})
  }

  function Members(names: seq<SessionId>): set<SessionId> {
    set x | x in names
  }

  lemma MembersPush(names: seq<SessionId>, x: SessionId)
    ensures Members(names + [x]) == Members(names) + {x}
  {
    assert forall y :: y in names + [x] <==> y in names || y == x;
  }

  function Cover(ss: Sessions, x: SessionId): bool {
    x in ss && Taken(ss[x])
  }

  function Create(st: F.Store, names: seq<SessionId>, ss: Sessions): F.Store {
    if names == [] then st
    else
      var last := names[|names| - 1];
      F.AddSession(Create(st, names[..|names| - 1], ss), last, Cover(ss, last))
  }

  function Delete(k: F.Kind, st: F.Store, rows: seq<Row>): F.Store {
    if rows == [] then st
    else F.DeleteRow(k, Delete(k, st, rows[..|rows| - 1]), rows[|rows| - 1].id)
  }

  function Insert(k: F.Kind, st: F.Store, rows: seq<Row>): F.Store {
    if rows == [] then st
    else F.InsertRow(k, Insert(k, st, rows[..|rows| - 1]), AsRec(rows[|rows| - 1]))
  }

  function Remove(st: F.Store, names: seq<SessionId>): F.Store {
    if names == [] then st else F.DropSession(Remove(st, names[..|names| - 1]), names[|names| - 1])
  }

  /** The rows a commit deletes. */
  function Gone(db: T.Db, d: T.Db): seq<Row> {
    Select(db.rows, (r: Row) => r.id !in Ids(d.rows))
  }

  /** A commit creates its sessions first, deletes before it inserts, and drops a session after the
      messages in it.  Updates of the lifecycle flags fire no trigger. */
  ghost function Follow(k: F.Kind, index: F.Store, db: T.Db, d: T.Db): F.Store {
    Remove(Written(k, index, db, d), Listing(db.sessions.Keys - d.sessions.Keys))
  }

  ghost function Written(k: F.Kind, index: F.Store, db: T.Db, d: T.Db): F.Store {
    var created := Create(index, Listing(d.sessions.Keys - db.sessions.Keys), d.sessions);
    Insert(k, Delete(k, created, Gone(db, d)), News(db, d))
  }

  lemma {:induction false} CreateKeeps(k: F.Kind, st: F.Store, names: seq<SessionId>, ss: Sessions)
    requires F.Kept(k, st)
    ensures F.Kept(k, Create(st, names, ss))
  {
    if names != [] {
      var init, last := names[..|names| - 1], names[|names| - 1];
      CreateKeeps(k, st, init, ss);
      F.StepKeeps(k, Create(st, init, ss), F.NewSession(last, Cover(ss, last)));
    }
  }

  /** `t` is `st` with the sessions `names` added. */
  ghost predicate Knows(st: F.Store, t: F.Store, names: seq<SessionId>, ss: Sessions) {
    && t.rows == st.rows && t.nextId == st.nextId
    && t.sessions.Keys == st.sessions.Keys + Members(names)
    && (forall x :: x in t.sessions ==> t.sessions[x] == if x in st.sessions then st.sessions[x] else Cover(ss, x))
  }

  lemma KnowsPush(st: F.Store, t: F.Store, names: seq<SessionId>, ss: Sessions, x: SessionId)
    requires Knows(st, t, names, ss)
    ensures Knows(st, F.AddSession(t, x, Cover(ss, x)), names + [x], ss)
  {
    MembersPush(names, x);
    var u := F.AddSession(t, x, Cover(ss, x));
    if x in t.sessions {
      assert u == t;
      assert st.sessions.Keys + Members(names) == st.sessions.Keys + Members(names + [x]);
    } else {
      assert u.sessions.Keys == t.sessions.Keys + {x};
    }
  }

  lemma {:induction false} CreateAdds(st: F.Store, names: seq<SessionId>, ss: Sessions)
    ensures Knows(st, Create(st, names, ss), names, ss)
  {
    if names == [] {
      assert st.sessions.Keys + Members([]) == st.sessions.Keys;
    } else {
      var init, last := names[..|names| - 1], names[|names| - 1];
      CreateAdds(st, init, ss);
      KnowsPush(st, Create(st, init, ss), init, ss, last);
      assert names == init + [last];
    }
  }

  lemma {:induction false} DeleteKeeps(k: F.Kind, st: F.Store, rows: seq<Row>)
    requires F.Kept(k, st)
    ensures F.Kept(k, Delete(k, st, rows))
  {
    if rows != [] {
      var init, last := rows[..|rows| - 1], rows[|rows| - 1];
      DeleteKeeps(k, st, init);
      F.StepKeeps(k, Delete(k, st, init), F.Delete(last.id));
    }
  }

  lemma {:induction false} DeleteDrops(k: F.Kind, st: F.Store, rows: seq<Row>)
    ensures var t := Delete(k, st, rows);
      t.rows == st.rows - Ids(rows) && t.nextId == st.nextId && t.sessions == st.sessions
  {
    if rows == [] {
      assert st.rows - Ids(rows) == st.rows;
    } else {
      var init, last := rows[..|rows| - 1], rows[|rows| - 1];
      DeleteDrops(k, st, init);
      DeleteOne(k, Delete(k, st, init), last.id);
      IdsPush(init, last);
      assert rows == init + [last];
      assert (st.rows - Ids(init)) - {last.id} == st.rows - Ids(rows);
    }
  }

  lemma DeleteOne(k: F.Kind, st: F.Store, id: nat)
    ensures var t := F.DeleteRow(k, st, id);
      t.rows == st.rows - {id} && t.nextId == st.nextId && t.sessions == st.sessions
  {
  }

  lemma IdsPush(rows: seq<Row>, r: Row)
    ensures Ids(rows + [r]) == Ids(rows) + {r.id}
  {
    assert forall q :: q in rows + [r] <==> q in rows || q == r;
  }

  lemma {:induction false} InsertKeeps(k: F.Kind, st: F.Store, rows: seq<Row>)
    requires F.Kept(k, st)
    ensures F.Kept(k, Insert(k, st, rows))
  {
    if rows != [] {
      var init, last := rows[..|rows| - 1], rows[|rows| - 1];
      InsertKeeps(k, st, init);
      F.StepKeeps(k, Insert(k, st, init), F.Insert(AsRec(last)));
    }
  }

  /** `t` is `st` with `rows` inserted under the next ids. */
  ghost predicate Extends(st: F.Store, t: F.Store, rows: seq<Row>) {
    && t.nextId == st.nextId + |rows| && t.sessions == st.sessions
    && t.rows.Keys == st.rows.Keys + Ids(rows)
    && (forall id :: id in st.rows && id < st.nextId ==> t.rows[id] == st.rows[id])
    && (forall i :: 0 <= i < |rows| ==> rows[i].id in t.rows && t.rows[rows[i].id] == AsRec(rows[i]))
  }

  lemma ExtendsPush(st: F.Store, u: F.Store, t: F.Store, rows: seq<Row>, r: Row)
    requires Extends(st, u, rows) && r.id == u.nextId
    requires forall i :: 0 <= i < |rows| ==> rows[i].id < u.nextId
    requires t.rows == u.rows[u.nextId := AsRec(r)] && t.nextId == u.nextId + 1 && t.sessions == u.sessions
    ensures Extends(st, t, rows + [r])
  {
    IdsPush(rows, r);
  }

  /** The rows carry the ids they are about to be given. */
  ghost predicate Ready(st: F.Store, rows: seq<Row>) {
    forall i :: 0 <= i < |rows| ==> rows[i].id == st.nextId + i && rows[i].session in st.sessions
  }

  lemma InsertPush(k: F.Kind, st: F.Store, u: F.Store, rows: seq<Row>)
    requires rows != [] && Ready(st, rows) && Extends(st, u, rows[..|rows| - 1])
    ensures Extends(st, F.InsertRow(k, u, AsRec(rows[|rows| - 1])), rows)
  {
    var init, last := rows[..|rows| - 1], rows[|rows| - 1];
    F.InsertAdds(k, u, AsRec(last));
    ExtendsPush(st, u, F.InsertRow(k, u, AsRec(last)), init, last);
    assert rows == init + [last];
  }

  lemma ExtendsNone(st: F.Store)
    ensures Extends(st, st, [])
  {
    assert st.rows.Keys + Ids([]) == st.rows.Keys;
  }

  lemma {:induction false} InsertAdds(k: F.Kind, st: F.Store, rows: seq<Row>)
    requires Ready(st, rows)
    ensures Extends(st, Insert(k, st, rows), rows)
  {
    if rows == [] {
      ExtendsNone(st);
    } else {
      InsertAdds(k, st, rows[..|rows| - 1]);
      InsertPush(k, st, Insert(k, st, rows[..|rows| - 1]), rows);
    }
  }

  lemma {:induction false} RemoveKeeps(k: F.Kind, st: F.Store, names: seq<SessionId>)
    requires F.Kept(k, st) && forall id :: id in st.rows ==> st.rows[id].session !in names
    ensures F.Kept(k, Remove(st, names))
  {
    if names != [] {
      var init, last := names[..|names| - 1], names[|names| - 1];
      assert names == init + [last];
      RemoveKeeps(k, st, init);
      RemoveDrops(st, init);
      F.StepKeeps(k, Remove(st, init), F.DropSessionRow(last));
    }
  }

  lemma {:induction false} RemoveDrops(st: F.Store, names: seq<SessionId>)
    ensures var t := Remove(st, names);
      t.rows == st.rows && t.nextId == st.nextId && t.sessions == st.sessions - Members(names)
  {
    if names == [] {
      assert st.sessions - Members(names) == st.sessions;
    } else {
      var init, last := names[..|names| - 1], names[|names| - 1];
      assert names == init + [last];
      RemoveDrops(st, init);
      MembersPush(init, last);
      assert (st.sessions - Members(init)) - {last} == st.sessions - Members(names);
    }
  }

  // ---------------------------------------------------------------- Runs of the two

  lemma RowsSplit(db: T.Db, d: T.Db, r: Row)
    requires T.WellFormed(db) && Shaped(db, d) && r in d.rows
    ensures r in News(db, d) || (r.id < db.nextId && exists q :: q in db.rows && SameMessage(q, r))
  {
    assert d.rows == Kept(db, d) + News(db, d);
    if r !in News(db, d) {
      assert r in Kept(db, d);
      var q :| q in db.rows && SameMessage(q, r);
    }
  }

  lemma GoneMember(db: T.Db, d: T.Db)
    ensures forall q :: q in Gone(db, d) <==> q in db.rows && q.id !in Ids(d.rows)
  {
    SelectMember(db.rows, (r: Row) => r.id !in Ids(d.rows));
  }

  /** The ids that are left and the ids that are new are the ids afterwards. */
  lemma {:induction false} IdsAfter(db: T.Db, d: T.Db)
    requires T.WellFormed(db) && Shaped(db, d)
    ensures Ids(d.rows) == (Ids(db.rows) - Ids(Gone(db, d))) + Ids(News(db, d))
  {
    GoneMember(db, d);
    forall id | id in Ids(d.rows) ensures id in (Ids(db.rows) - Ids(Gone(db, d))) + Ids(News(db, d)) {
      var r :| r in d.rows && r.id == id;
      RowsSplit(db, d, r);
      if r !in News(db, d) {
        var q :| q in db.rows && SameMessage(q, r);
      }
    }
    forall id | id in (Ids(db.rows) - Ids(Gone(db, d))) + Ids(News(db, d)) ensures id in Ids(d.rows) {
      if id !in Ids(News(db, d)) {
        var q :| q in db.rows && q.id == id;
        assert q !in Gone(db, d);
      }
    }
  }

  ghost predicate SameRows(db: T.Db, index: F.Store) {
    && index.nextId == db.nextId
    && index.rows.Keys == Ids(db.rows)
    && (forall r :: r in db.rows ==> index.rows[r.id] == AsRec(r))
  }

  ghost predicate SameSessions(db: T.Db, index: F.Store) {
    && index.sessions.Keys == db.sessions.Keys
    && forall s :: s in db.sessions ==> index.sessions[s] == Taken(db.sessions[s])
  }

  /** The index reads the rows and the sessions of the store. */
  ghost predicate Mirrors(db: T.Db, index: F.Store) {
    SameRows(db, index) && SameSessions(db, index)
  }

  lemma {:induction false} RowMirrored(db: T.Db, d: T.Db, st: F.Store, u: F.Store, t: F.Store, r: Row)
    requires T.WellFormed(db) && Shaped(db, d) && SameRows(db, st)
    requires u.rows == st.rows - Ids(Gone(db, d)) && u.nextId == db.nextId && Extends(u, t, News(db, d))
    requires r in d.rows
    ensures r.id in t.rows && t.rows[r.id] == AsRec(r)
  {
    RowsSplit(db, d, r);
    var news := News(db, d);
    if r in news {
      var i :| 0 <= i < |news| && news[i] == r;
    } else {
      var q :| q in db.rows && SameMessage(q, r);
      GoneMember(db, d);
      assert r.id in Ids(d.rows) && q.id in Ids(db.rows);
      assert r.id !in Ids(Gone(db, d));
      assert r.id in u.rows && u.rows[r.id] == AsRec(q);
    }
  }

  lemma {:induction false} RowsMirrored(db: T.Db, d: T.Db, st: F.Store, u: F.Store, t: F.Store)
    requires T.WellFormed(db) && Shaped(db, d) && SameRows(db, st)
    requires u.rows == st.rows - Ids(Gone(db, d)) && u.nextId == db.nextId && Extends(u, t, News(db, d))
    ensures SameRows(d, t)
  {
    IdsAfter(db, d);
    forall r | r in d.rows ensures r.id in t.rows && t.rows[r.id] == AsRec(r) {
      RowMirrored(db, d, st, u, t, r);
    }
  }

  /** While a commit is followed the index knows the sessions of both sides. */
  ghost predicate KnowsBoth(db: T.Db, d: T.Db, t: F.Store) {
    && t.sessions.Keys == db.sessions.Keys + d.sessions.Keys
    && forall s :: s in d.sessions ==> t.sessions[s] == Taken(d.sessions[s])
  }

  lemma {:induction false} CreatedKnows(st: F.Store, db: T.Db, d: T.Db)
    requires SameSessions(db, st) && SameCover(db.sessions, d.sessions)
    ensures var t := Create(st, Listing(d.sessions.Keys - db.sessions.Keys), d.sessions);
      KnowsBoth(db, d, t) && t.rows == st.rows && t.nextId == st.nextId
  {
    var names := Listing(d.sessions.Keys - db.sessions.Keys);
    CreateAdds(st, names, d.sessions);
    assert Members(names) == d.sessions.Keys - db.sessions.Keys;
  }

  lemma NewsFit(db: T.Db, d: T.Db, t: F.Store)
    requires T.WellFormed(d) && Shaped(db, d) && KnowsBoth(db, d, t) && t.nextId == db.nextId
    ensures Ready(t, News(db, d))
  {
    forall i | 0 <= i < |News(db, d)| ensures News(db, d)[i].session in t.sessions {
      assert News(db, d)[i] in d.rows;
    }
  }

  lemma {:induction false} WrittenMirrors(k: F.Kind, st: F.Store, db: T.Db, d: T.Db)
    requires T.WellFormed(db) && T.WellFormed(d) && Shaped(db, d) && SameRows(db, st) && SameSessions(db, st)
    ensures SameRows(d, Written(k, st, db, d)) && KnowsBoth(db, d, Written(k, st, db, d))
  {
    CreatedKnows(st, db, d);
    var created := Create(st, Listing(d.sessions.Keys - db.sessions.Keys), d.sessions);
    DeleteDrops(k, created, Gone(db, d));
    var deleted := Delete(k, created, Gone(db, d));
    NewsFit(db, d, deleted);
    InsertAdds(k, deleted, News(db, d));
    RowsMirrored(db, d, st, deleted, Written(k, st, db, d));
  }

  lemma {:induction false} RemovedSame(u: F.Store, db: T.Db, d: T.Db)
    requires SameRows(d, u) && KnowsBoth(db, d, u)
    ensures var t := Remove(u, Listing(db.sessions.Keys - d.sessions.Keys)); SameRows(d, t) && SameSessions(d, t)
  {
    var gone := Listing(db.sessions.Keys - d.sessions.Keys);
    RemoveDrops(u, gone);
    assert Members(gone) == db.sessions.Keys - d.sessions.Keys;
    assert Remove(u, gone).sessions.Keys == d.sessions.Keys;
  }

  /** Dropping the sessions that are gone breaks no row, for none is left in them. */
  lemma {:induction false} NoneLeft(u: F.Store, d: T.Db, gone: set<SessionId>)
    requires T.WellFormed(d) && SameRows(d, u) && gone !! d.sessions.Keys
    ensures forall id :: id in u.rows ==> u.rows[id].session !in Listing(gone)
  {
    forall id | id in u.rows ensures u.rows[id].session !in Listing(gone) {
      var r :| r in d.rows && r.id == id;
    }
  }

  lemma WrittenKeeps(k: F.Kind, st: F.Store, db: T.Db, d: T.Db)
    requires F.Kept(k, st)
    ensures F.Kept(k, Written(k, st, db, d))
  {
    var names := Listing(d.sessions.Keys - db.sessions.Keys);
    CreateKeeps(k, st, names, d.sessions);
    var created := Create(st, names, d.sessions);
    DeleteKeeps(k, created, Gone(db, d));
    InsertKeeps(k, Delete(k, created, Gone(db, d)), News(db, d));
  }

  /** Whatever a writer commits, the index goes on reading the rows and sessions of the store, and stays
      exact if it was. */
  lemma {:induction false} CommitKeepsIndex(k: F.Kind, db: T.Db, st: F.Store, step: T.Step)
    requires T.WellFormed(db) && Mirrors(db, st) && F.Kept(k, st)
    ensures var d := T.Apply(db, step); var t := Follow(k, st, db, d);
      T.WellFormed(d) && Mirrors(d, t) && F.Kept(k, t)
  {
    var d := T.Apply(db, step);
    StepWellFormed(db, step);
    CommitShaped(db, step);
    WrittenMirrors(k, st, db, d);
    WrittenKeeps(k, st, db, d);
    var u := Written(k, st, db, d);
    RemovedSame(u, db, d);
    NoneLeft(u, d, db.sessions.Keys - d.sessions.Keys);
    RemoveKeeps(k, u, Listing(db.sessions.Keys - d.sessions.Keys));
  }

  /** A commit of the store, or a maintenance step of the index. */
  datatype Act = Commit(step: T.Step) | Maintain(upkeep: F.Step)

  datatype Joint = Joint(db: T.Db, index: F.Store)

  /** The steps that touch no row and no session. */
  predicate IsUpkeep(step: F.Step) {
    || step.BackfillChunk? || step.FinishRebuild? || step.SeedMarkers? || step.FailOpen?
    || step.RecoverStale? || step.RebuildNow?
  }

  ghost function Do(k: F.Kind, j: Joint, act: Act): Joint {
    match act
    case Commit(step) =>
      var d := T.Apply(j.db, step);
      Joint(d, Follow(k, j.index, j.db, d))
    case Maintain(upkeep) => if IsUpkeep(upkeep) then j.(index := F.Apply(k, j.index, upkeep)) else j
  }

  ghost function Run(k: F.Kind, acts: seq<Act>): Joint {
    if acts == [] then Joint(T.EMPTY, F.EMPTY) else Do(k, Run(k, acts[..|acts| - 1]), acts[|acts| - 1])
  }

  /** The conditions of the maintenance steps; the writers have none. */
  ghost predicate AllFine(k: F.Kind, acts: seq<Act>) {
    acts == [] ||
    (AllFine(k, acts[..|acts| - 1])
     && (acts[|acts| - 1].Maintain? ==> F.Fine(k, Run(k, acts[..|acts| - 1]).index, acts[|acts| - 1].upkeep)))
  }

  lemma UpkeepFrame(k: F.Kind, st: F.Store, step: F.Step)
    requires IsUpkeep(step)
    ensures var t := F.Apply(k, st, step); t.rows == st.rows && t.nextId == st.nextId && t.sessions == st.sessions
  {
  }

  /** However commits of any writer and maintenance of the index are interleaved, the index reads exactly
      the rows of the store, and while its triggers are installed it is exact about them. */
  lemma {:induction false} IndexFollowsStore(k: F.Kind, acts: seq<Act>)
    requires AllFine(k, acts)
    ensures var j := Run(k, acts); T.WellFormed(j.db) && Mirrors(j.db, j.index) && F.Kept(k, j.index)
  {
    if acts == [] {
      EmptyKept(k);
    } else {
      IndexFollowsStore(k, acts[..|acts| - 1]);
      var j := Run(k, acts[..|acts| - 1]);
      match acts[|acts| - 1]
      case Commit(step) => CommitKeepsIndex(k, j.db, j.index, step);
      case Maintain(upkeep) =>
        if IsUpkeep(upkeep) {
          UpkeepFrame(k, j.index, upkeep);
          F.StepKeeps(k, j.index, upkeep);
        }
    }
  }

  lemma EmptyKept(k: F.Kind)
    ensures T.WellFormed(T.EMPTY) && Mirrors(T.EMPTY, F.EMPTY) && F.Kept(k, F.EMPTY)
  {
    F.ReachableIsExact(k, []);
  }

  lemma FoundAt(db: T.Db, st: F.Store, id: nat)
    requires SameRows(db, st) && F.Right(F.Base, st, id) && st.gate == F.NO_GATE
    ensures id in st.docs <==> id in Ids(db.rows)
    ensures forall r :: r in db.rows && r.id == id ==>
      F.Prefix(st.docs[id].content) == F.Prefix(r.msg.content)
      && (r.msg.role != "tool" ==> st.docs[id].content == r.msg.content)
  {
    forall r | r in db.rows && r.id == id ensures st.rows[id] == AsRec(r) {
    }
  }

  /** With no rebuild pending, every row on record is found by its text, live, rewound or archived, and
      nothing that was deleted is.  Long tool output is found by its prefix. */
  lemma {:induction false} EveryRowIsFound(acts: seq<Act>)
    requires AllFine(F.Base, acts)
    requires var st := Run(F.Base, acts).index; st.live && st.gate == F.NO_GATE
    ensures var j := Run(F.Base, acts);
      && j.index.docs.Keys == Ids(j.db.rows)
      && forall r :: r in j.db.rows ==>
           F.Prefix(j.index.docs[r.id].content) == F.Prefix(r.msg.content)
           && (r.msg.role != "tool" ==> j.index.docs[r.id].content == r.msg.content)
  {
    IndexFollowsStore(F.Base, acts);
    var j := Run(F.Base, acts);
    forall id: nat ensures id in j.index.docs <==> id in Ids(j.db.rows) {
      assert F.Right(F.Base, j.index, id);
      FoundAt(j.db, j.index, id);
    }
    forall r | r in j.db.rows
      ensures r.id in j.index.docs
      ensures F.Prefix(j.index.docs[r.id].content) == F.Prefix(r.msg.content)
      ensures r.msg.role != "tool" ==> j.index.docs[r.id].content == r.msg.content
    {
      assert F.Right(F.Base, j.index, r.id);
      FoundAt(j.db, j.index, r.id);
    }
  }

  /** The rows each index is for: all of them; for the CJK index all but tool output; for the trigram index all
      but tool output, scheduled and delegated sessions. */
  predicate Searchable(k: F.Kind, db: T.Db, r: Row) {
    match k
    case Base => true
    case Cjk => r.msg.role != "tool"
    case Trigram =>
      r.msg.role != "tool" && r.session in db.sessions
      && db.sessions[r.session].source !in {"cron", "subagent"} && db.sessions[r.session].delegateFrom == None
  }

  /** What an index holds of a message: its tool name; its tool calls, but in the trigram index; and its content,
      long tool output in the base index by its first 8192 characters when it is above the tool high water. */
  predicate HoldsMessage(k: F.Kind, toolHigh: Option<int>, r: Row, d: F.Doc) {
    && d.toolName == (if r.msg.toolName.Some? then r.msg.toolName.value else "")
    && d.toolCalls == (if k == F.Trigram then "" else Json(r.msg.toolCalls))
    && d.content == if && k == F.Base && r.msg.role == "tool" && |r.msg.content| > 8192
                       && (toolHigh.None? || r.id > toolHigh.value)
                    then r.msg.content[..8192] else r.msg.content
  }

  lemma RowOnColumns(k: F.Kind, db: T.Db, st: F.Store, r: Row)
    requires T.WellFormed(db) && Mirrors(db, st) && F.Kept(k, st) && st.live && r in db.rows
    ensures r.id in st.docs <==> Searchable(k, db, r) && F.PastWindow(st.gate, r.id)
    ensures r.id in st.docs ==> HoldsMessage(k, st.toolHigh, r, st.docs[r.id])
  {
    assert st.rows[r.id] == AsRec(r);
    F.EntriesOnColumns(k, st, r.id);
  }

  /** Over every such run, while the triggers are installed: each index has an entry for exactly the stored
      messages it is for, all of them when no rebuild is pending, holding these columns, and no other entry. */
  lemma {:induction false} IndexOnColumns(k: F.Kind, acts: seq<Act>)
    requires AllFine(k, acts) && Run(k, acts).index.live
    ensures var j := Run(k, acts);
      && (forall id :: id in j.index.docs ==> id in Ids(j.db.rows))
      && (forall r :: r in j.db.rows ==>
            && (r.id in j.index.docs <==> Searchable(k, j.db, r) && F.PastWindow(j.index.gate, r.id))
            && (r.id in j.index.docs ==> HoldsMessage(k, j.index.toolHigh, r, j.index.docs[r.id])))
  {
    IndexFollowsStore(k, acts);
    var j := Run(k, acts);
    forall id | id in j.index.docs ensures id in Ids(j.db.rows) {
      F.EntriesOnColumns(k, j.index, id);
    }
    forall r | r in j.db.rows
      ensures r.id in j.index.docs <==> Searchable(k, j.db, r) && F.PastWindow(j.index.gate, r.id)
      ensures r.id in j.index.docs ==> HoldsMessage(k, j.index.toolHigh, r, j.index.docs[r.id])
    {
      RowOnColumns(k, j.db, j.index, r);
    }
  }
}
