/** What appends, replacements and rewinds leave in a session: its live rows afterwards, said without the
    statements that get there. */
module Edits {
  import opened Lineage
  import opened Rows
  import opened Transcript

  /** Selecting after an insert into `sid`: what was selected before, then the inserted rows if they match. */
  lemma SelectInserted(rows: seq<Row>, sid: SessionId, id: nat, msgs: seq<Msg>, p: Row -> bool)
    requires forall r :: r in NewRows(sid, id, msgs) ==> p(r)
    ensures Select(rows + NewRows(sid, id, msgs), p) == Select(rows, p) + NewRows(sid, id, msgs)
  {
    SelectConcat(rows, NewRows(sid, id, msgs), p);
    SelectAll(NewRows(sid, id, msgs), p);
  }

  lemma SelectBeside(rows: seq<Row>, sid: SessionId, id: nat, msgs: seq<Msg>, p: Row -> bool)
    requires forall r :: r in NewRows(sid, id, msgs) ==> !p(r)
    ensures Select(rows + NewRows(sid, id, msgs), p) == Select(rows, p)
  {
    SelectConcat(rows, NewRows(sid, id, msgs), p);
    SelectNone(NewRows(sid, id, msgs), p);
    assert Select(rows, p) + [] == Select(rows, p);
  }

  lemma InsertedRows(db: Db, sid: SessionId, msgs: seq<Msg>)
    requires InsertMessages(db, sid, msgs).Ok?
    ensures InsertMessages(db, sid, msgs).value.rows == db.rows + NewRows(sid, db.nextId, msgs)
  {
    assert db.rows + [] == db.rows;
  }

  /** An append adds its messages after the live rows, in order, and touches no other row. */
  lemma AppendAdds(db: Db, sid: SessionId, msgs: seq<Msg>)
    requires AppendRows(db, sid, msgs).Ok?
    ensures var d := AppendRows(db, sid, msgs).value;
      && db.rows <= d.rows
      && Select(d.rows, Live(sid)) == Select(db.rows, Live(sid)) + NewRows(sid, db.nextId, msgs)
      && Select(d.rows, Unless(InSession(sid))) == Select(db.rows, Unless(InSession(sid)))
  {
    InsertedRows(db, sid, msgs);
    SelectInserted(db.rows, sid, db.nextId, msgs, Live(sid));
    SelectBeside(db.rows, sid, db.nextId, msgs, Unless(InSession(sid)));
  }

  /** Each appended message is a row of its own: under the next id, in the session, live, and not archived. */
  lemma {:induction false} AppendedRows(db: Db, sid: SessionId, msgs: seq<Msg>, h: string, ttl: real, c: Clock, i: nat)
    requires Append(db, sid, msgs, h, ttl, c).Ok? && i < |msgs|
    ensures var d := Append(db, sid, msgs, h, ttl, c).value;
      && d.nextId == db.nextId + |msgs| && |d.rows| == |db.rows| + |msgs| && db.rows <= d.rows
      && d.rows[|db.rows| + i] == Row(db.nextId + i, sid, msgs[i], true, false)
  {
  }

  /** A row of the session that is not live. */
  function Shelved(sid: SessionId): Row -> bool {
    (r: Row) => r.session == sid && !r.active
  }

  lemma DroppedHasNoLive(rows: seq<Row>, sid: SessionId, mode: ReplaceMode)
    ensures Select(Dropped(rows, sid, mode), Live(sid)) == []
  {
    match mode
    case DeleteAll =>
      SelectMember(rows, Unless(InSession(sid)));
      SelectNone(Dropped(rows, sid, mode), Live(sid));
    case DeleteActive =>
      SelectMember(rows, Unless(Live(sid)));
      SelectNone(Dropped(rows, sid, mode), Live(sid));
    case ArchiveDropped =>
      UpdateMember(rows, Deactivate(Live(sid)));
      SelectNone(Dropped(rows, sid, mode), Live(sid));
  }

  lemma DroppedKeepsOthers(rows: seq<Row>, sid: SessionId, mode: ReplaceMode)
    ensures Select(Dropped(rows, sid, mode), Unless(InSession(sid))) == Select(rows, Unless(InSession(sid)))
  {
    var others := Unless(InSession(sid));
    match mode
    case DeleteAll => SelectSelect(rows, others, others, others);
    case DeleteActive => SelectSelect(rows, Unless(Live(sid)), others, others);
    case ArchiveDropped => SelectUntouched(rows, Deactivate(Live(sid)), others);
  }

  /** After a replacement, in every mode, the new transcript is exactly what is live, and other sessions keep
      their rows. */
  lemma ReplaceLeavesNew(db: Db, sid: SessionId, msgs: seq<Msg>, mode: ReplaceMode)
    requires ReplaceRows(db, sid, msgs, mode).Ok?
    ensures var d := ReplaceRows(db, sid, msgs, mode).value;
      && Select(d.rows, Live(sid)) == NewRows(sid, db.nextId, msgs)
      && Select(d.rows, Unless(InSession(sid))) == Select(db.rows, Unless(InSession(sid)))
  {
    var dropped := Dropped(db.rows, sid, mode);
    InsertedRows(db.(rows := dropped), sid, msgs);
    DroppedHasNoLive(db.rows, sid, mode);
    DroppedKeepsOthers(db.rows, sid, mode);
    SelectInserted(dropped, sid, db.nextId, msgs, Live(sid));
    SelectBeside(dropped, sid, db.nextId, msgs, Unless(InSession(sid)));
    assert [] + NewRows(sid, db.nextId, msgs) == NewRows(sid, db.nextId, msgs);
  }

  /** What becomes of the rows that are not live: the destructive mode deletes them, the active-only mode
      keeps them as they are, the archiving mode deletes nothing and shelves the live rows beside them. */
  lemma ReplaceShelves(db: Db, sid: SessionId, msgs: seq<Msg>, mode: ReplaceMode)
    requires ReplaceRows(db, sid, msgs, mode).Ok?
    ensures var d := ReplaceRows(db, sid, msgs, mode).value;
      Select(d.rows, Shelved(sid)) ==
        match mode
        case DeleteAll => []
        case DeleteActive => Select(db.rows, Shelved(sid))
        case ArchiveDropped => Update(Select(db.rows, InSession(sid)), Deactivate(Live(sid)))
  {
    var dropped := Dropped(db.rows, sid, mode);
    InsertedRows(db.(rows := dropped), sid, msgs);
    SelectBeside(dropped, sid, db.nextId, msgs, Shelved(sid));
    match mode
    case DeleteAll =>
      SelectMember(db.rows, Unless(InSession(sid)));
      SelectNone(dropped, Shelved(sid));
    case DeleteActive => SelectSelect(db.rows, Unless(Live(sid)), Shelved(sid), Shelved(sid));
    case ArchiveDropped => SelectUpdate(db.rows, Deactivate(Live(sid)), Shelved(sid), InSession(sid));
  }

  /** After a rewind the live rows are those before the target, as they were, and then the replacement; no
      row is deleted or edited, and only the target and what follows it left the live set. */
  lemma RewindLeavesPrefix(db: Db, sid: SessionId, target: nat, replacement: seq<Msg>)
    requires RewindRows(db, sid, target, replacement).Ok?
    ensures var d := RewindRows(db, sid, target, replacement).value;
      && Select(d.rows, Live(sid)) == Select(db.rows, LiveUpTo(sid, target - 1)) + NewRows(sid, db.nextId, replacement)
      && |db.rows| <= |d.rows|
      && forall i :: 0 <= i < |db.rows| ==>
           d.rows[i] == if Live(sid)(db.rows[i]) && db.rows[i].id >= target then db.rows[i].(active := false)
                        else db.rows[i]
  {
    var u := Deactivate(LiveAbove(sid, target - 1));
    var kept := Update(db.rows, u);
    InsertedRows(db.(rows := kept), sid, replacement);
    SelectInserted(kept, sid, db.nextId, replacement, Live(sid));
    RewoundLive(db.rows, sid, target);
  }

  lemma RewoundLive(rows: seq<Row>, sid: SessionId, target: nat)
    ensures Select(Update(rows, Deactivate(LiveAbove(sid, target - 1))), Live(sid))
         == Select(rows, LiveUpTo(sid, target - 1))
  {
    var u := Deactivate(LiveAbove(sid, target - 1));
    var below := LiveUpTo(sid, target - 1);
    SelectUpdate(rows, u, Live(sid), below);
    SelectMember(rows, below);
    var s := Select(rows, below);
    forall i | 0 <= i < |s| ensures Update(s, u)[i] == s[i] {
      assert s[i] in s;
    }
    assert Update(s, u) == s;
  }

  // ---------------------------------------------------------------- Admitting a rewind

  /** The row a rewind is asked to go back to. */
  predicate IsTarget(db: Db, sid: SessionId, a: RewindArgs, t: Row) {
    t in db.rows && t.id == a.target && t.session == sid
  }

  /** The live ids are those the caller pinned, if it pinned any. */
  predicate AsExpected(db: Db, sid: SessionId, a: RewindArgs) {
    a.expectedIds.Some? ==> a.expectedIds.value == IdsOf(Select(db.rows, Live(sid)))
  }

  /** The caller wants the handoff kept, or pinned the live content: the target must split. */
  predicate MustSplit(a: RewindArgs) {
    a.preserveHandoff || a.expectedContent.Some?
  }

  predicate ContentAsPinned(a: RewindArgs) {
    a.expectedContent.Some? ==> a.live == a.expectedContent
  }

  lemma TargetFound(db: Db, sid: SessionId, a: RewindArgs)
    requires Ordered(db.rows)
    ensures forall t :: IsTarget(db, sid, a, t) <==> t in Select(db.rows, WithId(sid, a.target))
    ensures forall t, u :: IsTarget(db, sid, a, t) && IsTarget(db, sid, a, u) ==> t == u
  {
    SelectMember(db.rows, WithId(sid, a.target));
    forall t, u | IsTarget(db, sid, a, t) && IsTarget(db, sid, a, u) ensures t == u {
      var i, j :| 0 <= i < |db.rows| && db.rows[i] == t && 0 <= j < |db.rows| && db.rows[j] == u;
      assert i == j;
    }
  }

  /** A rewind whose live ids are not the pinned ones is refused first; then one whose target is not a row of
      the session. */
  lemma RewindNeedsTarget(db: Db, sid: SessionId, a: RewindArgs)
    requires Ordered(db.rows)
    ensures RewindCheck(db, sid, a) == Err(TranscriptChanged) <==> !AsExpected(db, sid, a)
    ensures RewindCheck(db, sid, a) == Err(MessageNotFound)
      <==> AsExpected(db, sid, a) && forall t :: !IsTarget(db, sid, a, t)
  {
    TargetFound(db, sid, a);
    var found := Select(db.rows, WithId(sid, a.target));
    assert found != [] ==> found[0] in found;
  }

  /** For the one row that is the target: the error of the first check it fails, and otherwise what replaces
      it, the handoff when that is to be kept and nothing when not. */
  lemma RewindVerdict(db: Db, sid: SessionId, a: RewindArgs, t: Row)
    requires Ordered(db.rows) && AsExpected(db, sid, a) && IsTarget(db, sid, a, t)
    ensures var r := RewindCheck(db, sid, a);
      var user, split := t.msg.role == "user", MustSplit(a);
      && (r == Err(NotUserMessage) <==> !user)
      && (r == Err(TargetNotActive) <==> user && split && !t.active)
      && (r == Err(NotUserOriginated) <==> user && split && t.active && a.live.None?)
      && (r == Err(TargetChanged) <==> user && split && t.active && a.live.Some? && !ContentAsPinned(a))
      && (r == Err(NoHandoff)
          <==> user && a.preserveHandoff && t.active && a.live.Some? && ContentAsPinned(a) && a.handoff.None?)
      && (r.Ok? ==> user && (split ==> t.active && a.live.Some? && ContentAsPinned(a)))
      && (r.Ok? ==> r.value == if a.preserveHandoff then OptionToSeq(a.handoff) else [])
      && (r.Ok? && a.preserveHandoff ==> |r.value| == 1)
  {
    TargetFound(db, sid, a);
    var found := Select(db.rows, WithId(sid, a.target));
    assert t in found && found[0] in found;
    assert found[0] == t;
  }

  // ---------------------------------------------------------------- Pruning

  /** A session a prune may take: selected, ended, and not under a live guard when guards are respected. */
  predicate Prunable(db: Db, m: set<SessionId>, guarded: bool, c: Clock, s: SessionId) {
    s in m && s in db.sessions && db.sessions[s].end.Some? && (guarded ==> !Blocked(db, s, c))
  }

  lemma {:induction false} PruneTakes(db: Db, m: set<SessionId>, guarded: bool, c: Clock)
    ensures var gone := set s | s in db.sessions && Prunable(db, m, guarded, c, s);
      && Prune(db, m, guarded, c).rows == DeleteSessions(db, gone).rows
      && Prune(db, m, guarded, c).sessions == DeleteSessions(db, gone).sessions
  {
    var gone := set s | s in db.sessions && Prunable(db, m, guarded, c, s);
    var candidates := Ended(db, m);
    if guarded {
      assert gone == set s | s in candidates && !Blocked(db, s, c);
    } else {
      assert gone == candidates;
    }
  }

  /** A prune takes exactly the prunable sessions and exactly their messages; no survivor is left with a
      parent that is gone, and only the children of the pruned lose theirs. */
  lemma {:induction false} PruneTakesExactly(db: Db, m: set<SessionId>, guarded: bool, c: Clock)
    requires WellFormed(db)
    ensures var d := Prune(db, m, guarded, c);
      && (forall s :: s in d.sessions <==> s in db.sessions && !Prunable(db, m, guarded, c, s))
      && (forall r :: r in d.rows <==> r in db.rows && r.session in d.sessions)
      && forall s :: s in d.sessions ==>
           d.sessions[s] == if db.sessions[s].parent.Some? && db.sessions[s].parent.value !in d.sessions
                            then db.sessions[s].(parent := None) else db.sessions[s]
  {
    var gone := set s | s in db.sessions && Prunable(db, m, guarded, c, s);
    PruneTakes(db, m, guarded, c);
    SelectMember(db.rows, Unless(InSessions(gone)));
  }
}
