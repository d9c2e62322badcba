/** What a compaction does to a session: which rows are live afterwards, and what display still shows. */
module Conservation {
  import opened Lineage
  import opened Rows
  import opened Transcript

  /** The selected messages, with multiplicity. */
  ghost function Bag(rows: seq<Row>, p: Row -> bool): multiset<Msg> {
    multiset(Msgs(Select(rows, p)))
  }

  /** The displayed messages of a session, with multiplicity. */
  ghost function DisplayBag(rows: seq<Row>, sid: SessionId): multiset<Msg> {
    Bag(rows, Displayed(sid))
  }

  lemma BagOfLast(init: seq<Row>, last: Row, p: Row -> bool)
    ensures Bag(init + [last], p) == Bag(init, p) + One(last, p)
  {
    assert (init + [last])[..|init|] == init;
    if p(last) {
      assert Msgs(Select(init, p) + [last]) == Msgs(Select(init, p)) + [last.msg];
    } else {
      assert Select(init, p) + [] == Select(init, p);
    }
  }

  function LiveIn(sid: SessionId, ids: set<nat>): Row -> bool {
    (r: Row) => r.session == sid && r.active && r.id in ids
  }

  lemma MsgsConcat(a: seq<Row>, b: seq<Row>)
    ensures Msgs(a + b) == Msgs(a) + Msgs(b)
  {
  }

  lemma LiveAreSeenThenTail(rows: seq<Row>, sid: SessionId, w: Option<int>)
    requires Ordered(rows)
    ensures Select(rows, Live(sid)) == Seen(rows, sid, w) + ConcurrentTail(rows, sid, w)
  {
    if w.Some? {
      SplitAtWatermark(rows, sid, w.value);
    }
  }

  lemma SuffixById(rest: seq<Row>, kept: seq<Row>, p: Row -> bool)
    requires Ordered(rest + kept)
    requires forall r: Row :: p(r) == (r.id in Ids(kept))
    ensures Select(rest + kept, p) == kept
  {
    forall r: Row | r in rest ensures !p(r) {
      var i :| 0 <= i < |rest| && rest[i] == r;
      forall q: Row | q in kept ensures q.id != r.id {
        var j :| 0 <= j < |kept| && kept[j] == q;
        assert (rest + kept)[i] == r && (rest + kept)[|rest| + j] == q;
      }
    }
    SelectNone(rest, p);
    SelectAll(kept, p);
    SelectConcat(rest, kept, p);
  }

  lemma IdsConcat(a: seq<Row>, b: seq<Row>)
    ensures Ids(a + b) == Ids(a) + Ids(b)
  {
    assert forall r :: r in a + b <==> r in a || r in b;
  }

  /** The superseded rows are the carried tail followed by the concurrent tail. */
  lemma SupersededRows(rows: seq<Row>, sid: SessionId, w: Option<int>, n: int)
    requires Ordered(rows)
    ensures Select(rows, LiveIn(sid, Superseded(rows, sid, w, n)))
         == Last(Seen(rows, sid, w), n) + ConcurrentTail(rows, sid, w)
  {
    var ids := Superseded(rows, sid, w, n);
    var inIds := (r: Row) => r.id in ids;
    SelectSelect(rows, Live(sid), inIds, LiveIn(sid, ids));
    SupersededOfLive(Seen(rows, sid, w), ConcurrentTail(rows, sid, w), n, inIds) by {
      LiveAreSeenThenTail(rows, sid, w);
      SelectOrdered(rows, Live(sid));
    }
    LiveAreSeenThenTail(rows, sid, w);
  }

  lemma SupersededOfLive(seen: seq<Row>, tail: seq<Row>, n: int, p: Row -> bool)
    requires Ordered(seen + tail)
    requires forall r: Row :: p(r) == (r.id in Ids(Last(seen, n)) + Ids(tail))
    ensures Select(seen + tail, p) == Last(seen, n) + tail
  {
    LastIsSuffix(seen, n);
    var rest, kept := seen[..|seen| - |Last(seen, n)|], Last(seen, n) + tail;
    assert seen + tail == rest + kept;
    IdsConcat(Last(seen, n), tail);
    SuffixById(rest, kept, p);
  }

  ghost function One(r: Row, p: Row -> bool): multiset<Msg> {
    if p(r) then multiset{r.msg} else multiset{}
  }

  lemma ArchiveOne(r: Row, sid: SessionId, ids: set<nat>)
    ensures One(Archive(sid, ids)(r), Displayed(sid)) + One(r, LiveIn(sid, ids)) == One(r, Displayed(sid))
  {
    var none: multiset<Msg> := multiset{};
    var a := Archive(sid, ids)(r);
    assert a.msg == r.msg;
    if Live(sid)(r) {
      assert a == r.(active := false, compacted := r.id !in ids);
      assert One(a, Displayed(sid)) == if r.id in ids then none else multiset{r.msg};
      assert One(r, LiveIn(sid, ids)) == if r.id in ids then multiset{r.msg} else none;
    } else {
      assert a == r && One(r, LiveIn(sid, ids)) == none;
    }
  }

  lemma AddBags<T>(a: multiset<T>, b: multiset<T>, c: multiset<T>, x: multiset<T>, y: multiset<T>, z: multiset<T>)
    requires a + b == c && x + y == z
    ensures (a + x) + (b + y) == c + z
  {
  }

  lemma {:induction false} ArchiveNext(init: seq<Row>, last: Row, now: seq<Row>, sid: SessionId, ids: set<nat>)
    requires DisplayBag(now, sid) + Bag(init, LiveIn(sid, ids)) == DisplayBag(init, sid)
    ensures DisplayBag(now + [Archive(sid, ids)(last)], sid) + Bag(init + [last], LiveIn(sid, ids))
         == DisplayBag(init + [last], sid)
  {
    var r := Archive(sid, ids)(last);
    BagOfLast(now, r, Displayed(sid));
    BagOfLast(init, last, Displayed(sid));
    BagOfLast(init, last, LiveIn(sid, ids));
    ArchiveOne(last, sid, ids);
    AddBags(DisplayBag(now, sid), Bag(init, LiveIn(sid, ids)), DisplayBag(init, sid),
            One(r, Displayed(sid)), One(last, LiveIn(sid, ids)), One(last, Displayed(sid)));
  }

  /** Archiving hides the superseded rows from display and keeps every other displayed message. */
  lemma {:induction false} ArchiveHidesSuperseded(rows: seq<Row>, sid: SessionId, ids: set<nat>)
    ensures DisplayBag(Update(rows, Archive(sid, ids)), sid) + Bag(rows, LiveIn(sid, ids)) == DisplayBag(rows, sid)
  {
    if rows != [] {
      var init, last := rows[..|rows| - 1], rows[|rows| - 1];
      var now := Update(init, Archive(sid, ids));
      ArchiveHidesSuperseded(init, sid, ids);
      ArchiveNext(init, last, now, sid, ids);
      assert rows == init + [last];
      assert Update(rows, Archive(sid, ids)) == now + [Archive(sid, ids)(last)];
    }
  }

  /** The foreign key admits the inserts of a compaction: the session exists, or there is nothing to insert. */
  predicate Admits(db: Db, sid: SessionId, compacted: seq<Msg>, w: Option<int>) {
    sid in db.sessions || (compacted == [] && ConcurrentTail(db.rows, sid, w) == [])
  }

  lemma AdmitsIff(db: Db, sid: SessionId, compacted: seq<Msg>, w: Option<int>, n: int)
    ensures CompactRows(db, sid, compacted, w, n).Ok? <==> Admits(db, sid, compacted, w)
  {
    assert compacted + Msgs(ConcurrentTail(db.rows, sid, w)) == [] <==>
      compacted == [] && ConcurrentTail(db.rows, sid, w) == [];
  }

  /** The rows a compaction leaves: the old ones archived, then the fresh ones. */
  lemma {:induction false} CompactedRows(db: Db, sid: SessionId, compacted: seq<Msg>, w: Option<int>, n: int)
    requires Admits(db, sid, compacted, w)
    ensures CompactRows(db, sid, compacted, w, n).Ok?
    ensures CompactRows(db, sid, compacted, w, n).value.rows
         == Update(db.rows, Archive(sid, Superseded(db.rows, sid, w, n)))
            + NewRows(sid, db.nextId, compacted + Msgs(ConcurrentTail(db.rows, sid, w)))
  {
    AdmitsIff(db, sid, compacted, w, n);
    var old' := Update(db.rows, Archive(sid, Superseded(db.rows, sid, w, n)));
    assert old' + [] == old';
  }

  lemma NoneLiveOnceArchived(rows: seq<Row>, sid: SessionId, ids: set<nat>)
    ensures Select(Update(rows, Archive(sid, ids)), Live(sid)) == []
  {
    UpdateMember(rows, Archive(sid, ids));
    SelectNone(Update(rows, Archive(sid, ids)), Live(sid));
  }

  /** After a compaction the live rows are the compacted messages followed by copies, equal in every
      column but the id, of the live rows above the watermark, all under fresh ids. */
  lemma {:induction false} LiveAfterCompaction(db: Db, sid: SessionId, compacted: seq<Msg>, w: Option<int>, n: int)
    requires Admits(db, sid, compacted, w)
    ensures CompactRows(db, sid, compacted, w, n).Ok?
    ensures var d := CompactRows(db, sid, compacted, w, n).value;
      && Select(d.rows, Live(sid)) == NewRows(sid, db.nextId, compacted + Msgs(ConcurrentTail(db.rows, sid, w)))
      && Msgs(Select(d.rows, Live(sid))) == compacted + Msgs(ConcurrentTail(db.rows, sid, w))
  {
    var ids := Superseded(db.rows, sid, w, n);
    var all := compacted + Msgs(ConcurrentTail(db.rows, sid, w));
    CompactedRows(db, sid, compacted, w, n);
    NoneLiveOnceArchived(db.rows, sid, ids);
    LiveOfFresh(Update(db.rows, Archive(sid, ids)), sid, db.nextId, all);
  }

  lemma LiveOfFresh(rows: seq<Row>, sid: SessionId, id: nat, all: seq<Msg>)
    requires Select(rows, Live(sid)) == []
    ensures Select(rows + NewRows(sid, id, all), Live(sid)) == NewRows(sid, id, all)
    ensures Msgs(NewRows(sid, id, all)) == all
  {
    var added := NewRows(sid, id, all);
    SelectAll(added, Live(sid));
    SelectConcat(rows, added, Live(sid));
    MsgsOfNewRows(sid, id, all);
    assert [] + added == added;
  }

  lemma DisplayOfFresh(rows: seq<Row>, sid: SessionId, id: nat, all: seq<Msg>)
    ensures DisplayBag(rows + NewRows(sid, id, all), sid) == DisplayBag(rows, sid) + multiset(all)
  {
    var fresh' := NewRows(sid, id, all);
    SelectAll(fresh', Displayed(sid));
    SelectConcat(rows, fresh', Displayed(sid));
    MsgsConcat(Select(rows, Displayed(sid)), fresh');
    MsgsOfNewRows(sid, id, all);
  }

  /** What archiving hides: the carried tail and the concurrent tail. */
  lemma HiddenByArchiving(rows: seq<Row>, sid: SessionId, w: Option<int>, n: int)
    requires Ordered(rows)
    ensures Bag(rows, LiveIn(sid, Superseded(rows, sid, w, n)))
         == multiset(Msgs(Last(Seen(rows, sid, w), n))) + multiset(Msgs(ConcurrentTail(rows, sid, w)))
  {
    SupersededRows(rows, sid, w, n);
    MsgsConcat(Last(Seen(rows, sid, w), n), ConcurrentTail(rows, sid, w));
  }

  /** The conservation law, for every watermark and tail count: display gains the compacted messages and
      loses exactly the carried originals. */
  lemma DisplayAfterCompaction(db: Db, sid: SessionId, compacted: seq<Msg>, w: Option<int>, n: int)
    requires Ordered(db.rows)
    requires Admits(db, sid, compacted, w)
    ensures CompactRows(db, sid, compacted, w, n).Ok?
    ensures var d := CompactRows(db, sid, compacted, w, n).value;
      DisplayBag(d.rows, sid) + multiset(Msgs(Last(Seen(db.rows, sid, w), n)))
      == DisplayBag(db.rows, sid) + multiset(compacted)
  {
    var ids := Superseded(db.rows, sid, w, n);
    var tail := Msgs(ConcurrentTail(db.rows, sid, w));
    var old' := Update(db.rows, Archive(sid, ids));
    CompactedRows(db, sid, compacted, w, n);
    ArchiveHidesSuperseded(db.rows, sid, ids);
    HiddenByArchiving(db.rows, sid, w, n);
    DisplayOfFresh(old', sid, db.nextId, compacted + tail);
    Balance(DisplayBag(old', sid), DisplayBag(db.rows, sid), multiset(Msgs(Last(Seen(db.rows, sid, w), n))), tail,
            compacted);
  }

  lemma Balance<T>(left: multiset<T>, before: multiset<T>, carried: multiset<T>, tail: seq<T>, compacted: seq<T>)
    requires left + (carried + multiset(tail)) == before
    ensures (left + multiset(compacted + tail)) + carried == before + multiset(compacted)
  {
    assert multiset(compacted + tail) == multiset(compacted) + multiset(tail);
  }

  /** Nothing is shown twice and nothing is lost, exactly when the last `n` compacted messages are the
      last `n` messages the compressor saw (up to order): display then grows by the other compacted
      messages and by nothing else. */
  lemma NothingLostNothingDoubledIff(db: Db, sid: SessionId, compacted: seq<Msg>, w: Option<int>, n: int)
    requires Ordered(db.rows)
    requires Admits(db, sid, compacted, w)
    ensures CompactRows(db, sid, compacted, w, n).Ok?
    ensures var d := CompactRows(db, sid, compacted, w, n).value;
      var summary := compacted[..|compacted| - |Last(compacted, n)|];
      DisplayBag(d.rows, sid) == DisplayBag(db.rows, sid) + multiset(summary)
      <==> multiset(Last(compacted, n)) == multiset(Msgs(Last(Seen(db.rows, sid, w), n)))
  {
    DisplayAfterCompaction(db, sid, compacted, w, n);
    LastIsSuffix(compacted, n);
    var summary := compacted[..|compacted| - |Last(compacted, n)|];
    assert multiset(summary + Last(compacted, n)) == multiset(summary) + multiset(Last(compacted, n));
    Cancel(DisplayBag(CompactRows(db, sid, compacted, w, n).value.rows, sid),
           DisplayBag(db.rows, sid) + multiset(summary),
           multiset(Last(compacted, n)), multiset(Msgs(Last(Seen(db.rows, sid, w), n))));
  }

  lemma Cancel<T>(after: multiset<T>, before: multiset<T>, c: multiset<T>, x: multiset<T>)
    requires after + x == before + c
    ensures after == before <==> c == x
  {
    assert c == (before + c) - before && x == (after + x) - after;
    assert before == (before + c) - c && after == (after + x) - x;
  }

  /** No physical row goes away, and rows that were not live, or belong to another session, do not change. */
  lemma {:induction false} NoRowDeleted(db: Db, sid: SessionId, compacted: seq<Msg>, w: Option<int>, n: int)
    requires Admits(db, sid, compacted, w)
    ensures CompactRows(db, sid, compacted, w, n).Ok?
    ensures var d := CompactRows(db, sid, compacted, w, n).value;
      && |db.rows| <= |d.rows|
      && (forall i :: 0 <= i < |db.rows| ==>
            d.rows[i].id == db.rows[i].id && d.rows[i].session == db.rows[i].session && d.rows[i].msg == db.rows[i].msg)
      && (forall i :: 0 <= i < |db.rows| && !Live(sid)(db.rows[i]) ==> d.rows[i] == db.rows[i])
  {
  }
}
