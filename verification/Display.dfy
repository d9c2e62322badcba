/** Collapsing compaction generations for display: each logical message is shown once. */
module Display {
  import opened Lineage
  import opened Rows

  /** What makes two rows the same logical message. */
  datatype Key = Key(
    role: string,
    content: string,
    timestamp: real,
    toolCallId: Option<string>,
    toolCalls: seq<string>,
    toolName: Option<string>)

  /** The live part of a user turn that carries a handoff; None for a turn that does not split. */
  type LiveView = Row -> Option<string>

  function KeyOf(r: Row, live: LiveView): Key {
    var content := if r.msg.role == "user" && live(r).Some? then live(r).value else r.msg.content;
    Key(r.msg.role, content, r.msg.timestamp, r.msg.toolCallId, r.msg.toolCalls, r.msg.toolName)
  }

  /** Later in the order of (active, id). */
  predicate Better(a: Row, b: Row) {
    if a.active == b.active then a.id > b.id else a.active
  }

  /** `id` is the primary key. */
  ghost predicate Identified(rows: seq<Row>) {
    forall a, b :: a in rows && b in rows && a.id == b.id ==> a == b
  }

  /** The row shown for its key: no row with that key is better. */
  ghost predicate Shown(rows: seq<Row>, live: LiveView, r: Row) {
    r in rows && forall q :: q in rows && KeyOf(q, live) == KeyOf(r, live) ==> !Better(q, r)
  }

  /** The projection: exactly the shown rows, in id order. */
  ghost predicate Projects(rows: seq<Row>, live: LiveView, shown: seq<Row>) {
    Ordered(shown) && forall r :: r in shown <==> Shown(rows, live, r)
  }

  /** `seen` after the rows so far: for each of their keys, the best row. */
  ghost predicate BestSoFar(rows: seq<Row>, live: LiveView, seen: map<Key, Row>) {
    && (forall k :: k in seen ==> Shown(rows, live, seen[k]) && KeyOf(seen[k], live) == k)
    && (forall r :: r in rows ==> KeyOf(r, live) in seen)
  }

  lemma OrderedAround(before: seq<Row>, r: Row, after: seq<Row>)
    requires Ordered(before) && Ordered(after)
    requires forall q :: q in before ==> q.id < r.id
    requires forall q :: q in after ==> r.id < q.id
    ensures Ordered(before + [r] + after)
  {
    var s := before + [r] + after;
    forall i, j | 0 <= i < j < |s| ensures s[i].id < s[j].id {
      assert i < |before| ==> s[i] in before;
      assert j > |before| ==> s[j] in after;
    }
  }

  lemma InsertAt(sorted: seq<Row>, r: Row, i: nat)
    requires Ordered(sorted) && i <= |sorted|
    requires forall j :: 0 <= j < i ==> sorted[j].id < r.id
    requires i < |sorted| ==> r.id < sorted[i].id
    ensures Ordered(sorted[..i] + [r] + sorted[i..])
  {
    var before, after := sorted[..i], sorted[i..];
    forall q: Row | q in after ensures r.id < q.id {
      var j :| 0 <= j < |after| && after[j] == q;
      assert after[j] == sorted[i + j];
    }
    OrderedAround(before, r, after);
  }

  lemma InsertBag(sorted: seq<Row>, r: Row, i: nat)
    requires i <= |sorted|
    ensures multiset(sorted[..i] + [r] + sorted[i..]) == multiset(sorted) + multiset{r}
  {
    assert sorted == sorted[..i] + sorted[i..];
  }

  method InsertById(sorted: seq<Row>, r: Row) returns (longer: seq<Row>)
    requires Ordered(sorted) && forall q :: q in sorted ==> q.id != r.id
    ensures Ordered(longer) && multiset(longer) == multiset(sorted) + multiset{r}
  {
    var i := 0;
    while i < |sorted| && sorted[i].id < r.id
      invariant 0 <= i <= |sorted|
      invariant forall j :: 0 <= j < i ==> sorted[j].id < r.id
    {
      i := i + 1;
    }
    assert i < |sorted| ==> sorted[i] in sorted;
    InsertAt(sorted, r, i);
    InsertBag(sorted, r, i);
    return sorted[..i] + [r] + sorted[i..];
  }

  method SortById(values: set<Row>) returns (sorted: seq<Row>)
    requires forall a, b :: a in values && b in values && a.id == b.id ==> a == b
    ensures Ordered(sorted) && forall r :: r in sorted <==> r in values
  {
    sorted := [];
    var todo := values;
    while todo != {}
      invariant todo <= values && Ordered(sorted)
      invariant forall r :: r in multiset(sorted) <==> r in values - todo
      decreases |todo|
    {
      var r :| r in todo;
      assert forall q :: q in sorted ==> q in multiset(sorted);
      sorted := InsertById(sorted, r);
      todo := todo - {r};
    }
    assert forall r :: r in sorted <==> r in multiset(sorted);
  }

  method DedupeDisplayGenerations(rows: seq<Row>, live: LiveView) returns (shown: seq<Row>)
    requires Identified(rows)
    ensures Projects(rows, live, shown)
  {
    var seen: map<Key, Row> := map[];
    var i := 0;
    while i < |rows|
      invariant 0 <= i <= |rows|
      invariant BestSoFar(rows[..i], live, seen)
    {
      var row := rows[i];
      var key := KeyOf(row, live);
      ghost var was := seen;
      assert rows[..i + 1] == rows[..i] + [row];
      if key !in seen || Better(row, seen[key]) {
        seen := seen[key := row];
      }
      forall k | k in seen ensures Shown(rows[..i + 1], live, seen[k]) {
        if k != key {
          assert Shown(rows[..i], live, was[k]);
        }
      }
      i := i + 1;
    }
    assert rows[..i] == rows;
    forall r ensures r in seen.Values <==> Shown(rows, live, r) {
      if Shown(rows, live, r) {
        var best := seen[KeyOf(r, live)];
        assert best in rows && !Better(best, r) && !Better(r, best);
        assert best.id == r.id;
      }
    }
    shown := SortById(seen.Values);
  }

  // ---------------------------------------------------------------- What the projection promises

  lemma {:induction false} BestExists(rows: seq<Row>, live: LiveView, r: Row) returns (best: Row)
    requires Identified(rows) && r in rows
    ensures Shown(rows, live, best) && KeyOf(best, live) == KeyOf(r, live)
    ensures best == r || Better(best, r)
    decreases |rows|
  {
    var init, last := rows[..|rows| - 1], rows[|rows| - 1];
    assert rows == init + [last];
    if r !in init {
      best := last;
      if exists q: Row :: q in init && KeyOf(q, live) == KeyOf(r, live) {
        var q: Row :| q in init && KeyOf(q, live) == KeyOf(r, live);
        var b := BestExists(init, live, q);
        best := if Better(last, b) then last else b;
      }
    } else {
      var b := BestExists(init, live, r);
      best := if KeyOf(last, live) == KeyOf(r, live) && Better(last, b) then last else b;
    }
  }

  /** Each key present in the rows is shown. */
  lemma EveryKeyShown(rows: seq<Row>, live: LiveView, shown: seq<Row>, r: Row) returns (s: Row)
    requires Identified(rows) && Projects(rows, live, shown) && r in rows
    ensures s in shown && KeyOf(s, live) == KeyOf(r, live)
    ensures s == r || Better(s, r)
  {
    s := BestExists(rows, live, r);
  }

  /** No key is shown twice, and nothing is shown that is not a row. */
  lemma NoKeyShownTwice(rows: seq<Row>, live: LiveView, shown: seq<Row>, i: nat, j: nat)
    requires Projects(rows, live, shown)
    requires i < j < |shown|
    ensures KeyOf(shown[i], live) != KeyOf(shown[j], live)
    ensures shown[i] in rows && shown[j] in rows
  {
    assert Shown(rows, live, shown[i]) && Shown(rows, live, shown[j]);
  }

  lemma WithoutLast(a: seq<Row>, r: Row)
    requires Ordered(a) && a != []
    ensures r in a[..|a| - 1] <==> r in a && r != a[|a| - 1]
  {
    if r in a && r != a[|a| - 1] {
      var i :| 0 <= i < |a| && a[i] == r;
      assert a[..|a| - 1][i] == r;
    }
  }

  /** Rows in id order are determined by which rows they are. */
  lemma {:induction false} OrderedByMembers(a: seq<Row>, b: seq<Row>)
    requires Ordered(a) && Ordered(b)
    requires forall r :: r in a <==> r in b
    ensures a == b
    decreases |a|
  {
    assert |a| > 0 ==> a[0] in a;
    assert |b| > 0 ==> b[0] in b;
    if a != [] {
      SameLast(a, b);
      var a', b' := a[..|a| - 1], b[..|b| - 1];
      forall r ensures r in a' <==> r in b' {
        WithoutLast(a, r);
        WithoutLast(b, r);
      }
      OrderedByMembers(a', b');
      assert a == a' + [a[|a| - 1]] && b == b' + [a[|a| - 1]];
    }
  }

  lemma SameLast(a: seq<Row>, b: seq<Row>)
    requires Ordered(a) && Ordered(b) && a != [] && b != []
    requires forall r :: r in a <==> r in b
    ensures a[|a| - 1] == b[|b| - 1]
  {
    assert b[|b| - 1] in a && a[|a| - 1] in b;
    var i :| 0 <= i < |a| && a[i] == b[|b| - 1];
    var j :| 0 <= j < |b| && b[j] == a[|a| - 1];
  }

  /** The projection depends only on which rows there are, not on their order or on repeats. */
  lemma DependsOnlyOnMembers(rows: seq<Row>, others: seq<Row>, live: LiveView, shown: seq<Row>, shown': seq<Row>)
    requires forall r :: r in rows <==> r in others
    requires Projects(rows, live, shown) && Projects(others, live, shown')
    ensures shown == shown'
  {
    forall r ensures Shown(rows, live, r) <==> Shown(others, live, r) {
    }
    OrderedByMembers(shown, shown');
  }

  /** Projecting what is already projected changes nothing. */
  lemma Idempotent(rows: seq<Row>, live: LiveView, shown: seq<Row>, again: seq<Row>)
    requires Projects(rows, live, shown) && Projects(shown, live, again)
    ensures again == shown
  {
    forall r ensures r in again <==> r in shown {
      if r in shown {
        assert Shown(rows, live, r);
        assert Shown(shown, live, r);
      }
    }
    OrderedByMembers(again, shown);
  }

  /** What a row says: the live part of a user turn that carries a handoff, else its content. */
  function Said(r: Row, live: LiveView): string {
    if r.msg.role == "user" then match live(r) { case Some(text) => text case None => r.msg.content }
    else r.msg.content
  }

  /** The same logical message, column by column. */
  predicate SaysTheSame(a: Row, b: Row, live: LiveView) {
    && a.msg.role == b.msg.role && Said(a, live) == Said(b, live) && a.msg.timestamp == b.msg.timestamp
    && a.msg.toolCallId == b.msg.toolCallId && a.msg.toolCalls == b.msg.toolCalls && a.msg.toolName == b.msg.toolName
  }

  /** A row is hidden exactly when another row says the same, column by column, and is live where this one is
      not or is as live and newer: rows that differ in any of these columns are never collapsed. */
  lemma {:induction false} HiddenIff(rows: seq<Row>, live: LiveView, shown: seq<Row>, r: Row)
    requires Projects(rows, live, shown) && r in rows
    ensures r !in shown
      <==> exists q :: q in rows && SaysTheSame(q, r, live)
                       && ((q.active && !r.active) || (q.active == r.active && q.id > r.id))
  {
    assert Shown(rows, live, r) <==> r in shown;
    forall q | q in rows ensures KeyOf(q, live) == KeyOf(r, live) <==> SaysTheSame(q, r, live) {
    }
  }

  /** A live row is hidden only by a newer live row of the same key. */
  lemma LiveRowHiddenByNewer(rows: seq<Row>, live: LiveView, shown: seq<Row>, r: Row)
    requires Identified(rows) && Projects(rows, live, shown)
    requires r in rows && r.active && r !in shown
    ensures exists s :: s in shown && s.active && s.id > r.id && KeyOf(s, live) == KeyOf(r, live)
  {
    var s := EveryKeyShown(rows, live, shown, r);
  }
}
