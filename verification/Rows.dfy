/** Rows of the `messages` table in primary-key order, and the algebra of SELECT and UPDATE on them. */
module Rows {
  import opened Lineage

  /** The stored columns of a message other than its id, session and lifecycle flags.  Tool calls are
      the list-shaped case: an empty list is stored as NULL. */
  datatype Msg = Msg(
    role: string,
    content: string,
    timestamp: real,
    toolCallId: Option<string>,
    toolCalls: seq<string>,
    toolName: Option<string>)

  datatype Row = Row(id: nat, session: SessionId, msg: Msg, active: bool, compacted: bool)

  ghost predicate Ordered(rows: seq<Row>) {
    forall i, j :: 0 <= i < j < |rows| ==> rows[i].id < rows[j].id
  }

  function Select(rows: seq<Row>, p: Row -> bool): seq<Row> {
    if rows == [] then []
    else Select(rows[..|rows| - 1], p) + (if p(rows[|rows| - 1]) then [rows[|rows| - 1]] else [])
  }

  function Update(rows: seq<Row>, u: Row -> Row): seq<Row> {
    seq(|rows|, i requires 0 <= i < |rows| => u(rows[i]))
  }

  function Msgs(rows: seq<Row>): seq<Msg> {
    seq(|rows|, i requires 0 <= i < |rows| => rows[i].msg)
  }

  /** The rows an INSERT of `msgs` adds: consecutive fresh ids, live, not compacted. */
  function NewRows(sid: SessionId, firstId: nat, msgs: seq<Msg>): seq<Row> {
    seq(|msgs|, i requires 0 <= i < |msgs| => Row(firstId + i, sid, msgs[i], true, false))
  }

  function ToolCalls(msgs: seq<Msg>): nat {
    if msgs == [] then 0 else ToolCalls(msgs[..|msgs| - 1]) + |msgs[|msgs| - 1].toolCalls|
  }

  /** The last `n` elements, or all of them when there are fewer; none for a non-positive `n`. */
  function Last<T>(s: seq<T>, n: int): seq<T> {
    if n <= 0 then [] else if n >= |s| then s else s[|s| - n..]
  }

  function InSession(sid: SessionId): Row -> bool {
    (r: Row) => r.session == sid
  }

  function Live(sid: SessionId): Row -> bool {
    (r: Row) => r.session == sid && r.active
  }

  function LiveUpTo(sid: SessionId, w: int): Row -> bool {
    (r: Row) => r.session == sid && r.active && r.id <= w
  }

  function LiveAbove(sid: SessionId, w: int): Row -> bool {
    (r: Row) => r.session == sid && r.active && r.id > w
  }

  function LiveWithin(sid: SessionId, lo: int, hi: int): Row -> bool {
    (r: Row) => r.session == sid && r.active && lo < r.id <= hi
  }

  /** What search and display show: live rows and rows a compaction archived. */
  function Displayed(sid: SessionId): Row -> bool {
    (r: Row) => r.session == sid && (r.active || r.compacted)
  }

  function Ids(rows: seq<Row>): set<nat> {
    set r | r in rows :: r.id
  }

  /** The greatest id among the rows, 0 when there is none. */
  function MaxId(rows: seq<Row>): nat {
    if rows == [] then 0 else rows[|rows| - 1].id
  }

  /** All calls of the messages, one after the other. */
  function CallsOf(msgs: seq<Msg>): seq<string> {
    if msgs == [] then [] else msgs[0].toolCalls + CallsOf(msgs[1..])
  }

  /** The count is of the calls themselves. */
  lemma {:induction false} ToolCallsCounts(msgs: seq<Msg>)
    ensures ToolCalls(msgs) == |CallsOf(msgs)|
  {
    if msgs != [] {
      assert msgs == [msgs[0]] + msgs[1..];
      ToolCallsConcat([msgs[0]], msgs[1..]);
      assert [msgs[0]][..0] == [];
      ToolCallsCounts(msgs[1..]);
    }
  }

  /** A suffix, of the length asked for as far as there is one. */
  lemma LastIsSuffix<T>(s: seq<T>, n: int)
    ensures var m := if n <= 0 then 0 else if n <= |s| then n else |s|;
      |Last(s, n)| == m && s == s[..|s| - m] + Last(s, n)
  {
  }

  // ---------------------------------------------------------------- Algebra of Select

  lemma {:induction false} SelectConcat(a: seq<Row>, b: seq<Row>, p: Row -> bool)
    ensures Select(a + b, p) == Select(a, p) + Select(b, p)
    decreases |b|
  {
    if b == [] {
      assert a + b == a;
    } else {
      var b' := b[..|b| - 1];
      assert (a + b)[..|a + b| - 1] == a + b';
      SelectConcat(a, b', p);
    }
  }

  lemma {:induction false} SelectCongruent(rows: seq<Row>, p: Row -> bool, q: Row -> bool)
    requires forall r :: r in rows ==> p(r) == q(r)
    ensures Select(rows, p) == Select(rows, q)
  {
    if rows != [] {
      assert forall r :: r in rows[..|rows| - 1] ==> r in rows;
      SelectCongruent(rows[..|rows| - 1], p, q);
      assert rows[|rows| - 1] in rows;
    }
  }

  lemma {:induction false} SelectAll(rows: seq<Row>, p: Row -> bool)
    requires forall r :: r in rows ==> p(r)
    ensures Select(rows, p) == rows
  {
    if rows != [] {
      assert forall r :: r in rows[..|rows| - 1] ==> r in rows;
      SelectAll(rows[..|rows| - 1], p);
      assert rows[|rows| - 1] in rows;
      assert rows == rows[..|rows| - 1] + [rows[|rows| - 1]];
    }
  }

  lemma {:induction false} SelectNone(rows: seq<Row>, p: Row -> bool)
    requires forall r :: r in rows ==> !p(r)
    ensures Select(rows, p) == []
  {
    if rows != [] {
      assert forall r :: r in rows[..|rows| - 1] ==> r in rows;
      SelectNone(rows[..|rows| - 1], p);
      assert rows[|rows| - 1] in rows;
    }
  }

  lemma {:induction false} SelectMember(rows: seq<Row>, p: Row -> bool)
    ensures forall r :: r in Select(rows, p) <==> r in rows && p(r)
  {
    if rows != [] {
      SelectMember(rows[..|rows| - 1], p);
      assert rows == rows[..|rows| - 1] + [rows[|rows| - 1]];
    }
  }

  lemma {:induction false} SelectSelect(rows: seq<Row>, p: Row -> bool, q: Row -> bool, pq: Row -> bool)
    requires forall r :: r in rows ==> pq(r) == (p(r) && q(r))
    ensures Select(Select(rows, p), q) == Select(rows, pq)
  {
    if rows != [] {
      var init, last := rows[..|rows| - 1], rows[|rows| - 1];
      assert forall r :: r in init ==> r in rows;
      assert last in rows;
      SelectSelect(init, p, q, pq);
      if p(last) {
        SelectConcat(Select(init, p), [last], q);
        assert [last][..0] == [];
        assert Select([last], q) == if q(last) then [last] else [];
      } else {
        assert Select(rows, p) == Select(init, p);
      }
    }
  }

  lemma {:induction false} SelectOrdered(rows: seq<Row>, p: Row -> bool)
    requires Ordered(rows)
    ensures Ordered(Select(rows, p))
  {
    if rows != [] {
      var init, last := rows[..|rows| - 1], rows[|rows| - 1];
      SelectOrdered(init, p);
      SelectMember(init, p);
      forall k | 0 <= k < |Select(init, p)| ensures Select(init, p)[k].id < last.id {
        assert Select(init, p)[k] in init;
      }
    }
  }

  /** An UPDATE moves through a SELECT when it decides membership row by row. */
  lemma {:induction false} SelectUpdate(rows: seq<Row>, u: Row -> Row, p: Row -> bool, q: Row -> bool)
    requires forall r :: r in rows ==> p(u(r)) == q(r)
    ensures Select(Update(rows, u), p) == Update(Select(rows, q), u)
  {
    if rows != [] {
      var init, last := rows[..|rows| - 1], rows[|rows| - 1];
      assert forall r :: r in init ==> r in rows;
      assert last in rows;
      SelectUpdate(init, u, p, q);
      assert Update(rows, u)[..|rows| - 1] == Update(init, u);
      assert Update(Select(init, q) + [last], u) == Update(Select(init, q), u) + [u(last)];
    }
  }

  /** An UPDATE that touches no selected row and selects no other leaves a SELECT as it was. */
  lemma SelectUntouched(rows: seq<Row>, u: Row -> Row, p: Row -> bool)
    requires forall r :: r in rows ==> p(u(r)) == p(r) && (p(r) ==> u(r) == r)
    ensures Select(Update(rows, u), p) == Select(rows, p)
  {
    SelectUpdate(rows, u, p, p);
    SelectMember(rows, p);
    var s := Select(rows, p);
    forall i | 0 <= i < |s| ensures Update(s, u)[i] == s[i] {
      assert s[i] in s;
    }
    assert Update(s, u) == s;
  }

  lemma {:induction false} UpdateMember(rows: seq<Row>, u: Row -> Row)
    ensures forall r :: r in Update(rows, u) <==> exists q :: q in rows && u(q) == r
  {
    forall r | r in Update(rows, u) ensures exists q :: q in rows && u(q) == r {
      var i :| 0 <= i < |rows| && Update(rows, u)[i] == r;
      assert rows[i] in rows && u(rows[i]) == r;
    }
    forall r, q | q in rows && u(q) == r ensures r in Update(rows, u) {
      var i :| 0 <= i < |rows| && rows[i] == q;
      assert Update(rows, u)[i] == r;
    }
  }

  lemma {:induction false} ToolCallsConcat(a: seq<Msg>, b: seq<Msg>)
    ensures ToolCalls(a + b) == ToolCalls(a) + ToolCalls(b)
    decreases |b|
  {
    if b == [] {
      assert a + b == a;
    } else {
      assert (a + b)[..|a + b| - 1] == a + b[..|b| - 1];
      ToolCallsConcat(a, b[..|b| - 1]);
    }
  }

  lemma MsgsOfNewRows(sid: SessionId, firstId: nat, msgs: seq<Msg>)
    ensures Msgs(NewRows(sid, firstId, msgs)) == msgs
  {
  }

  lemma NewRowsConcat(sid: SessionId, firstId: nat, a: seq<Msg>, b: seq<Msg>)
    ensures NewRows(sid, firstId, a + b) == NewRows(sid, firstId, a) + NewRows(sid, firstId + |a|, b)
  {
  }

  /** Live rows split at a watermark into those at or below it and those above it, in that order. */
  lemma {:induction false} SplitAtWatermark(rows: seq<Row>, sid: SessionId, w: int)
    requires Ordered(rows)
    ensures Select(rows, Live(sid)) == Select(rows, LiveUpTo(sid, w)) + Select(rows, LiveAbove(sid, w))
  {
    if rows != [] {
      var init, last := rows[..|rows| - 1], rows[|rows| - 1];
      assert Ordered(init);
      SplitAtWatermark(init, sid, w);
      if Live(sid)(last) && last.id <= w {
        forall r | r in init ensures !LiveAbove(sid, w)(r) {
          var i :| 0 <= i < |init| && init[i] == r;
          assert rows[i].id < rows[|rows| - 1].id;
        }
        SelectNone(init, LiveAbove(sid, w));
      }
    }
  }
}
