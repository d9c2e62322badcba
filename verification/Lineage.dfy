/** Session rows, compression lineage and the conversation key that turn leases are stored under. */
module Lineage {

  type SessionId = string

  datatype Option<+T> = None | Some(value: T)

  /** The columns of a `sessions` row that lineage, leases and counters depend on.  `end` is the end
      reason of an ended session: every writer stamps and clears `ended_at` and `end_reason` together.
      `branchedFrom` and `delegateFrom` are the two fork markers kept in `model_config`. */
  datatype Session = Session(
    parent: Option<SessionId>,
    source: string,
    branchedFrom: Option<SessionId>,
    delegateFrom: Option<SessionId>,
    end: Option<string>,
    messageCount: int,
    toolCallCount: int,
    rewindCount: int,
    born: nat)

  type Sessions = map<SessionId, Session>

  predicate EndedByCompression(s: Session) {
    s.end == Some("compression")
  }

  /** A branch, delegate or tool child.  A marker only counts when it names this row's own parent:
      compression copies `model_config` onto the continuation, so a copied marker is not a fork. */
  predicate IsForkChild(s: Session) {
    || s.source == "tool"
    || (if s.parent.Some? && s.parent.value != ""
        then s.parent == s.branchedFrom || s.parent == s.delegateFrom
        else s.branchedFrom.Some? || s.delegateFrom.Some?)
  }

  /** One step towards the root of a conversation: the parent, when `sid` continues it. */
  function Up(ss: Sessions, sid: SessionId): Option<SessionId> {
    if sid !in ss then None
    else
      var s := ss[sid];
      if s.parent.None? || s.parent.value == "" || IsForkChild(s) then None
      else if s.parent.value !in ss || !EndedByCompression(ss[s.parent.value]) then None
      else s.parent
  }

  /** The walk towards the root.  It stops at the first row it has already visited, so it ends on
      every parent graph. */
  function Walk(ss: Sessions, current: SessionId, seen: set<SessionId>): SessionId
    decreases |ss.Keys - seen|
  {
    var up := Up(ss, current);
    if up.None? || up.value in seen then current
    else
      assert up.value in ss.Keys - seen;
      assert ss.Keys - (seen + {up.value}) < ss.Keys - seen;
      SmallerSet(ss.Keys - (seen + {up.value}), ss.Keys - seen);
      Walk(ss, up.value, seen + {up.value})
  }

  lemma SmallerSet<T>(a: set<T>, b: set<T>)
    requires a < b
    ensures |a| < |b|
  {
    var d := b - a;
    assert b == a + d && a !! d;
    assert |b| == |a| + |d|;
    assert d != {};
  }

  /** The conversation key of a session. */
  function LeaseKey(ss: Sessions, sid: SessionId): SessionId {
    if sid == "" then sid else Walk(ss, sid, {sid})
  }

  // ---------------------------------------------------------------- The walk, independently

  /** Ranks witness that following `Up` never returns to a row. */
  ghost predicate RankedBy(ss: Sessions, rank: map<SessionId, nat>) {
    forall s :: s in ss && Up(ss, s).Some? ==>
      s in rank && Up(ss, s).value in rank && rank[Up(ss, s).value] < rank[s]
  }

  ghost predicate Acyclic(ss: Sessions) {
    exists rank: map<SessionId, nat> :: RankedBy(ss, rank)
  }

  function RankOf(rank: map<SessionId, nat>, s: SessionId): nat {
    if s in rank then rank[s] else 0
  }

  /** The root of a conversation, without any record of visited rows. */
  ghost function Root(ss: Sessions, sid: SessionId, rank: map<SessionId, nat>): SessionId
    requires RankedBy(ss, rank)
    decreases RankOf(rank, sid)
  {
    match Up(ss, sid)
    case None => sid
    case Some(p) => Root(ss, p, rank)
  }

  /** Going up never revisits a row of higher rank, so the visited set does not change the answer. */
  lemma {:induction false} WalkIsRoot(ss: Sessions, current: SessionId, seen: set<SessionId>, rank: map<SessionId, nat>)
    requires RankedBy(ss, rank)
    requires forall s :: s in seen ==> s == current || (s in rank && RankOf(rank, current) < rank[s])
    ensures Walk(ss, current, seen) == Root(ss, current, rank)
    decreases RankOf(rank, current)
  {
    match Up(ss, current)
    case None =>
    case Some(p) =>
      assert p !in seen;
      WalkIsRoot(ss, p, seen + {p}, rank);
  }

  lemma KeyIsRoot(ss: Sessions, sid: SessionId, rank: map<SessionId, nat>)
    requires RankedBy(ss, rank)
    requires sid != ""
    ensures LeaseKey(ss, sid) == Root(ss, sid, rank)
  {
    WalkIsRoot(ss, sid, {sid}, rank);
  }

  lemma {:induction false} RootHasNoUp(ss: Sessions, sid: SessionId, rank: map<SessionId, nat>)
    requires RankedBy(ss, rank)
    ensures Up(ss, Root(ss, sid, rank)).None?
    ensures sid != "" ==> Root(ss, sid, rank) != ""
    decreases RankOf(rank, sid)
  {
    match Up(ss, sid)
    case None =>
    case Some(p) => RootHasNoUp(ss, p, rank);
  }

  // ---------------------------------------------------------------- What the key promises

  /** Both ends of one compression step have the same key. */
  lemma KeyOfParent(ss: Sessions, sid: SessionId)
    requires Acyclic(ss)
    requires Up(ss, sid).Some? && sid != ""
    ensures LeaseKey(ss, sid) == LeaseKey(ss, Up(ss, sid).value)
  {
    var rank :| RankedBy(ss, rank);
    KeyIsRoot(ss, sid, rank);
    KeyIsRoot(ss, Up(ss, sid).value, rank);
  }

  /** The one step up, on the columns: to a non-empty parent that compression closed, from a row that is no
      tool session and neither of whose markers names that parent. */
  lemma UpOnColumns(ss: Sessions, sid: SessionId, p: SessionId)
    ensures Up(ss, sid) == Some(p)
      <==> && sid in ss && p != "" && p in ss && ss[p].end == Some("compression")
           && ss[sid].parent == Some(p) && ss[sid].source != "tool"
           && ss[sid].branchedFrom != Some(p) && ss[sid].delegateFrom != Some(p)
  {
  }

  /** A tool session, and a row that either marker makes a fork of its own parent, is a conversation of its
      own, whatever became of the parent; so is a row without a parent, with a missing one or with one that
      compression did not close. */
  lemma OwnConversation(ss: Sessions, sid: SessionId)
    requires sid in ss
    requires || ss[sid].source == "tool" || ss[sid].parent.None? || ss[sid].parent == Some("")
             || ss[sid].branchedFrom == ss[sid].parent || ss[sid].delegateFrom == ss[sid].parent
             || ss[sid].parent.value !in ss || ss[ss[sid].parent.value].end != Some("compression")
    ensures LeaseKey(ss, sid) == sid
  {
    if p: SessionId :| Up(ss, sid) == Some(p) {
      UpOnColumns(ss, sid, p);
    }
  }

  /** Every other row has the key of its parent, copied markers that name another session or not. */
  lemma {:induction false} ContinuationSharesKey(ss: Sessions, sid: SessionId, p: SessionId)
    requires Acyclic(ss) && sid in ss && sid != "" && p != "" && ss[sid].parent == Some(p)
    requires ss[sid].source != "tool" && ss[sid].branchedFrom != Some(p) && ss[sid].delegateFrom != Some(p)
    requires p in ss && ss[p].end == Some("compression")
    ensures LeaseKey(ss, sid) == LeaseKey(ss, p)
  {
    UpOnColumns(ss, sid, p);
    KeyOfParent(ss, sid);
  }

  /** A marker without a parent makes a fork too, and with one only a marker that names it does. */
  lemma MarkersBindToParent(s: Session)
    requires s.source != "tool"
    ensures s.parent.None? || s.parent == Some("") ==>
      (IsForkChild(s) <==> s.branchedFrom != None || s.delegateFrom != None)
    ensures s.parent.Some? && s.parent != Some("") ==>
      (IsForkChild(s) <==> s.parent in {s.branchedFrom, s.delegateFrom})
  {
  }

  /** Every segment of a compression chain, however long, has the key of its first segment. */
  ghost predicate IsChain(ss: Sessions, chain: seq<SessionId>) {
    && (forall i :: 0 <= i < |chain| ==> chain[i] != "")
    && forall i :: 0 <= i < |chain| - 1 ==> Up(ss, chain[i + 1]) == Some(chain[i])
  }

  lemma {:induction false} ChainSharesKey(ss: Sessions, chain: seq<SessionId>, i: nat)
    requires Acyclic(ss) && IsChain(ss, chain) && i < |chain|
    ensures LeaseKey(ss, chain[i]) == LeaseKey(ss, chain[0])
  {
    if i > 0 {
      assert Up(ss, chain[i - 1 + 1]) == Some(chain[i - 1]);
      KeyOfParent(ss, chain[i]);
      ChainSharesKey(ss, chain, i - 1);
    }
  }

  /** The walk never returns to a row it has left. */
  lemma {:induction false} WalkAvoidsSeen(ss: Sessions, current: SessionId, seen: set<SessionId>, s: SessionId)
    requires s in seen && s != current
    ensures Walk(ss, current, seen) != s
    decreases |ss.Keys - seen|
  {
    var up := Up(ss, current);
    if up.Some? && up.value !in seen {
      assert ss.Keys - (seen + {up.value}) < ss.Keys - seen;
      SmallerSet(ss.Keys - (seen + {up.value}), ss.Keys - seen);
      WalkAvoidsSeen(ss, up.value, seen + {up.value}, s);
    }
  }

  /** `n` steps up from a session; a row that continues nothing stays where it is. */
  ghost function Climb(ss: Sessions, sid: SessionId, n: nat): SessionId {
    if n == 0 then sid
    else
      var q := Climb(ss, sid, n - 1);
      if Up(ss, q).Some? then Up(ss, q).value else q
  }

  /** Nothing above: no session, a row that continues none, or a row that continues itself. */
  predicate IsTop(ss: Sessions, s: SessionId) {
    s == "" || Up(ss, s).None? || Up(ss, s) == Some(s)
  }

  ghost predicate TopAfter(ss: Sessions, s: SessionId, n: nat) {
    IsTop(ss, Climb(ss, s, n)) && forall m: nat :: m < n ==> !IsTop(ss, Climb(ss, s, m))
  }

  lemma {:induction false} ClimbFromUp(ss: Sessions, s: SessionId, n: nat)
    requires Up(ss, s).Some?
    ensures Climb(ss, Up(ss, s).value, n) == Climb(ss, s, n + 1)
  {
    if n > 0 {
      ClimbFromUp(ss, s, n - 1);
    }
  }

  lemma {:induction false} LeastTop(ss: Sessions, s: SessionId, n: nat) returns (m: nat)
    requires IsTop(ss, Climb(ss, s, n))
    ensures TopAfter(ss, s, m)
  {
    if k: nat :| k < n && IsTop(ss, Climb(ss, s, k)) {
      m := LeastTop(ss, s, k);
    } else {
      m := n;
    }
  }

  /** The walk only ever climbs. */
  lemma {:induction false} WalkClimbs(ss: Sessions, current: SessionId, seen: set<SessionId>) returns (n: nat)
    ensures Walk(ss, current, seen) == Climb(ss, current, n)
    decreases |ss.Keys - seen|
  {
    var up := Up(ss, current);
    if up.None? || up.value in seen {
      n := 0;
    } else {
      assert ss.Keys - (seen + {up.value}) < ss.Keys - seen;
      SmallerSet(ss.Keys - (seen + {up.value}), ss.Keys - seen);
      var m := WalkClimbs(ss, up.value, seen + {up.value});
      ClimbFromUp(ss, current, m);
      n := m + 1;
    }
  }

  /** Where the climb ends, the visited rows are all farther from the top, so they never stop the walk. */
  lemma {:induction false} WalkReachesTop(ss: Sessions, current: SessionId, seen: set<SessionId>, n: nat)
    requires current != "" && current in seen && TopAfter(ss, current, n)
    requires forall s :: s in seen ==> s == current || exists m: nat :: m > n && TopAfter(ss, s, m)
    ensures Walk(ss, current, seen) == Climb(ss, current, n)
    decreases n
  {
    if n == 0 {
      assert IsTop(ss, Climb(ss, current, 0));
    } else {
      assert !IsTop(ss, Climb(ss, current, 0));
      var up := Up(ss, current).value;
      ClimbFromUp(ss, current, n - 1);
      forall m: nat | m < n - 1 ensures !IsTop(ss, Climb(ss, up, m)) {
        ClimbFromUp(ss, current, m);
      }
      assert TopAfter(ss, up, n - 1);
      assert up !in seen;
      assert TopAfter(ss, current, n);
      WalkReachesTop(ss, up, seen + {up}, n - 1);
    }
  }

  lemma KeyIsOwnKeyAtTop(ss: Sessions, sid: SessionId)
    ensures var k := LeaseKey(ss, sid); LeaseKey(ss, k) == k <==> IsTop(ss, k)
  {
    var k := LeaseKey(ss, sid);
    if k != "" {
      var up := Up(ss, k);
      if up.Some? && up.value != k {
        WalkAvoidsSeen(ss, up.value, {k} + {up.value}, k);
      }
    }
  }

  ghost predicate ClimbStops(ss: Sessions, sid: SessionId) {
    exists n: nat :: IsTop(ss, Climb(ss, sid, n))
  }

  /** A climb that stops makes the key its top, and a key at the top shows that it stops. */
  lemma {:induction false} KeyIsTopIff(ss: Sessions, sid: SessionId)
    ensures IsTop(ss, LeaseKey(ss, sid)) <==> ClimbStops(ss, sid)
  {
    if sid == "" {
      assert Climb(ss, sid, 0) == sid;
      assert IsTop(ss, Climb(ss, sid, 0));
    } else {
      var m := WalkClimbs(ss, sid, {sid});
      assert LeaseKey(ss, sid) == Climb(ss, sid, m);
      if n: nat :| IsTop(ss, Climb(ss, sid, n)) {
        var least := LeastTop(ss, sid, n);
        WalkReachesTop(ss, sid, {sid}, least);
      }
    }
  }

  /** On any parent graph, cyclic ones included, the key of a session is its own key exactly when climbing
      from the session ever stops. */
  lemma {:induction false} KeyIdempotentIff(ss: Sessions, sid: SessionId)
    ensures LeaseKey(ss, LeaseKey(ss, sid)) == LeaseKey(ss, sid) <==> ClimbStops(ss, sid)
  {
    KeyIsOwnKeyAtTop(ss, sid);
    KeyIsTopIff(ss, sid);
  }

  lemma KeyIdempotentWhenAcyclic(ss: Sessions, sid: SessionId)
    requires Acyclic(ss)
    ensures LeaseKey(ss, LeaseKey(ss, sid)) == LeaseKey(ss, sid)
  {
    if sid != "" {
      var rank :| RankedBy(ss, rank);
      KeyIsRoot(ss, sid, rank);
      RootHasNoUp(ss, sid, rank);
      KeyIsRoot(ss, LeaseKey(ss, sid), rank);
    }
  }

  /** Two closed sessions that are each other's parent: the key of either is the other. */
  lemma KeyOnCycleNotIdempotent()
    ensures exists ss: Sessions, sid :: LeaseKey(ss, LeaseKey(ss, sid)) != LeaseKey(ss, sid)
  {
    var a := Session(Some("b"), "cli", None, None, Some("compression"), 0, 0, 0, 0);
    var b := Session(Some("a"), "cli", None, None, Some("compression"), 0, 0, 0, 1);
    var ss: Sessions := map["a" := a, "b" := b];
    assert Up(ss, "a") == Some("b") && Up(ss, "b") == Some("a");
    assert LeaseKey(ss, "a") == Walk(ss, "b", {"a"} + {"b"}) == "b";
    assert LeaseKey(ss, LeaseKey(ss, "a")) == Walk(ss, "a", {"b"} + {"a"}) == "a";
  }

  /** Ranks from the order in which rows were inserted. */
  ghost predicate BirthOrdered(ss: Sessions) {
    forall s :: s in ss && ss[s].parent.Some? ==>
      ss[s].parent.value in ss && ss[ss[s].parent.value].born < ss[s].born
  }

  lemma BirthOrderedIsAcyclic(ss: Sessions)
    requires BirthOrdered(ss)
    ensures Acyclic(ss)
  {
    var rank := map s | s in ss :: ss[s].born;
    assert RankedBy(ss, rank);
  }

  // ---------------------------------------------------------------- Walking forward

  /** A child the forward walk may take: it continues a closed parent and carries no fork marker at all. */
  predicate Follows(ss: Sessions, parent: SessionId, child: SessionId) {
    && child in ss && parent in ss && EndedByCompression(ss[parent])
    && ss[child].parent == Some(parent)
    && ss[child].branchedFrom.None? && ss[child].delegateFrom.None? && ss[child].source != "tool"
  }

  /** A query for the preferred continuation: whatever its order of preference, it answers with a
      continuation when there is one. */
  ghost predicate Prefers(ss: Sessions, pick: SessionId -> Option<SessionId>) {
    forall p ::
      if pick(p).Some? then Follows(ss, p, pick(p).value) else forall c :: c in ss ==> !Follows(ss, p, c)
  }

  const CHAIN_BOUND := 100

  /** On the columns: the parent was closed by compression, and the child carries no marker at all. */
  predicate NextSegment(ss: Sessions, parent: SessionId, child: SessionId) {
    && parent in ss && child in ss && ss[parent].end == Some("compression") && ss[child].parent == Some(parent)
    && ss[child].branchedFrom == None && ss[child].delegateFrom == None && ss[child].source != "tool"
  }

  /** From a session forward through its continuations, at most a hundred of them and none twice. */
  method GetCompressionChain(ss: Sessions, sid: SessionId, pick: SessionId -> Option<SessionId>)
    returns (chain: seq<SessionId>)
    requires Prefers(ss, pick)
    ensures sid != "" ==> chain != [] && chain[0] == sid && IsChain(ss, chain)
    ensures forall i, j :: 0 <= i < j < |chain| ==> chain[i] != chain[j]
    ensures forall i :: 0 <= i < |chain| - 1 ==> NextSegment(ss, chain[i], chain[i + 1])
    ensures |chain| <= 101
    ensures sid != "" && |chain| <= 100 ==>
      var tip := chain[|chain| - 1];
      match pick(tip)
      case None => forall c :: c in ss ==> !NextSegment(ss, tip, c)
      case Some(next) => next == "" || next in chain
  {
    var current := sid;
    chain := if current != "" then [current] else [];
    var n := 0;
    while n < CHAIN_BOUND
      invariant 0 <= n <= CHAIN_BOUND
      invariant sid != "" ==> |chain| == n + 1 && chain[0] == sid && chain[n] == current && IsChain(ss, chain)
      invariant (current == "" ==> chain == []) && |chain| <= n + 1
      invariant current != "" ==> chain != [] && chain[|chain| - 1] == current
      invariant forall i, j :: 0 <= i < j < |chain| ==> chain[i] != chain[j]
      invariant forall i :: 0 <= i < |chain| - 1 ==> NextSegment(ss, chain[i], chain[i + 1])
    {
      var next := pick(current);
      if next.None? || next.value == "" || next.value in chain {
        assert next.None? ==> forall c :: c in ss ==> !Follows(ss, current, c);
        assert forall c :: NextSegment(ss, current, c) ==> Follows(ss, current, c);
        return;
      }
      assert Follows(ss, current, next.value);
      current := next.value;
      chain := chain + [current];
      n := n + 1;
    }
  }

  /** Every segment the forward walk returns has the conversation key of the session it started from. */
  lemma ForwardWalkKeepsKey(ss: Sessions, chain: seq<SessionId>, i: nat, j: nat)
    requires Acyclic(ss) && IsChain(ss, chain) && i < |chain| && j < |chain|
    ensures LeaseKey(ss, chain[i]) == LeaseKey(ss, chain[j])
  {
    ChainSharesKey(ss, chain, i);
    ChainSharesKey(ss, chain, j);
  }
}
