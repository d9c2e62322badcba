/** The read pool: permit-rationed connections shared by the handles on each database file, as a state
    machine over its atomic sections.  Threads interleave between any two of them. */
module ReadPool {

  type Handle = nat
  type Path = nat

  /** Where one connection, or the attempt to open it, stands.  From `Opening` to `Shut` it holds a permit of
      its file; in every stage it holds a permit of the process. */
  datatype Stage = AcquiringPath | Opening | Idle | Borrowed | Doomed | Shut | PathReleased

  datatype Token = Token(handle: Handle, stage: Stage)

  /** A handle on a file, with its pool of idle connections (last in, first out) and its closed flag. */
  datatype Db = Db(path: Path, pool: seq<nat>, closed: bool)

  datatype State = State(
    dbs: map<Handle, Db>,
    tokens: map<nat, Token>,
    nextToken: nat,
    freePath: map<Path, nat>,
    freeProcess: nat)

  const POOL_MAX := 8
  const PROCESS_MAX := 24

  function FreePath(st: State, p: Path): nat {
    if p in st.freePath then st.freePath[p] else POOL_MAX
  }

  predicate HoldsPath(s: Stage) {
    s != AcquiringPath && s != PathReleased
  }

  /** A connection that is open. */
  predicate IsLive(s: Stage) {
    s == Idle || s == Borrowed || s == Doomed
  }

  predicate Holds(st: State, t: nat, p: Path) {
    t in st.tokens && HoldsPath(st.tokens[t].stage)
    && st.tokens[t].handle in st.dbs && st.dbs[st.tokens[t].handle].path == p
  }

  function Holders(st: State, p: Path): set<nat> {
    set t | t in st.tokens && Holds(st, t, p)
  }

  // ---------------------------------------------------------------- Atomic sections

  datatype Step =
    | OpenHandle(h: Handle, path: Path)
    | SetClosed(h: Handle)
    | TakeProcessPermit(h: Handle)
    | TakePathPermit(t: nat)
    | OpenDone(t: nat, ok: bool)
    | Checkout(h: Handle)
    | GiveBack(t: nat)
    | EvictIdle(h: Handle)
    | CloseConn(t: nat)
    | ReleasePath(t: nat)
    | ReleaseProcess(t: nat)

  function Become(st: State, t: nat, s: Stage): State
    requires t in st.tokens
  {
    st.(tokens := st.tokens[t := st.tokens[t].(stage := s)])
  }

  predicate At(st: State, t: nat, s: Stage) {
    t in st.tokens && st.tokens[t].stage == s && st.tokens[t].handle in st.dbs
  }

  function PathOf(st: State, t: nat): Path
    requires t in st.tokens && st.tokens[t].handle in st.dbs
  {
    st.dbs[st.tokens[t].handle].path
  }

  function Forget(st: State, t: nat): State {
    st.(tokens := st.tokens - {t}, freeProcess := st.freeProcess + 1)
  }

  function Move(st: State, t: nat, s: Stage, free: nat): State
    requires t in st.tokens && st.tokens[t].handle in st.dbs
  {
    Become(st, t, s).(freePath := st.freePath[PathOf(st, t) := free])
  }

  /** A permit of the file, or back goes the permit of the process. */
  function TakePath(st: State, t: nat): State
    requires t in st.tokens && st.tokens[t].handle in st.dbs
  {
    var free := FreePath(st, PathOf(st, t));
    if free == 0 then Forget(st, t) else Move(st, t, Opening, free - 1)
  }

  /** Pop the newest idle connection of a handle for a new stage; nothing when the pool is empty. */
  function Pop(st: State, h: Handle, s: Stage): State {
    if h !in st.dbs || st.dbs[h].pool == [] then st
    else
      var pool := st.dbs[h].pool;
      var t := pool[|pool| - 1];
      var rest := st.(dbs := st.dbs[h := st.dbs[h].(pool := pool[..|pool| - 1])]);
      if t in st.tokens then Become(rest, t, s) else rest
  }

  /** The end of a read: back to the pool, or on to being closed when the handle is closed or the pool
      is full. */
  function Return(st: State, t: nat): State
    requires At(st, t, Borrowed)
  {
    var h := st.tokens[t].handle;
    var db := st.dbs[h];
    if db.closed || |db.pool| >= POOL_MAX then Become(st, t, Doomed)
    else Become(st, t, Idle).(dbs := st.dbs[h := db.(pool := db.pool + [t])])
  }

  /** An acquisition may follow a closed check made before the handle was closed. */
  function Do(st: State, step: Step): State {
    match step
    case OpenHandle(h, p) =>
      if h in st.dbs then st else st.(dbs := st.dbs[h := Db(p, [], false)])
    case SetClosed(h) =>
      if h !in st.dbs then st else st.(dbs := st.dbs[h := st.dbs[h].(closed := true)])
    case TakeProcessPermit(h) =>
      if h !in st.dbs || st.freeProcess == 0 then st
      else st.(tokens := st.tokens[st.nextToken := Token(h, AcquiringPath)], nextToken := st.nextToken + 1,
               freeProcess := st.freeProcess - 1)
    case TakePathPermit(t) => if At(st, t, AcquiringPath) then TakePath(st, t) else st
    case OpenDone(t, ok) => if At(st, t, Opening) then Become(st, t, if ok then Borrowed else Shut) else st
    case Checkout(h) => Pop(st, h, Borrowed)
    case GiveBack(t) => if At(st, t, Borrowed) then Return(st, t) else st
    case EvictIdle(h) => Pop(st, h, Doomed)
    case CloseConn(t) => if At(st, t, Doomed) then Become(st, t, Shut) else st
    case ReleasePath(t) =>
      if At(st, t, Shut) then Move(st, t, PathReleased, FreePath(st, PathOf(st, t)) + 1) else st
    case ReleaseProcess(t) => if At(st, t, PathReleased) then Forget(st, t) else st
  }

  function Run(st: State, steps: seq<Step>): State {
    if steps == [] then st else Do(Run(st, steps[..|steps| - 1]), steps[|steps| - 1])
  }

  const START := State(map[], map[], 0, map[], PROCESS_MAX)

  // ---------------------------------------------------------------- Conservation

  ghost predicate NoRepeats(s: seq<nat>) {
    forall i, j :: 0 <= i < j < |s| ==> s[i] != s[j]
  }

  /** A pool holds exactly its handle's idle connections, each once. */
  ghost predicate PoolOf(st: State, h: Handle)
    requires h in st.dbs
  {
    && NoRepeats(st.dbs[h].pool)
    && forall t: nat :: t in st.dbs[h].pool <==> (t in st.tokens && st.tokens[t] == Token(h, Idle))
  }

  ghost predicate Known(st: State) {
    forall t :: t in st.tokens ==> t < st.nextToken && st.tokens[t].handle in st.dbs
  }

  ghost predicate Pools(st: State) {
    forall h :: h in st.dbs ==> PoolOf(st, h)
  }

  /** Every permit is free or held by exactly one token. */
  ghost predicate Conserved(st: State) {
    && st.freeProcess + |st.tokens| == 24
    && forall p: Path :: FreePath(st, p) + |Holders(st, p)| == 8
  }

  ghost predicate Good(st: State) {
    Known(st) && Pools(st) && Conserved(st)
  }

  /** Changing the stage of a token changes who holds a permit of its file only. */
  lemma BecomeHolders(st: State, t: nat, s: Stage, p: Path)
    requires t in st.tokens && st.tokens[t].handle in st.dbs
    ensures var after := Holders(Become(st, t, s), p);
      if PathOf(st, t) != p then after == Holders(st, p)
      else if HoldsPath(s) then after == Holders(st, p) + {t}
      else after == Holders(st, p) - {t}
  {
    var u := Become(st, t, s);
    forall x: nat | x != t ensures x in Holders(u, p) <==> x in Holders(st, p) {
      assert Holds(u, x, p) == Holds(st, x, p);
    }
    assert Holds(u, t, p) <==> PathOf(st, t) == p && HoldsPath(s);
  }

  lemma SameHolders(st: State, u: State, p: Path)
    requires st.tokens == u.tokens
    requires forall h :: h in st.dbs ==> h in u.dbs && u.dbs[h].path == st.dbs[h].path
    requires Known(st)
    ensures Holders(u, p) == Holders(st, p)
  {
  }

  /** A stage change between two holding stages keeps every permit where it is. */
  lemma BecomeConserved(st: State, t: nat, s: Stage)
    requires Known(st) && Conserved(st) && t in st.tokens
    requires HoldsPath(st.tokens[t].stage) && HoldsPath(s)
    ensures Conserved(Become(st, t, s)) && Known(Become(st, t, s))
  {
    var u := Become(st, t, s);
    assert u.tokens.Keys == st.tokens.Keys;
    forall p: Path ensures FreePath(u, p) + |Holders(u, p)| == 8 {
      BecomeHolders(st, t, s, p);
      assert PathOf(st, t) == p ==> Holds(st, t, p) && Holders(st, p) + {t} == Holders(st, p);
    }
  }

  lemma DbsConserved(st: State, u: State)
    requires Known(st) && Conserved(st)
    requires u == st.(dbs := u.dbs)
    requires forall h :: h in st.dbs ==> h in u.dbs && u.dbs[h].path == st.dbs[h].path
    ensures Known(u) && Conserved(u)
  {
    forall p: Path ensures FreePath(u, p) + |Holders(u, p)| == 8 {
      SameHolders(st, u, p);
    }
  }

  lemma TakeProcessConserved(st: State, h: Handle)
    requires Known(st) && Conserved(st)
    ensures var u := Do(st, TakeProcessPermit(h)); Known(u) && Conserved(u)
  {
    var u := Do(st, TakeProcessPermit(h));
    if u != st {
      assert st.nextToken !in st.tokens;
      assert u.tokens.Keys == st.tokens.Keys + {st.nextToken};
      forall p: Path ensures FreePath(u, p) + |Holders(u, p)| == 8 {
        assert Holders(u, p) == Holders(st, p);
      }
    }
  }

  lemma ForgetConserved(st: State, t: nat)
    requires Known(st) && Conserved(st) && t in st.tokens && !HoldsPath(st.tokens[t].stage)
    ensures Known(Forget(st, t)) && Conserved(Forget(st, t))
  {
    var u := Forget(st, t);
    assert u.tokens.Keys == st.tokens.Keys - {t};
    forall p: Path ensures FreePath(u, p) + |Holders(u, p)| == 8 {
      assert Holders(u, p) == Holders(st, p);
    }
  }

  /** Taking or giving back a permit of the file. */
  lemma PathPermitConserved(st: State, t: nat, s: Stage, free: nat)
    requires Known(st) && Conserved(st) && t in st.tokens
    requires HoldsPath(s) != HoldsPath(st.tokens[t].stage)
    requires free == FreePath(st, PathOf(st, t)) + (if HoldsPath(s) then -1 else 1)
    ensures var u := Move(st, t, s, free); Known(u) && Conserved(u)
  {
    var v := Become(st, t, s);
    var u := Move(st, t, s, free);
    assert u.tokens.Keys == st.tokens.Keys;
    forall p: Path ensures FreePath(u, p) + |Holders(u, p)| == 8 {
      SameHolders(v, u, p);
      HoldersMove(st, t, s, p);
      assert FreePath(st, p) + |Holders(st, p)| == 8;
    }
  }

  lemma HoldersMove(st: State, t: nat, s: Stage, p: Path)
    requires t in st.tokens && st.tokens[t].handle in st.dbs
    requires HoldsPath(s) != HoldsPath(st.tokens[t].stage)
    ensures |Holders(Become(st, t, s), p)| == |Holders(st, p)| +
      (if PathOf(st, t) != p then 0 else if HoldsPath(s) then 1 else -1)
  {
    BecomeHolders(st, t, s, p);
    assert t in Holders(st, p) <==> PathOf(st, t) == p && HoldsPath(st.tokens[t].stage);
  }

  lemma {:induction false} PopGood(st: State, h: Handle, s: Stage)
    requires Good(st) && (s == Borrowed || s == Doomed)
    ensures Good(Pop(st, h, s))
  {
    if h in st.dbs && st.dbs[h].pool != [] {
      var pool := st.dbs[h].pool;
      var t := pool[|pool| - 1];
      assert PoolOf(st, h) && t in pool;
      var rest := st.(dbs := st.dbs[h := st.dbs[h].(pool := pool[..|pool| - 1])]);
      DbsConserved(st, rest);
      BecomeConserved(rest, t, s);
      PopPools(st, Become(rest, t, s), h, t);
    }
  }

  lemma PopPools(st: State, u: State, h: Handle, t: nat)
    requires Pools(st) && h in st.dbs && st.dbs[h].pool != [] && t == st.dbs[h].pool[|st.dbs[h].pool| - 1]
    requires u.dbs == st.dbs[h := st.dbs[h].(pool := st.dbs[h].pool[..|st.dbs[h].pool| - 1])]
    requires t in st.tokens && t in u.tokens && u.tokens[t].stage != Idle && u.tokens == st.tokens[t := u.tokens[t]]
    ensures Pools(u)
  {
    assert PoolOf(st, h) && t in st.dbs[h].pool;
    PopPool(st, u, h, t);
    forall g | g in u.dbs && g != h ensures PoolOf(u, g) {
      assert PoolOf(st, g);
    }
  }

  lemma PopPool(st: State, u: State, h: Handle, t: nat)
    requires h in st.dbs && PoolOf(st, h) && st.dbs[h].pool != []
    requires t == st.dbs[h].pool[|st.dbs[h].pool| - 1] && h in u.dbs
    requires u.dbs[h].pool == st.dbs[h].pool[..|st.dbs[h].pool| - 1]
    requires t in u.tokens && u.tokens[t].stage != Idle && u.tokens == st.tokens[t := u.tokens[t]]
    ensures PoolOf(u, h)
  {
    var pool := st.dbs[h].pool;
    forall x: nat ensures x in u.dbs[h].pool <==> (x in u.tokens && u.tokens[x] == Token(h, Idle)) {
      if x in pool && x != t {
        var i :| 0 <= i < |pool| && pool[i] == x;
        assert u.dbs[h].pool[i] == x;
      }
    }
  }

  /** A stage change outside the pools leaves every pool right. */
  lemma BecomePools(st: State, t: nat, s: Stage)
    requires Pools(st) && t in st.tokens && st.tokens[t].stage != Idle && s != Idle
    ensures Pools(Become(st, t, s))
  {
    var u := Become(st, t, s);
    forall h | h in u.dbs ensures PoolOf(u, h) {
      assert PoolOf(st, h);
    }
  }

  lemma ReturnGood(st: State, t: nat)
    requires Good(st) && At(st, t, Borrowed)
    ensures Good(Return(st, t))
  {
    var h := st.tokens[t].handle;
    var db := st.dbs[h];
    var u := Return(st, t);
    if db.closed || |db.pool| >= POOL_MAX {
      BecomeConserved(st, t, Doomed);
      BecomePools(st, t, Doomed);
    } else {
      var v := Become(st, t, Idle);
      BecomeConserved(st, t, Idle);
      DbsConserved(v, u);
      assert PoolOf(st, h);
      forall g | g in u.dbs ensures PoolOf(u, g) {
        assert PoolOf(st, g);
      }
    }
  }

  lemma StepGood(st: State, step: Step)
    requires Good(st)
    ensures Good(Do(st, step))
  {
    var u := Do(st, step);
    match step
    case OpenHandle(h, p) => HandleGood(st, step);
    case SetClosed(h) => HandleGood(st, step);
    case TakeProcessPermit(h) =>
      TakeProcessConserved(st, h);
      forall g | g in u.dbs ensures PoolOf(u, g) { assert PoolOf(st, g); }
    case TakePathPermit(t) => TakePathGood(st, t);
    case ReleasePath(t) => ReleasePathGood(st, t);
    case ReleaseProcess(t) => ReleaseProcessGood(st, t);
    case OpenDone(t, ok) =>
      if At(st, t, Opening) {
        BecomeConserved(st, t, if ok then Borrowed else Shut);
        BecomePools(st, t, if ok then Borrowed else Shut);
      }
    case Checkout(h) => PopGood(st, h, Borrowed);
    case GiveBack(t) => if At(st, t, Borrowed) { ReturnGood(st, t); }
    case EvictIdle(h) => PopGood(st, h, Doomed);
    case CloseConn(t) =>
      if At(st, t, Doomed) {
        BecomeConserved(st, t, Shut);
        BecomePools(st, t, Shut);
      }
  }

  lemma HandleGood(st: State, step: Step)
    requires Good(st) && (step.OpenHandle? || step.SetClosed?)
    ensures Good(Do(st, step))
  {
    var u := Do(st, step);
    DbsConserved(st, u);
    forall g | g in u.dbs ensures PoolOf(u, g) {
      if g in st.dbs { assert PoolOf(st, g); }
    }
  }

  lemma ForgetPools(st: State, t: nat)
    requires Pools(st) && t in st.tokens && st.tokens[t].stage != Idle
    ensures Pools(Forget(st, t))
  {
    var u := Forget(st, t);
    forall h | h in u.dbs ensures PoolOf(u, h) {
      assert PoolOf(st, h);
    }
  }

  lemma TakePathGood(st: State, t: nat)
    requires Good(st)
    ensures At(st, t, AcquiringPath) ==> Good(TakePath(st, t))
  {
    if At(st, t, AcquiringPath) {
      var free := FreePath(st, PathOf(st, t));
      if free == 0 {
        ForgetGood(st, t);
      } else {
        MoveGood(st, t, Opening, free - 1);
      }
    }
  }

  lemma ReleasePathGood(st: State, t: nat)
    requires Good(st)
    ensures Good(Do(st, ReleasePath(t)))
  {
    if At(st, t, Shut) {
      MoveGood(st, t, PathReleased, FreePath(st, PathOf(st, t)) + 1);
    }
  }

  lemma {:induction false} ReleaseProcessGood(st: State, t: nat)
    requires Good(st)
    ensures Good(Do(st, ReleaseProcess(t)))
  {
    if At(st, t, PathReleased) {
      ForgetGood(st, t);
    }
  }

  lemma ForgetGood(st: State, t: nat)
    requires Good(st) && t in st.tokens && !HoldsPath(st.tokens[t].stage)
    ensures Good(Forget(st, t))
  {
    ForgetConserved(st, t);
    ForgetPools(st, t);
  }

  lemma MoveGood(st: State, t: nat, s: Stage, free: nat)
    requires Good(st) && t in st.tokens && HoldsPath(s) != HoldsPath(st.tokens[t].stage)
    requires st.tokens[t].stage != Idle && s != Idle
    requires free == FreePath(st, PathOf(st, t)) + (if HoldsPath(s) then -1 else 1)
    ensures Good(Move(st, t, s, free))
  {
    PathPermitConserved(st, t, s, free);
    MovePools(st, t, s, free);
  }

  lemma MovePools(st: State, t: nat, s: Stage, free: nat)
    requires Pools(st) && t in st.tokens && st.tokens[t].handle in st.dbs && st.tokens[t].stage != Idle && s != Idle
    ensures Pools(Move(st, t, s, free))
  {
    BecomePools(st, t, s);
    var u := Move(st, t, s, free);
    forall h | h in u.dbs ensures PoolOf(u, h) {
      assert PoolOf(Become(st, t, s), h);
    }
  }

  /** Permits are conserved and pools are right over every interleaving. */
  lemma {:induction false} RunGood(steps: seq<Step>)
    ensures Good(Run(START, steps))
  {
    if steps == [] {
      forall p: Path ensures Holders(START, p) == {} {}
    } else {
      RunGood(steps[..|steps| - 1]);
      StepGood(Run(START, steps[..|steps| - 1]), steps[|steps| - 1]);
    }
  }

  // ---------------------------------------------------------------- What follows

  function Members(s: seq<nat>): set<nat> {
    set t | t in s
  }

  lemma {:induction false} MembersCount(s: seq<nat>)
    requires NoRepeats(s)
    ensures |Members(s)| == |s|
  {
    if s != [] {
      var init, last := s[..|s| - 1], s[|s| - 1];
      MembersCount(init);
      assert last !in init;
      assert Members(s) == Members(init) + {last} by {
        assert s == init + [last];
      }
    }
  }

  lemma Within<T>(a: set<T>, b: set<T>)
    requires a <= b
    ensures |a| <= |b|
  {
    assert b == a + (b - a);
  }

  /** The pool and one borrowed connection are distinct holders. */
  lemma PoolHolds(st: State, t: nat)
    requires Good(st) && At(st, t, Borrowed)
    ensures Members(st.dbs[st.tokens[t].handle].pool) + {t} <= Holders(st, PathOf(st, t))
    ensures t !in st.dbs[st.tokens[t].handle].pool
  {
    assert PoolOf(st, st.tokens[t].handle);
  }

  /** A returning reader always finds room: `queue.Full` cannot happen. */
  lemma PoolNeverFull(steps: seq<Step>, t: nat)
    requires At(Run(START, steps), t, Borrowed)
    ensures var st := Run(START, steps); |st.dbs[st.tokens[t].handle].pool| < 8
  {
    RunGood(steps);
    RoomToReturn(Run(START, steps), t);
  }

  lemma RoomToReturn(st: State, t: nat)
    requires Good(st) && At(st, t, Borrowed)
    ensures |st.dbs[st.tokens[t].handle].pool| < 8
  {
    var pool := st.dbs[st.tokens[t].handle].pool;
    var p := PathOf(st, t);
    PoolHolds(st, t);
    assert PoolOf(st, st.tokens[t].handle);
    MembersCount(pool);
    Within(Members(pool) + {t}, Holders(st, p));
    assert |Members(pool) + {t}| == |pool| + 1;
    assert FreePath(st, p) + |Holders(st, p)| == 8;
  }

  /** A checkout lends only an idle connection of its own handle: none is borrowed twice, and none that is
      being closed is lent. */
  lemma LendsIdleOnly(steps: seq<Step>, h: Handle, t: nat)
    requires var st := Run(START, steps); !At(st, t, Borrowed) && At(Do(st, Checkout(h)), t, Borrowed)
    ensures Run(START, steps).tokens[t] == Token(h, Idle)
    ensures var st := Do(Run(START, steps), Checkout(h));
      forall g :: g in st.dbs ==> t !in st.dbs[g].pool
  {
    var st := Run(START, steps);
    RunGood(steps);
    assert PoolOf(st, h);
    StepGood(st, Checkout(h));
    var u := Do(st, Checkout(h));
    forall g | g in u.dbs ensures t !in u.dbs[g].pool {
      assert PoolOf(u, g);
    }
  }

  /** A checkout that finds the pool non-empty takes its newest connection, which nobody else has. */
  lemma CheckoutTakesIdle(steps: seq<Step>, h: Handle)
    requires var st := Run(START, steps); h in st.dbs && st.dbs[h].pool != []
    ensures var st := Run(START, steps); var t := st.dbs[h].pool[|st.dbs[h].pool| - 1];
      && t in st.tokens && st.tokens[t] == Token(h, Idle)
      && At(Do(st, Checkout(h)), t, Borrowed)
  {
    RunGood(steps);
    var st := Run(START, steps);
    assert PoolOf(st, h);
    assert st.dbs[h].pool[|st.dbs[h].pool| - 1] in st.dbs[h].pool;
  }

  function HoldersAt(st: State, p: Path, live: bool, stage: Stage): set<nat> {
    set t | t in st.tokens && Holds(st, t, p)
            && (if live then IsLive(st.tokens[t].stage) else st.tokens[t].stage == stage)
  }

  /** Permits in use of a file are its open connections plus the opens and releases in progress. */
  lemma PermitsInUse(steps: seq<Step>, p: Path)
    ensures var st := Run(START, steps);
      8 - FreePath(st, p)
      == |HoldersAt(st, p, true, Idle)| + |HoldersAt(st, p, false, Opening)| + |HoldersAt(st, p, false, Shut)|
  {
    RunGood(steps);
    SplitHolders(Run(START, steps), p);
  }

  lemma DisjointSizes<T>(a: set<T>, b: set<T>, c: set<T>)
    requires a !! b && (a + b) !! c
    ensures |a + b + c| == |a| + |b| + |c|
  {
    assert |a + b + c| == |a + b| + |c|;
  }

  lemma HoldersByStage(st: State, p: Path)
    ensures Holders(st, p)
         == HoldersAt(st, p, true, Idle) + HoldersAt(st, p, false, Opening) + HoldersAt(st, p, false, Shut)
  {
    forall t: nat | Holds(st, t, p)
      ensures IsLive(st.tokens[t].stage) || st.tokens[t].stage == Opening || st.tokens[t].stage == Shut
    {
    }
  }

  lemma SplitHolders(st: State, p: Path)
    requires Conserved(st)
    ensures 8 - FreePath(st, p)
      == |HoldersAt(st, p, true, Idle)| + |HoldersAt(st, p, false, Opening)| + |HoldersAt(st, p, false, Shut)|
  {
    HoldersByStage(st, p);
    assert FreePath(st, p) + |Holders(st, p)| == 8;
    DisjointSizes(HoldersAt(st, p, true, Idle), HoldersAt(st, p, false, Opening), HoldersAt(st, p, false, Shut));
  }

  predicate Drained(st: State, h: Handle) {
    h in st.dbs && st.dbs[h].closed && st.dbs[h].pool == []
  }

  /** Once a closed handle's pool is drained nothing enters it again. */
  lemma {:induction false} StaysDrained(st: State, steps: seq<Step>, h: Handle)
    requires Drained(st, h)
    ensures Drained(Run(st, steps), h)
  {
    if steps != [] {
      StaysDrained(st, steps[..|steps| - 1], h);
    }
  }

  /** After the drain, once every reader and every closer of the handle has left, the handle has no
      connection; and when this holds of all handles, all permits are back. */
  lemma NothingLeftBehind(steps: seq<Step>, later: seq<Step>, h: Handle)
    requires Drained(Run(START, steps), h)
    requires var st := Run(START, steps + later);
      forall t :: t in st.tokens && st.tokens[t].handle == h ==> st.tokens[t].stage == Idle
    ensures var st := Run(START, steps + later);
      forall t :: t in st.tokens ==> st.tokens[t].handle != h
  {
    var st := Run(START, steps + later);
    RunGood(steps + later);
    RunConcat(START, steps, later);
    StaysDrained(Run(START, steps), later, h);
    assert PoolOf(st, h);
  }

  /** Every reader and every closer has left. */
  predicate NoneInFlight(st: State) {
    forall t: nat :: t in st.tokens ==> st.tokens[t].stage == Idle
  }

  lemma IdleIsPooled(st: State, t: nat)
    requires Good(st) && t in st.tokens && st.tokens[t].stage == Idle
    ensures st.tokens[t].handle in st.dbs && t in st.dbs[st.tokens[t].handle].pool
  {
    assert PoolOf(st, st.tokens[t].handle);
    assert st.tokens[t] == Token(st.tokens[t].handle, Idle);
  }

  lemma AllPermitsBack(steps: seq<Step>)
    requires var st := Run(START, steps);
      && (forall h :: h in st.dbs ==> Drained(st, h))
      && NoneInFlight(st)
    ensures var st := Run(START, steps);
      st.tokens == map[] && st.freeProcess == 24 && forall p: Path :: FreePath(st, p) == 8
  {
    var st := Run(START, steps);
    RunGood(steps);
    forall t: nat ensures t !in st.tokens {
      if t in st.tokens { IdleIsPooled(st, t); }
    }
    forall p: Path ensures FreePath(st, p) == 8 {
      assert Holders(st, p) == {};
      assert FreePath(st, p) + |Holders(st, p)| == 8;
    }
  }

  lemma {:induction false} RunConcat(st: State, a: seq<Step>, b: seq<Step>)
    ensures Run(st, a + b) == Run(Run(st, a), b)
    decreases |b|
  {
    if b == [] {
      assert a + b == a;
    } else {
      assert (a + b)[..|a + b| - 1] == a + b[..|b| - 1];
      RunConcat(st, a, b[..|b| - 1]);
    }
  }
}
