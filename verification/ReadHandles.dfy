/** The read pool as an object: its operations are runs of the atomic sections of `ReadPool`, and between any
    two sections other threads may take theirs. */
module ReadHandles {
  import opened Lineage
  import opened ReadPool

  lemma RunOne(st: State, step: Step)
    ensures Run(st, [step]) == Do(st, step)
  {
    assert [step][..0] == [];
  }

  /** One more section after a run. */
  lemma RunNext(st: State, steps: seq<Step>, step: Step)
    ensures Run(st, steps + [step]) == Do(Run(st, steps), step)
  {
    assert (steps + [step])[..|steps|] == steps;
  }

  lemma {:induction false} RunKeepsGood(st: State, steps: seq<Step>)
    requires Good(st)
    ensures Good(Run(st, steps))
  {
    if steps != [] {
      RunKeepsGood(st, steps[..|steps| - 1]);
      StepGood(Run(st, steps[..|steps| - 1]), steps[|steps| - 1]);
    }
  }

  /** What a pool hands out is its handle's and idle. */
  lemma NewestIsIdle(st: State, h: Handle)
    requires Good(st) && h in st.dbs && st.dbs[h].pool != []
    ensures var t := st.dbs[h].pool[|st.dbs[h].pool| - 1]; t in st.tokens && st.tokens[t] == Token(h, Idle)
  {
    assert PoolOf(st, h);
    assert st.dbs[h].pool[|st.dbs[h].pool| - 1] in st.dbs[h].pool;
  }

  lemma NextTokenIsNew(st: State)
    requires Good(st)
    ensures st.nextToken !in st.tokens
  {
  }

  /** Two sections in a row. */
  lemma RunTwo(st: State, a: Step, b: Step)
    ensures Run(st, [a, b]) == Do(Do(st, a), b)
  {
    RunOne(st, a);
    RunNext(st, [a], b);
    assert [a] + [b] == [a, b];
  }

  class ReadPools {
    var dbs: map<Handle, Db>
    var tokens: map<nat, Token>
    var nextToken: nat
    var freePath: map<Path, nat>
    var freeProcess: nat

    function Now(): State
      reads this
    {
      State(dbs, tokens, nextToken, freePath, freeProcess)
    }

    ghost predicate Valid()
      reads this
    {
      Good(Now())
    }

    /** Nothing can be opened: the handle is closed, a permit of the process or of the file is missing, or the
        open fails. */
    ghost predicate Refused(h: Handle, ok: bool)
      requires h in dbs
      reads this
    {
      dbs[h].closed || freeProcess == 0 || FreePath(Now(), dbs[h].path) == 0 || !ok
    }

    constructor ()
      ensures Valid() && Now() == START
    {
      dbs, tokens, nextToken, freePath, freeProcess := map[], map[], 0, map[], PROCESS_MAX;
      new;
      RunGood([]);
    }

    // -------------------------------------------------------------- Atomic sections

    method Register(h: Handle, path: Path)
      modifies this`dbs
      ensures Now() == Do(old(Now()), OpenHandle(h, path))
    {
      if h !in dbs {
        dbs := dbs[h := Db(path, [], false)];
      }
    }

    method MarkClosed(h: Handle)
      modifies this`dbs
      ensures Now() == Do(old(Now()), SetClosed(h))
    {
      if h in dbs {
        dbs := dbs[h := dbs[h].(closed := true)];
      }
    }

    /** `get_nowait` on the pool of a handle, to read or to evict. */
    method PopIdle(h: Handle, s: Stage) returns (t: Option<nat>)
      requires h in dbs && dbs[h].pool != [] ==> dbs[h].pool[|dbs[h].pool| - 1] in tokens
      modifies this`dbs, this`tokens
      ensures Now() == Pop(old(Now()), h, s)
      ensures t == if h in old(dbs) && old(dbs)[h].pool != [] then Some(old(dbs)[h].pool[|old(dbs)[h].pool| - 1])
                   else None
    {
      if h !in dbs || dbs[h].pool == [] { return None; }
      var pool := dbs[h].pool;
      var c := pool[|pool| - 1];
      dbs := dbs[h := dbs[h].(pool := pool[..|pool| - 1])];
      tokens := tokens[c := tokens[c].(stage := s)];
      return Some(c);
    }

    method TryProcessPermit(h: Handle) returns (t: Option<nat>)
      requires h in dbs
      modifies this`tokens, this`nextToken, this`freeProcess
      ensures Now() == Do(old(Now()), TakeProcessPermit(h))
      ensures t.None? <==> old(freeProcess) == 0
      ensures if t.None? then tokens == old(tokens)
              else t.value == old(nextToken) && tokens == old(tokens)[t.value := Token(h, AcquiringPath)]
    {
      if freeProcess == 0 { return None; }
      freeProcess := freeProcess - 1;
      tokens := tokens[nextToken := Token(h, AcquiringPath)];
      t := Some(nextToken);
      nextToken := nextToken + 1;
    }

    /** A permit of the file, or the permit of the process goes back. */
    method TakePathOrGiveUp(t: nat) returns (taken: bool)
      requires At(Now(), t, AcquiringPath)
      modifies this`tokens, this`freePath, this`freeProcess
      ensures Now() == Do(old(Now()), TakePathPermit(t))
      ensures taken <==> FreePath(old(Now()), dbs[old(tokens)[t].handle].path) > 0
      ensures tokens == if taken then old(tokens)[t := old(tokens)[t].(stage := Opening)] else old(tokens) - {t}
    {
      var p := dbs[tokens[t].handle].path;
      var free := if p in freePath then freePath[p] else POOL_MAX;
      if free == 0 {
        tokens, freeProcess := tokens - {t}, freeProcess + 1;
        return false;
      }
      freePath := freePath[p := free - 1];
      tokens := tokens[t := tokens[t].(stage := Opening)];
      return true;
    }

    /** Opening done, or a connection closed. */
    method SetStage(t: nat, s: Stage)
      requires t in tokens
      modifies this`tokens
      ensures Now() == Become(old(Now()), t, s)
    {
      tokens := tokens[t := tokens[t].(stage := s)];
    }

    /** `put_nowait` under the lock of the flag: kept unless the handle is closed or the pool full. */
    method PutBack(t: nat) returns (returned: bool)
      requires At(Now(), t, Borrowed)
      modifies this`dbs, this`tokens
      ensures Now() == Return(old(Now()), t)
      ensures returned <==> !old(dbs)[old(tokens)[t].handle].closed && |old(dbs)[old(tokens)[t].handle].pool| < 8
    {
      var h := tokens[t].handle;
      returned := !dbs[h].closed && |dbs[h].pool| < POOL_MAX;
      if returned {
        dbs := dbs[h := dbs[h].(pool := dbs[h].pool + [t])];
      }
      tokens := tokens[t := tokens[t].(stage := if returned then Idle else Doomed)];
    }

    method ReleasePathPermit(t: nat)
      requires At(Now(), t, Shut)
      modifies this`tokens, this`freePath
      ensures Now() == Do(old(Now()), ReleasePath(t))
      ensures tokens == old(tokens)[t := old(tokens)[t].(stage := PathReleased)]
    {
      var p := dbs[tokens[t].handle].path;
      freePath := freePath[p := (if p in freePath then freePath[p] else POOL_MAX) + 1];
      tokens := tokens[t := tokens[t].(stage := PathReleased)];
    }

    method ReleaseProcessPermit(t: nat)
      requires At(Now(), t, PathReleased)
      modifies this`tokens, this`freeProcess
      ensures Now() == Do(old(Now()), ReleaseProcess(t))
      ensures tokens == old(tokens) - {t}
    {
      tokens, freeProcess := tokens - {t}, freeProcess + 1;
    }

    // -------------------------------------------------------------- Operations

    /** Both permits of a connection that is no longer open. */
    method ReleaseBudget(t: nat) returns (ghost steps: seq<Step>)
      requires At(Now(), t, Shut)
      modifies this`tokens, this`freePath, this`freeProcess
      ensures Now() == Run(old(Now()), steps) && tokens == old(tokens) - {t}
    {
      RunTwo(Now(), ReleasePath(t), ReleaseProcess(t));
      ReleasePathPermit(t);
      ReleaseProcessPermit(t);
      steps := [ReleasePath(t), ReleaseProcess(t)];
    }

    method CloseReadConn(t: nat) returns (ghost steps: seq<Step>)
      requires At(Now(), t, Doomed)
      modifies this`tokens, this`freePath, this`freeProcess
      ensures Now() == Run(old(Now()), steps) && tokens == old(tokens) - {t}
    {
      ghost var st := Now();
      SetStage(t, Shut);
      RunOne(st, CloseConn(t));
      ghost var rest := ReleaseBudget(t);
      RunConcat(st, [CloseConn(t)], rest);
      steps := [CloseConn(t)] + rest;
    }

    method EvictNewest(h: Handle) returns (ghost steps: seq<Step>)
      requires h in dbs && dbs[h].pool != []
      requires var t := dbs[h].pool[|dbs[h].pool| - 1]; t in tokens && tokens[t].handle in dbs
      modifies this`dbs, this`tokens, this`freePath, this`freeProcess
      ensures Now() == Run(old(Now()), steps)
      ensures dbs == old(dbs)[h := old(dbs)[h].(pool := old(dbs)[h].pool[..|old(dbs)[h].pool| - 1])]
      ensures tokens == old(tokens) - {old(dbs)[h].pool[|old(dbs)[h].pool| - 1]}
    {
      ghost var st := Now();
      var t := PopIdle(h, Doomed);
      RunOne(st, EvictIdle(h));
      steps := CloseReadConn(t.value);
      RunConcat(st, [EvictIdle(h)], steps);
      steps := [EvictIdle(h)] + steps;
    }

    /** Close one idle connection of a handle: its permits come back. */
    method EvictOneIdleReadConn(h: Handle) returns (evicted: bool, ghost steps: seq<Step>)
      requires Valid()
      modifies this`dbs, this`tokens, this`freePath, this`freeProcess
      ensures Valid() && Now() == Run(old(Now()), steps)
      ensures evicted <==> h in old(dbs) && old(dbs)[h].pool != []
      ensures dbs == if evicted then old(dbs)[h := old(dbs)[h].(pool := old(dbs)[h].pool[..|old(dbs)[h].pool| - 1])]
                     else old(dbs)
      ensures tokens == if evicted then old(tokens) - {old(dbs)[h].pool[|old(dbs)[h].pool| - 1]} else old(tokens)
    {
      evicted, steps := h in dbs && dbs[h].pool != [], [];
      ghost var st := Now();
      if evicted {
        NewestIsIdle(st, h);
        steps := EvictNewest(h);
      }
      RunKeepsGood(st, steps);
    }

    method ReturnOrClose(t: nat) returns (ghost steps: seq<Step>)
      requires At(Now(), t, Borrowed)
      modifies this`dbs, this`tokens, this`freePath, this`freeProcess
      ensures Now() == Run(old(Now()), steps)
      ensures var h := old(tokens)[t].handle;
        if old(dbs)[h].closed || |old(dbs)[h].pool| >= 8 then dbs == old(dbs) && tokens == old(tokens) - {t}
        else tokens == old(tokens)[t := Token(h, Idle)]
             && dbs == old(dbs)[h := old(dbs)[h].(pool := old(dbs)[h].pool + [t])]
    {
      ghost var st := Now();
      var returned := PutBack(t);
      RunOne(st, GiveBack(t));
      steps := [GiveBack(t)];
      if !returned {
        ghost var rest := CloseReadConn(t);
        RunConcat(st, steps, rest);
        steps := steps + rest;
      }
    }

    /** The end of a read: the connection goes back on top of the pool, or is closed when the handle is. */
    method LeaveReadCtx(t: nat) returns (ghost steps: seq<Step>)
      requires Valid() && At(Now(), t, Borrowed)
      modifies this`dbs, this`tokens, this`freePath, this`freeProcess
      ensures Valid() && Now() == Run(old(Now()), steps)
      ensures var h := old(tokens)[t].handle;
        if old(dbs)[h].closed then dbs == old(dbs) && tokens == old(tokens) - {t}
        else tokens == old(tokens)[t := Token(h, Idle)]
             && dbs == old(dbs)[h := old(dbs)[h].(pool := old(dbs)[h].pool + [t])]
    {
      ghost var st := Now();
      RoomToReturn(st, t);
      steps := ReturnOrClose(t);
      RunKeepsGood(st, steps);
    }

    /** A permit of the process and one of the file, or neither. */
    method AcquireBudget(h: Handle) returns (t: Option<nat>, ghost steps: seq<Step>)
      requires h in dbs && nextToken !in tokens
      modifies this`tokens, this`nextToken, this`freePath, this`freeProcess
      ensures Now() == Run(old(Now()), steps)
      ensures t.None? <==> old(freeProcess) == 0 || FreePath(old(Now()), dbs[h].path) == 0
      ensures if t.None? then tokens == old(tokens)
              else t.value !in old(tokens) && tokens == old(tokens)[t.value := Token(h, Opening)]
    {
      ghost var st := Now();
      t := TryProcessPermit(h);
      if t.None? {
        RunOne(st, TakeProcessPermit(h));
        return None, [TakeProcessPermit(h)];
      }
      RunTwo(st, TakeProcessPermit(h), TakePathPermit(t.value));
      steps := [TakeProcessPermit(h), TakePathPermit(t.value)];
      var taken := TakePathOrGiveUp(t.value);
      if !taken {
        assert tokens == old(tokens);
        t := None;
      }
    }

    /** Open under both permits; an open that fails gives both back. */
    method Open(t: nat, ok: bool) returns (ghost steps: seq<Step>)
      requires At(Now(), t, Opening)
      modifies this`tokens, this`freePath, this`freeProcess
      ensures Now() == Run(old(Now()), steps)
      ensures tokens == if ok then old(tokens)[t := old(tokens)[t].(stage := Borrowed)] else old(tokens) - {t}
    {
      ghost var st := Now();
      SetStage(t, if ok then Borrowed else Shut);
      RunOne(st, OpenDone(t, ok));
      steps := [OpenDone(t, ok)];
      if !ok {
        ghost var rest := ReleaseBudget(t);
        RunConcat(st, steps, rest);
        steps := steps + rest;
      }
    }

    method OpenUnderBudget(h: Handle, ok: bool) returns (conn: Option<nat>, ghost steps: seq<Step>)
      requires h in dbs && nextToken !in tokens
      modifies this`tokens, this`nextToken, this`freePath, this`freeProcess
      ensures Now() == Run(old(Now()), steps)
      ensures conn.None? <==> !ok || old(freeProcess) == 0 || FreePath(old(Now()), dbs[h].path) == 0
      ensures if conn.None? then tokens == old(tokens)
              else conn.value !in old(tokens) && tokens == old(tokens)[conn.value := Token(h, Borrowed)]
    {
      ghost var st := Now();
      conn, steps := AcquireBudget(h);
      if conn.Some? {
        ghost var rest := Open(conn.value, ok);
        RunConcat(st, steps, rest);
        steps := steps + rest;
        if !ok {
          assert tokens == old(tokens);
          conn := None;
        }
      }
    }

    /** A fresh connection, unless the handle is closed, the permits are spent or the open fails. */
    method GetReadConn(h: Handle, ok: bool) returns (conn: Option<nat>, ghost steps: seq<Step>)
      requires Valid() && h in dbs
      modifies this`tokens, this`nextToken, this`freePath, this`freeProcess
      ensures Valid() && Now() == Run(old(Now()), steps)
      ensures conn.None? <==> old(Refused(h, ok))
      ensures if conn.None? then tokens == old(tokens)
              else !dbs[h].closed && ok && conn.value !in old(tokens)
                   && tokens == old(tokens)[conn.value := Token(h, Borrowed)]
    {
      ghost var st := Now();
      if dbs[h].closed { return None, []; }
      NextTokenIsNew(st);
      conn, steps := OpenUnderBudget(h, ok);
      RunKeepsGood(st, steps);
    }

    /** Borrow an idle connection, opening on a miss. */
    method CheckoutReadConn(h: Handle, ok: bool) returns (conn: Option<nat>, ghost steps: seq<Step>)
      requires Valid() && h in dbs
      modifies this
      ensures Valid() && Now() == Run(old(Now()), steps)
      ensures conn.Some? ==> tokens == old(tokens)[conn.value := Token(h, Borrowed)]
      ensures conn.Some? && old(dbs)[h].pool != [] ==> conn.value == old(dbs)[h].pool[|old(dbs)[h].pool| - 1]
      ensures conn.Some? && old(dbs)[h].pool == [] ==> conn.value !in old(tokens)
      ensures conn.None? ==> tokens == old(tokens)
      ensures conn.None? <==> old(dbs)[h].pool == [] && old(Refused(h, ok))
    {
      ghost var st := Now();
      if dbs[h].pool == [] {
        conn, steps := GetReadConn(h, ok);
        return;
      }
      NewestIsIdle(st, h);
      conn := PopIdle(h, Borrowed);
      RunOne(st, Checkout(h));
      steps := [Checkout(h)];
      RunKeepsGood(st, steps);
    }

    /** Closed flag first, so that readers in flight close their own connections; then drain. */
    method Close(h: Handle) returns (ghost steps: seq<Step>)
      requires Valid() && h in dbs
      modifies this
      ensures Valid() && Now() == Run(old(Now()), steps)
      ensures Drained(Now(), h)
      ensures forall g :: g in old(dbs) && g != h ==> g in dbs && dbs[g] == old(dbs)[g]
    {
      ghost var st := Now();
      MarkClosed(h);
      RunOne(st, SetClosed(h));
      steps := [SetClosed(h)];
      RunKeepsGood(st, steps);
      var evicted := true;
      while evicted
        invariant Valid() && Now() == Run(st, steps)
        invariant h in dbs && dbs[h].closed
        invariant forall g :: g in st.dbs && g != h ==> g in dbs && dbs[g] == st.dbs[g]
        invariant !evicted ==> dbs[h].pool == []
        decreases evicted, |dbs[h].pool|
      {
        ghost var more;
        evicted, more := EvictOneIdleReadConn(h);
        RunConcat(st, steps, more);
        steps := steps + more;
      }
    }
  }
}
