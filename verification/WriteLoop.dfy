/** The retry loop every write goes through.  What the engine does on each attempt, how long it takes and
    the jitter drawn are arbitrary sequences; sleeps are exact. */
module WriteLoop {
  import opened Lineage

  /** How one attempt ended.  `started` says whether the callback had started; `detached` whether the
      transaction that detaches the corrupt indexes committed. */
  datatype Outcome =
    | Committed
    | CompressionBusy
    | NoMoreRows
    | Locked(started: bool)
    | DiskIo(started: bool)
    | FtsCorrupt(detached: bool)
    | Fatal

  /** An attempt, whether it was retried, and the time at which the retry decision was taken or the
      sleep before it ended. */
  datatype Attempt = Attempt(outcome: Outcome, retried: bool, until: real)

  datatype Result = Returned | Raised(cause: Outcome)

  const COMPRESSION_BUSY_WAIT := 5.0
  const RETRY_MIN := 0.020
  const RETRY_MAX := 0.150
  const SLOW_AFTER := 2.0
  const SLOW_MIN := 0.250
  const SLOW_MAX := 1.000
  const FINAL_SLEEP := 0.001
  const CHECKPOINT_EVERY := 50
  const MERGE_EVERY := 1000

  function Min(a: real, b: real): real {
    if a < b then a else b
  }

  function Max(a: real, b: real): real {
    if a < b then b else a
  }

  /** How many sleeps of at least 20 ms fit before a deadline, counting the one that reaches it. */
  function Slots(remaining: real): nat {
    if remaining <= 0.0 then 0 else (remaining / 0.02).Floor + 1
  }

  lemma SlotsShrink(before: real, after: real)
    requires before > 0.0
    requires after <= before - 0.02 || after <= 0.0
    ensures Slots(after) < Slots(before)
  {
    if after > 0.0 {
      assert after / 0.02 <= before / 0.02 - 1.0;
    }
  }

  lemma SlotsMonotone(before: real, after: real)
    requires after <= before
    ensures Slots(after) <= Slots(before)
  {
  }

  /** Sleeps left against either deadline. */
  function Budget(deadline: real, busyUntil: Option<real>, now: real): nat {
    Slots(deadline - now) + (if busyUntil.Some? then Slots(busyUntil.value - now) else 0)
  }

  lemma BudgetMonotone(deadline: real, busyUntil: Option<real>, before: real, after: real)
    requires before <= after
    ensures Slots(deadline - after) <= Slots(deadline - before)
    ensures Budget(deadline, busyUntil, after) <= Budget(deadline, busyUntil, before)
  {
    SlotsMonotone(deadline - before, deadline - after);
    if busyUntil.Some? {
      SlotsMonotone(busyUntil.value - before, busyUntil.value - after);
    }
  }

  function Count(run: seq<Attempt>, p: Attempt -> bool): nat {
    if run == [] then 0
    else Count(run[..|run| - 1], p) + (if p(run[|run| - 1]) then 1 else 0)
  }

  lemma CountNext(run: seq<Attempt>, a: Attempt, p: Attempt -> bool)
    ensures Count(run + [a], p) == Count(run, p) + (if p(a) then 1 else 0)
  {
    assert (run + [a])[..|run|] == run;
  }

  /** The attempts made so far are all retries: none has committed, none is a disk error past the start of
      the callback. */
  predicate Retried(a: Attempt) {
    a.retried && !a.outcome.Committed? && !a.outcome.Fatal? && a.outcome != DiskIo(true)
  }

  function DetachRetry(a: Attempt): bool {
    a.retried && a.outcome.FtsCorrupt?
  }

  function DiskRetry(a: Attempt): bool {
    a.retried && a.outcome.DiskIo?
  }

  /** A retry that slept against the write patience. */
  function PatienceSleep(a: Attempt): bool {
    a.retried && (a.outcome.Locked? || a.outcome.NoMoreRows? || a.outcome.DiskIo?)
  }

  /** Every attempt was rolled back and retried, and no sleep for the lock overran the deadline. */
  predicate Retries(run: seq<Attempt>, start: real, patience: real) {
    forall i :: 0 <= i < |run| ==>
      Retried(run[i]) && (PatienceSleep(run[i]) ==> run[i].until <= start + patience + 0.001)
  }

  /** A finished write: retries, and then one attempt that was not retried.  It returned when that one
      committed.  Corrupt indexes were detached at most once, a disk error at BEGIN was retried at most
      once, and sleeps for the lock are as many as 20 ms slots fit the patience.  A lock refusal used up
      the patience; a compression refusal used up its own wait; a disk error at BEGIN that was raised has
      either its one retry behind it or the patience used up. */
  predicate Settled(run: seq<Attempt>, r: Result, start: real, patience: real, fts: bool, fts': bool) {
    run != [] &&
    var init, last := run[..|run| - 1], run[|run| - 1];
    && Retries(init, start, patience)
    && !last.retried
    && r == (if last.outcome.Committed? then Returned else Raised(last.outcome))
    && Count(init, DetachRetry) == (if fts && !fts' then 1 else 0)
    && (last.outcome == FtsCorrupt(true) ==> !fts')
    && Count(init, DiskRetry) <= 1
    && (last.outcome == DiskIo(false) ==> Count(init, DiskRetry) == 1 || last.until >= start + patience)
    && Count(init, PatienceSleep) <= Slots(patience)
    && (last.outcome.Locked? || last.outcome.NoMoreRows? ==> last.until >= start + patience)
    && (last.outcome.CompressionBusy? ==> last.until >= start + Min(5.0, patience))
  }

  function Commits(a: Attempt): bool {
    a.outcome.Committed?
  }

  lemma {:induction false} RetriesCommitNothing(run: seq<Attempt>, start: real, patience: real)
    requires Retries(run, start, patience)
    ensures Count(run, Commits) == 0
  {
    if run != [] {
      assert Retried(run[|run| - 1]);
      RetriesCommitNothing(run[..|run| - 1], start, patience);
    }
  }

  /** A write returns after exactly one committed attempt and raises after none; an attempt whose callback
      had started when the disk failed is the last one, and raises. */
  lemma CommitsOnceOrRaises(run: seq<Attempt>, r: Result, start: real, patience: real, fts: bool, fts': bool)
    requires Settled(run, r, start, patience, fts, fts')
    ensures Count(run, Commits) == (if r.Returned? then 1 else 0)
    ensures forall i :: 0 <= i < |run| && run[i].outcome == DiskIo(true) ==> i == |run| - 1 && r == Raised(DiskIo(true))
    ensures Count(run, DetachRetry) <= 1 && Count(run, DiskRetry) <= 1 && Count(run, PatienceSleep) <= Slots(patience)
  {
    var init := run[..|run| - 1];
    RetriesCommitNothing(init, start, patience);
    forall i | 0 <= i < |run| - 1 ensures run[i].outcome != DiskIo(true) {
      assert Retried(init[i]);
    }
  }

  /** The same account of an unfinished write, at time `now`. */
  predicate Sofar(run: seq<Attempt>, start: real, patience: real, fts: bool, fts': bool, diskRetried: bool, now: real) {
    && now >= start
    && Retries(run, start, patience)
    && (fts' ==> fts)
    && Count(run, DetachRetry) == (if fts && !fts' then 1 else 0)
    && Count(run, DiskRetry) == (if diskRetried then 1 else 0)
    && Count(run, PatienceSleep) + Slots(start + patience - now) <= Slots(patience)
  }

  /** A retry extends the account. */
  lemma Extend(run: seq<Attempt>, a: Attempt, start: real, patience: real, fts: bool, fts0: bool, fts1: bool,
               disk0: bool, disk1: bool, now: real)
    requires Sofar(run, start, patience, fts, fts0, disk0, now) && now <= a.until
    requires Retried(a) && (PatienceSleep(a) ==> a.until <= start + patience + 0.001)
    requires PatienceSleep(a) ==> Slots(start + patience - a.until) < Slots(start + patience - now)
    requires (fts1 ==> fts0) && (a.outcome.FtsCorrupt? <==> fts0 && !fts1)
    requires disk1 == (disk0 || a.outcome.DiskIo?) && (a.outcome.DiskIo? ==> !disk0)
    ensures Sofar(run + [a], start, patience, fts, fts1, disk1, a.until)
  {
    CountNext(run, a, DetachRetry);
    CountNext(run, a, DiskRetry);
    CountNext(run, a, PatienceSleep);
    SlotsMonotone(start + patience - now, start + patience - a.until);
  }

  lemma Wait(run: seq<Attempt>, start: real, patience: real, fts: bool, fts': bool, disk: bool, now: real, later: real)
    requires Sofar(run, start, patience, fts, fts', disk, now) && now <= later
    ensures Sofar(run, start, patience, fts, fts', disk, later)
  {
    SlotsMonotone(start + patience - now, start + patience - later);
  }

  lemma Settle(run: seq<Attempt>, a: Attempt, r: Result, start: real, patience: real, fts: bool, fts': bool, disk: bool,
               now: real)
    requires Sofar(run, start, patience, fts, fts', disk, now) && !a.retried
    requires r == (if a.outcome.Committed? then Returned else Raised(a.outcome))
    requires a.outcome == FtsCorrupt(true) ==> !fts'
    requires a.outcome == DiskIo(false) ==> disk || a.until >= start + patience
    requires a.outcome.Locked? || a.outcome.NoMoreRows? ==> a.until >= start + patience
    requires a.outcome.CompressionBusy? ==> a.until >= start + Min(5.0, patience)
    ensures Settled(run + [a], r, start, patience, fts, fts')
  {
    assert (run + [a])[..|run|] == run;
  }

  class SessionWriter {
    /** What the world does on the n-th attempt. */
    const outcomes: nat -> Outcome
    const took: nat -> real
    const luck: nat -> real

    var attempts: nat
    var clock: real
    var ftsEnabled: bool
    var writeCount: nat
    var checkpoints: nat
    var merges: nat
    var history: seq<Attempt>

    ghost predicate Valid()
      reads this
    {
      && (forall n :: took(n) >= 0.0)
      && (forall n :: 0.0 <= luck(n) <= 1.0)
      && checkpoints == writeCount / 50
      && merges == writeCount / 1000
    }

    constructor (outcomes: nat -> Outcome, took: nat -> real, luck: nat -> real, start: real, fts: bool)
      requires forall n :: took(n) >= 0.0
      requires forall n :: 0.0 <= luck(n) <= 1.0
      ensures Valid() && history == [] && clock == start && ftsEnabled == fts
    {
      this.outcomes, this.took, this.luck := outcomes, took, luck;
      attempts, clock, ftsEnabled, writeCount, checkpoints, merges, history := 0, start, fts, 0, 0, 0, [];
    }

    /** BEGIN IMMEDIATE, the callback, COMMIT; rolled back on any error. */
    method Try() returns (outcome: Outcome)
      requires Valid()
      modifies this`attempts, this`clock
      ensures Valid() && clock >= old(clock) && attempts == old(attempts) + 1
    {
      clock := clock + took(attempts);
      outcome := outcomes(attempts);
      attempts := attempts + 1;
    }

    /** Sleep one jitter interval if the budget allows. */
    method SleepBeforeWriteRetry(deadline: real, patience: real) returns (retry: bool)
      requires Valid()
      modifies this`clock
      ensures Valid()
      ensures retry <==> old(clock) < deadline
      ensures clock >= old(clock) && (!retry ==> clock == old(clock))
      ensures retry ==> clock <= deadline + 0.001
      ensures retry ==> var slept, slow := clock - old(clock), old(clock) >= deadline - patience + 2.0;
        && 0.001 <= slept <= (if slow then 1.0 else 0.15)
        && (slept >= (if slow then 0.25 else 0.02) || clock >= deadline)
      ensures retry ==> Slots(deadline - clock) < Slots(deadline - old(clock))
    {
      var now := clock;
      if now >= deadline {
        return false;
      }
      var slow := now - (deadline - patience) >= SLOW_AFTER;
      var jitter := if slow then SLOW_MIN + luck(attempts) * (SLOW_MAX - SLOW_MIN)
                    else RETRY_MIN + luck(attempts) * (RETRY_MAX - RETRY_MIN);
      clock := now + Min(jitter, Max(deadline - now, FINAL_SLEEP));
      SlotsShrink(deadline - now, deadline - clock);
      return true;
    }

    /** Detach corrupt indexes so that canonical writes can continue. */
    method EnterFtsFailOpen(detached: bool) returns (entered: bool)
      modifies this`ftsEnabled
      ensures entered <==> old(ftsEnabled) && detached
      ensures ftsEnabled == (old(ftsEnabled) && !entered)
    {
      if !ftsEnabled || !detached {
        return false;
      }
      ftsEnabled := false;
      return true;
    }

    method CountWrite()
      requires Valid()
      modifies this`writeCount, this`checkpoints, this`merges
      ensures Valid() && writeCount == old(writeCount) + 1
    {
      writeCount := writeCount + 1;
      if writeCount % CHECKPOINT_EVERY == 0 {
        checkpoints := checkpoints + 1;
      }
      if writeCount % MERGE_EVERY == 0 {
        merges := merges + 1;
      }
    }

    /** What to do about an attempt that failed, and whether to go round again. */
    method RetryAfter(outcome: Outcome, deadline: real, patience: real, busyUntil: Option<real>, diskRetried: bool)
      returns (retry: bool, busyUntil': Option<real>, diskRetried': bool)
      requires Valid() && !outcome.Committed?
      modifies this`clock, this`ftsEnabled
      ensures Valid()
      ensures clock >= old(clock)
      ensures retry ==> !outcome.Fatal? && outcome != DiskIo(true)
      ensures retry && outcome.FtsCorrupt? <==> old(ftsEnabled) && !ftsEnabled
      ensures ftsEnabled ==> old(ftsEnabled)
      ensures outcome == FtsCorrupt(true) ==> !ftsEnabled
      ensures diskRetried' == (diskRetried || (retry && outcome.DiskIo?))
      ensures retry && outcome.DiskIo? ==> !diskRetried
      ensures busyUntil' == if outcome.CompressionBusy? && busyUntil.None?
                            then Some(Min(old(clock) + 5.0, deadline)) else busyUntil
      ensures retry && !outcome.FtsCorrupt? && busyUntil' == busyUntil ==>
        Budget(deadline, busyUntil, clock) < Budget(deadline, busyUntil, old(clock))
      ensures retry && !outcome.CompressionBusy? && !outcome.FtsCorrupt? ==>
        clock <= deadline + 0.001 && Slots(deadline - clock) < Slots(deadline - old(clock))
      ensures !retry && (outcome.Locked? || outcome.NoMoreRows?) ==> old(clock) >= deadline
      ensures !retry && outcome.CompressionBusy? ==> old(clock) >= busyUntil'.value
      ensures !retry && outcome == DiskIo(false) ==> diskRetried || old(clock) >= deadline
      ensures !retry || outcome.FtsCorrupt? ==> clock == old(clock)
    {
      retry, busyUntil', diskRetried' := false, busyUntil, diskRetried;
      match outcome {
        case CompressionBusy =>
          if busyUntil.None? {
            busyUntil' := Some(Min(clock + COMPRESSION_BUSY_WAIT, deadline));
          }
          retry := SleepBeforeWriteRetry(busyUntil'.value, COMPRESSION_BUSY_WAIT);
        case NoMoreRows =>
          retry := SleepBeforeWriteRetry(deadline, patience);
        case Locked(_) =>
          retry := SleepBeforeWriteRetry(deadline, patience);
        case DiskIo(started) =>
          if !started && !diskRetried {
            retry := SleepBeforeWriteRetry(deadline, patience);
            diskRetried' := retry;
          }
        case FtsCorrupt(detached) =>
          retry := EnterFtsFailOpen(detached);
        case Fatal =>
      }
      BudgetMonotone(deadline, busyUntil, old(clock), clock);
    }

    /** The end of an attempt that did not commit. */
    method AfterFailure(outcome: Outcome, deadline: real, patience: real, busyUntil: Option<real>, diskRetried: bool,
                        ghost run: seq<Attempt>, ghost start: real, ghost fts: bool)
      returns (result: Option<Result>, busyUntil': Option<real>, diskRetried': bool, a: Attempt)
      requires Valid() && !outcome.Committed? && deadline == start + patience
      requires busyUntil.Some? ==> start + Min(5.0, patience) <= busyUntil.value
      requires Sofar(run, start, patience, fts, ftsEnabled, diskRetried, clock)
      modifies this`clock, this`ftsEnabled, this`history
      ensures Valid() && history == old(history) + [a]
      ensures result.Some? ==> result != Some(Returned)
      ensures result.Some? ==> Settled(run + [a], result.value, start, patience, fts, ftsEnabled)
      ensures result.None? ==>
        && Sofar(run + [a], start, patience, fts, ftsEnabled, diskRetried', clock)
        && (busyUntil'.Some? ==> start + Min(5.0, patience) <= busyUntil'.value)
        && (ftsEnabled ==> old(ftsEnabled)) && (busyUntil.Some? ==> busyUntil' == busyUntil)
        && (ftsEnabled == old(ftsEnabled) && busyUntil' == busyUntil ==>
              Budget(deadline, busyUntil, clock) < Budget(deadline, busyUntil, old(clock)))
    {
      ghost var ended, fts0 := clock, ftsEnabled;
      var retry;
      retry, busyUntil', diskRetried' := RetryAfter(outcome, deadline, patience, busyUntil, diskRetried);
      a := Attempt(outcome, retry, clock);
      history := history + [a];
      if !retry {
        Settle(run, a, Raised(outcome), start, patience, fts, ftsEnabled, diskRetried, ended);
        return Some(Raised(outcome)), busyUntil', diskRetried', a;
      }
      Extend(run, a, start, patience, fts, fts0, ftsEnabled, diskRetried, diskRetried', ended);
      result := None;
    }

    /** One time round the loop: `result` is set when it ends there. */
    method Turn(deadline: real, patience: real, busyUntil: Option<real>, diskRetried: bool,
                ghost run: seq<Attempt>, ghost start: real, ghost fts: bool)
      returns (result: Option<Result>, busyUntil': Option<real>, diskRetried': bool, a: Attempt)
      requires Valid() && deadline == start + patience
      requires busyUntil.Some? ==> start + Min(5.0, patience) <= busyUntil.value
      requires Sofar(run, start, patience, fts, ftsEnabled, diskRetried, clock)
      modifies this
      ensures Valid() && history == old(history) + [a]
      ensures result.Some? ==> Settled(run + [a], result.value, start, patience, fts, ftsEnabled)
      ensures writeCount == old(writeCount) + (if result == Some(Returned) then 1 else 0)
      ensures result.None? ==>
        && Sofar(run + [a], start, patience, fts, ftsEnabled, diskRetried', clock)
        && (busyUntil'.Some? ==> start + Min(5.0, patience) <= busyUntil'.value)
        && (ftsEnabled ==> old(ftsEnabled)) && (busyUntil.Some? ==> busyUntil' == busyUntil)
        && (ftsEnabled == old(ftsEnabled) && busyUntil' == busyUntil ==>
              Budget(deadline, busyUntil, clock) < Budget(deadline, busyUntil, old(clock)))
    {
      ghost var before := clock;
      var outcome := Try();
      BudgetMonotone(deadline, busyUntil, before, clock);
      Wait(run, start, patience, fts, ftsEnabled, diskRetried, before, clock);
      if outcome.Committed? {
        CountWrite();
        a := Attempt(outcome, false, clock);
        history := history + [a];
        Settle(run, a, Returned, start, patience, fts, ftsEnabled, diskRetried, clock);
        return Some(Returned), busyUntil, diskRetried, a;
      }
      result, busyUntil', diskRetried', a :=
        AfterFailure(outcome, deadline, patience, busyUntil, diskRetried, run, start, fts);
    }

    /** Run the callback until one attempt commits or an error is final. */
    method ExecuteWrite(patience: real) returns (r: Result)
      requires Valid()
      modifies this
      ensures Valid()
      ensures |history| > |old(history)| && history[..|old(history)|] == old(history)
      ensures Settled(history[|old(history)|..], r, old(clock), patience, old(ftsEnabled), ftsEnabled)
      ensures writeCount == old(writeCount) + (if r.Returned? then 1 else 0)
    {
      var deadline := clock + patience;
      var busyUntil: Option<real> := None;
      var diskRetried := false;
      ghost var start, fts := clock, ftsEnabled;
      ghost var run: seq<Attempt> := [];
      while true
        invariant Valid() && writeCount == old(writeCount)
        invariant history == old(history) + run
        invariant busyUntil.Some? ==> start + Min(5.0, patience) <= busyUntil.value
        invariant Sofar(run, start, patience, fts, ftsEnabled, diskRetried, clock)
        decreases ftsEnabled, busyUntil.None?, Budget(deadline, busyUntil, clock)
      {
        var result, a;
        result, busyUntil, diskRetried, a := Turn(deadline, patience, busyUntil, diskRetried, run, start, fts);
        run := run + [a];
        if result.Some? {
          assert history[|old(history)|..] == run;
          return result.value;
        }
      }
    }
  }
}
