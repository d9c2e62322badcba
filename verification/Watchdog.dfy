/** The startup watchdog: a handle whose deadline other threads push out, and the thread that fires when a
    deadline passes without evidence of progress. */
module Watchdog {

  datatype Phase = Armed | Disarmed | Firing

  datatype Handle = Handle(phase: Phase, deadline: real, leaseUntil: real, extensions: nat)

  const POLL_SLICE := 5.0
  const MAX_LEASE := 900.0
  const MAX_CPU_EXTENSIONS := 3

  function Min(a: real, b: real): real {
    if a < b then a else b
  }

  function Max(a: real, b: real): real {
    if a < b then b else a
  }

  // ---------------------------------------------------------------- Sections under the state lock

  function StoodDown(h: Handle): Handle {
    if h.phase == Armed then h.(phase := Disarmed) else h
  }

  function Kicked(h: Handle, now: real, timeout: real, extra: real): Handle {
    h.(deadline := now + timeout + Max(0.0, extra))
  }

  function Leased(h: Handle, now: real, expected: real): Handle {
    if expected <= 0.0 then h else h.(leaseUntil := Max(h.leaseUntil, now + Min(expected, MAX_LEASE)))
  }

  function Extended(h: Handle, deadline: real): Handle {
    if h.phase != Armed then h else h.(deadline := deadline)
  }

  function Claimed(h: Handle): Handle {
    if h.phase != Armed then h else h.(phase := Firing)
  }

  class StartupWatchdogHandle {
    const timeout: real
    var phase: Phase
    var deadline: real
    var leaseUntil: real
    var extensions: nat
    var leaseCount: nat

    function View(): Handle
      reads this
    {
      Handle(phase, deadline, leaseUntil, extensions)
    }

    constructor (timeout: real, now: real)
      ensures View() == Handle(Armed, now + timeout, 0.0, 0) && this.timeout == timeout
      ensures forall delay :: View() == Start(Config(timeout, delay), now).h
    {
      this.timeout := timeout;
      phase, deadline, leaseUntil, extensions, leaseCount := Armed, now + timeout, 0.0, 0, 0;
    }

    method Disarm()
      modifies this`phase
      ensures View() == StoodDown(old(View()))
      ensures phase != Armed
      ensures phase == if old(phase) == Armed then Disarmed else old(phase)
    {
      if phase == Armed {
        phase := Disarmed;
      }
    }

    method Kick(now: real, extra: real)
      modifies this`deadline
      ensures View() == Kicked(old(View()), now, timeout, extra)
      ensures deadline == now + timeout + (if extra > 0.0 then extra else 0.0)
    {
      var more := extra;
      if more < 0.0 {
        more := 0.0;
      }
      deadline := now + timeout + more;
    }

    method Lease(now: real, expected: real)
      modifies this`leaseUntil, this`leaseCount
      ensures View() == Leased(old(View()), now, expected)
      ensures leaseCount == old(leaseCount) + (if expected > 0.0 then 1 else 0)
      ensures old(leaseUntil) <= leaseUntil <= Max(old(leaseUntil), now + 900.0)
      ensures expected > 0.0 ==> leaseUntil >= now + Min(expected, 900.0)
      ensures leaseUntil == old(leaseUntil) || (expected > 0.0 && leaseUntil == now + Min(expected, 900.0))
    {
      if expected <= 0.0 { return; }
      var granted := expected;
      if granted > MAX_LEASE {
        granted := MAX_LEASE;
      }
      if leaseUntil < now + granted {
        leaseUntil := now + granted;
      }
      leaseCount := leaseCount + 1;
    }

    method ExtendIfArmed(target: real) returns (extended: bool)
      modifies this`deadline
      ensures View() == Extended(old(View()), target)
      ensures extended <==> phase == Armed
    {
      if phase != Armed { return false; }
      deadline := target;
      return true;
    }

    /** Disarm and fire race for the lock; the first to take it wins. */
    method ClaimFire() returns (firing: bool)
      modifies this`phase
      ensures View() == Claimed(old(View()))
      ensures firing <==> old(phase) == Armed
    {
      if phase != Armed { return false; }
      phase := Firing;
      return true;
    }
  }

  // ---------------------------------------------------------------- The watchdog thread

  /** What the thread had in hand when it decided. */
  datatype Evidence = Evidence(deadline: real, lease: real, at: real, progress: bool)

  /** Where the thread is between two atomic sections. */
  datatype Pc =
    | Top
    | Sampled(deadline: real)
    | Sleeping(latest: real)
    | LeaseCheck(deadline: real)
    | CpuCheck(deadline: real, lease: real, at: real)
    | Extending(target: real)
    | Claiming(evidence: Evidence)
    | Fired(evidence: Evidence)
    | Stopped

  datatype World = World(now: real, h: Handle, pc: Pc)

  /** `timeout` of the handle, and the greatest delay between the end of a wait and the thread's wake-up. */
  datatype Config = Config(timeout: real, delay: real)

  datatype Step =
    | Disarm
    | Kick(extra: real)
    | Lease(expected: real)
    | SampleDeadline
    | Decide
    | Wake
    | SampleLease
    | JudgeCpu(progress: bool)
    | ApplyExtension
    | Claim
    | Tick(dt: real)

  /** Time passes only while the thread waits, or when it is done. */
  predicate MayPass(w: World, dt: real) {
    dt > 0.0 && (w.pc.Fired? || w.pc.Stopped? || (w.pc.Sleeping? && w.now + dt <= w.pc.latest))
  }

  /** A step that is not enabled does nothing. */
  function Do(g: Config, w: World, step: Step): World {
    match step
    case Disarm => w.(h := StoodDown(w.h))
    case Kick(extra) => w.(h := Kicked(w.h, w.now, g.timeout, extra))
    case Lease(expected) => w.(h := Leased(w.h, w.now, expected))
    case SampleDeadline =>
      if !w.pc.Top? then w
      else if w.h.phase != Armed then w.(pc := Stopped)
      else w.(pc := Sampled(w.h.deadline))
    case Decide =>
      if !w.pc.Sampled? then w
      else if w.pc.deadline > w.now then
        w.(pc := Sleeping(w.now + Min(w.pc.deadline - w.now, POLL_SLICE) + g.delay))
      else w.(pc := LeaseCheck(w.pc.deadline))
    case Wake =>
      if !w.pc.Sleeping? then w else w.(pc := if w.h.phase == Disarmed then Stopped else Top)
    case SampleLease =>
      if !w.pc.LeaseCheck? then w
      else if w.h.leaseUntil > w.now then
        w.(pc := Extending(Max(w.h.leaseUntil, w.now + Min(POLL_SLICE, g.timeout))))
      else w.(pc := CpuCheck(w.pc.deadline, w.h.leaseUntil, w.now))
    case JudgeCpu(progress) =>
      if !w.pc.CpuCheck? then w
      else if progress && w.h.extensions < MAX_CPU_EXTENSIONS then
        w.(h := w.h.(extensions := w.h.extensions + 1), pc := Extending(w.now + g.timeout))
      else w.(pc := Claiming(Evidence(w.pc.deadline, w.pc.lease, w.pc.at, progress)))
    case ApplyExtension =>
      if !w.pc.Extending? then w
      else if w.h.phase != Armed then w.(pc := Stopped)
      else w.(h := Extended(w.h, w.pc.target), pc := Top)
    case Claim =>
      if !w.pc.Claiming? then w
      else if w.h.phase != Armed then w.(pc := Stopped)
      else w.(h := Claimed(w.h), pc := Fired(w.pc.evidence))
    case Tick(dt) => if MayPass(w, dt) then w.(now := w.now + dt) else w
  }

  function Run(g: Config, w: World, steps: seq<Step>): World {
    if steps == [] then w else Do(g, Run(g, w, steps[..|steps| - 1]), steps[|steps| - 1])
  }

  function Start(g: Config, armedAt: real): World {
    World(armedAt, Handle(Armed, armedAt + g.timeout, 0.0, 0), Top)
  }

  // ---------------------------------------------------------------- Safety

  /** Once disarmed or firing, always so. */
  lemma {:induction false} LeavesArmedOnce(g: Config, w: World, steps: seq<Step>)
    requires w.h.phase != Armed
    ensures Run(g, w, steps).h.phase == w.h.phase
  {
    if steps != [] {
      LeavesArmedOnce(g, w, steps[..|steps| - 1]);
    }
  }

  /** A disarm decides the race with the thread: whatever follows it, the watchdog fires exactly when the
      claim came first, and a disarm that came first is never undone. */
  lemma {:induction false} DisarmDecides(g: Config, w: World, steps: seq<Step>)
    ensures var u := Run(g, Do(g, w, Disarm), steps);
      (u.h.phase == Firing <==> w.h.phase == Firing) && (u.h.phase == Disarmed <==> w.h.phase != Firing)
  {
    LeavesArmedOnce(g, Do(g, w, Disarm), steps);
  }

  /** The deadline the thread sampled had passed, the lease it sampled had expired, and CPU progress was
      absent or its extensions spent. */
  predicate Justified(ev: Evidence, extensions: nat) {
    ev.deadline <= ev.at && ev.lease <= ev.at && (ev.progress ==> extensions == 3)
  }

  predicate Sober(w: World) {
    && w.h.extensions <= MAX_CPU_EXTENSIONS
    && (w.pc.Stopped? ==> w.h.phase != Armed)
    && (w.h.phase == Firing <==> w.pc.Fired?)
    && match w.pc
       case LeaseCheck(d) => d <= w.now
       case CpuCheck(d, lease, at) => d <= at && lease <= at && at == w.now
       case Claiming(ev) => Justified(ev, w.h.extensions) && ev.at == w.now
       case Fired(ev) => Justified(ev, w.h.extensions) && ev.at <= w.now
       case _ => true
  }

  lemma StepSober(g: Config, w: World, step: Step)
    requires Sober(w)
    ensures Sober(Do(g, w, step)) && Do(g, w, step).h.extensions >= w.h.extensions
  {
  }

  lemma {:induction false} FiresOnlyWithCause(g: Config, armedAt: real, steps: seq<Step>)
    ensures Sober(Run(g, Start(g, armedAt), steps))
  {
    if steps != [] {
      FiresOnlyWithCause(g, armedAt, steps[..|steps| - 1]);
      StepSober(g, Run(g, Start(g, armedAt), steps[..|steps| - 1]), steps[|steps| - 1]);
    }
  }

  // ---------------------------------------------------------------- Not before its time

  /** The thread has the lease in hand, so a lease claimed now comes too late for it. */
  predicate Judging(w: World) {
    w.pc.CpuCheck? || w.pc.Claiming?
  }

  /** What the thread may still act on counts a lease until `b`. */
  predicate Honours(w: World, b: real) {
    w.h.leaseUntil >= b &&
    match w.pc
    case CpuCheck(_, lease, at) => b <= lease <= at
    case Claiming(ev) => b <= ev.lease <= ev.at
    case Fired(ev) => b <= ev.lease <= ev.at
    case _ => true
  }

  lemma {:induction false} HonoursAlways(g: Config, w: World, steps: seq<Step>, b: real)
    requires Honours(w, b)
    ensures Honours(Run(g, w, steps), b)
  {
    if steps != [] {
      HonoursAlways(g, w, steps[..|steps| - 1], b);
    }
  }

  /** The run fires on evidence from before `b`. */
  ghost predicate FiresBefore(g: Config, w: World, steps: seq<Step>, b: real) {
    var u := Run(g, w, steps); u.pc.Fired? && u.pc.evidence.at < b
  }

  ghost predicate NeverFiresBefore(g: Config, w: World, b: real) {
    forall steps :: !FiresBefore(g, w, steps, b)
  }

  /** A lease claimed on an armed watchdog is kept by every run, up to its clamp, exactly when the thread has
      not sampled the lease before: else the thread may fire at once. */
  lemma {:induction false} LeaseKeptIff(g: Config, armedAt: real, before: seq<Step>, expected: real)
    requires Run(g, Start(g, armedAt), before).h.phase == Armed && expected > 0.0
    ensures var w := Run(g, Start(g, armedAt), before);
      NeverFiresBefore(g, Do(g, w, Lease(expected)), w.now + Min(expected, 900.0)) <==> !Judging(w)
  {
    var w := Run(g, Start(g, armedAt), before);
    var u, b := Do(g, w, Lease(expected)), w.now + Min(expected, 900.0);
    FiresOnlyWithCause(g, armedAt, before);
    if Judging(w) {
      var steps := FireAtOnce(g, u);
      assert FiresBefore(g, u, steps, b);
    } else {
      forall steps ensures !FiresBefore(g, u, steps, b) {
        HonoursAlways(g, u, steps, b);
      }
    }
  }

  lemma {:induction false} FireAtOnce(g: Config, u: World) returns (steps: seq<Step>)
    requires Sober(u) && u.h.phase == Armed && Judging(u)
    ensures Run(g, u, steps).pc.Fired? && Run(g, u, steps).pc.evidence.at == u.now
  {
    if u.pc.Claiming? {
      steps := [Claim];
      assert [Claim][..0] == [];
    } else {
      steps := [JudgeCpu(false), Claim];
      assert steps[..1] == [JudgeCpu(false)] && [JudgeCpu(false)][..0] == [];
      assert Run(g, u, steps[..1]) == Do(g, u, JudgeCpu(false));
    }
  }

  /** Whatever the thread may still act on, it finds no deadline before `b` to have passed. */
  predicate Floor(w: World, b: real) {
    match w.pc
    case Sampled(d) => w.now >= b || (d > w.now && w.h.deadline >= b)
    case Extending(target) => w.now >= b || target >= b
    case CpuCheck(_, _, at) => at >= b
    case Claiming(ev) => ev.at >= b
    case Fired(ev) => ev.at >= b
    case LeaseCheck(_) => w.now >= b
    case Stopped => true
    case _ => w.now >= b || w.h.deadline >= b
  }

  lemma StepFloor(g: Config, w: World, step: Step, b: real)
    requires Sober(w) && Floor(w, b) && !step.Kick?
    ensures Floor(Do(g, w, step), b)
  {
  }

  lemma {:induction false} FloorHolds(g: Config, w: World, steps: seq<Step>, b: real)
    requires Sober(w) && Floor(w, b) && forall i :: 0 <= i < |steps| ==> !steps[i].Kick?
    ensures Sober(Run(g, w, steps)) && Floor(Run(g, w, steps), b)
  {
    if steps != [] {
      FloorHolds(g, w, steps[..|steps| - 1], b);
      StepFloor(g, Run(g, w, steps[..|steps| - 1]), steps[|steps| - 1], b);
      StepSober(g, Run(g, w, steps[..|steps| - 1]), steps[|steps| - 1]);
    }
  }

  /** A kick that finds the thread with no deadline in hand that has passed keeps the watchdog from firing
      for a timeout and whatever extra was asked for, unless it is kicked again. */
  lemma {:induction false} KickHolds(g: Config, armedAt: real, before: seq<Step>, extra: real, steps: seq<Step>)
    requires forall i :: 0 <= i < |steps| ==> !steps[i].Kick?
    requires var w := Run(g, Start(g, armedAt), before);
      w.pc.Top? || w.pc.Sleeping? || (w.pc.Sampled? && w.pc.deadline > w.now)
    ensures var w := Run(g, Start(g, armedAt), before);
      var b := w.now + g.timeout + (if extra > 0.0 then extra else 0.0);
      !FiresBefore(g, Do(g, w, Kick(extra)), steps, b)
  {
    var w := Run(g, Start(g, armedAt), before);
    FiresOnlyWithCause(g, armedAt, before);
    FloorHolds(g, Do(g, w, Kick(extra)), steps, w.now + g.timeout + Max(0.0, extra));
  }

  /** CPU progress seen in time, while an extension is left, buys a whole timeout; a lease that is honoured
      buys its whole length. */
  lemma {:induction false} ExtensionHolds(g: Config, armedAt: real, before: seq<Step>, steps: seq<Step>)
    requires forall i :: 0 <= i < |steps| ==> !steps[i].Kick?
    ensures var w := Run(g, Start(g, armedAt), before);
      && (w.pc.CpuCheck? && w.h.extensions < 3 ==>
            !FiresBefore(g, Do(g, w, JudgeCpu(true)), steps, w.now + g.timeout)
            && Do(g, w, JudgeCpu(true)).h.extensions == w.h.extensions + 1)
      && (w.pc.LeaseCheck? && w.h.leaseUntil > w.now ==>
            !FiresBefore(g, Do(g, w, SampleLease), steps, w.h.leaseUntil)
            && !FiresBefore(g, Do(g, w, SampleLease), steps, w.now + Min(5.0, g.timeout)))
  {
    var w := Run(g, Start(g, armedAt), before);
    FiresOnlyWithCause(g, armedAt, before);
    if w.pc.CpuCheck? && w.h.extensions < 3 {
      FloorHolds(g, Do(g, w, JudgeCpu(true)), steps, w.now + g.timeout);
    }
    if w.pc.LeaseCheck? && w.h.leaseUntil > w.now {
      FloorHolds(g, Do(g, w, SampleLease), steps, w.h.leaseUntil);
      FloorHolds(g, Do(g, w, SampleLease), steps, w.now + Min(5.0, g.timeout));
    }
  }

  // ---------------------------------------------------------------- Bounded wake-ups

  predicate Sane(g: Config) {
    g.timeout > 0.0 && g.delay >= 0.0
  }

  /** How far a kick that shortens the deadline may leave the thread asleep past it. */
  function Slack(g: Config): real {
    Max(0.0, 5.0 - g.timeout)
  }

  /** The thread looks at the clock no later than this long after the current deadline. */
  predicate Prompt(g: Config, w: World) {
    var late := w.h.deadline + g.delay + Slack(g);
    match w.pc
    case Sampled(d) => w.now <= late && Min(d, w.now + POLL_SLICE) <= w.h.deadline + Slack(g)
    case Sleeping(latest) => w.now <= latest <= late && latest <= w.now + POLL_SLICE + g.delay
    case Extending(target) => w.now < target
    case Fired(_) => true
    case Stopped => true
    case _ => w.now <= late
  }

  lemma StepPrompt(g: Config, w: World, step: Step)
    requires Sane(g) && Prompt(g, w)
    ensures Prompt(g, Do(g, w, step))
  {
  }

  lemma {:induction false} RunPrompt(g: Config, armedAt: real, steps: seq<Step>)
    requires Sane(g)
    ensures Prompt(g, Run(g, Start(g, armedAt), steps))
  {
    if steps != [] {
      RunPrompt(g, armedAt, steps[..|steps| - 1]);
      StepPrompt(g, Run(g, Start(g, armedAt), steps[..|steps| - 1]), steps[|steps| - 1]);
    }
  }

  // ---------------------------------------------------------------- Firing in time

  predicate Quiet(step: Step) {
    !step.Kick? && !step.Lease?
  }

  ghost predicate AllQuiet(steps: seq<Step>) {
    forall i :: 0 <= i < |steps| ==> Quiet(steps[i])
  }

  /** The deadline in force, counting an extension that is already decided. */
  function DeadlineOf(w: World): real {
    if w.pc.Extending? then w.pc.target else w.h.deadline
  }

  /** What `k` further CPU extensions can add. */
  function Spent(g: Config, k: nat): real {
    if k == 0 then 0.0 else Spent(g, k - 1) + g.timeout + g.delay
  }

  lemma {:induction false} SpentMonotone(g: Config, j: nat, k: nat)
    requires Sane(g) && j <= k
    ensures 0.0 <= Spent(g, j) <= Spent(g, k)
  {
    if k > j {
      SpentMonotone(g, j, k - 1);
    } else if k > 0 {
      SpentMonotone(g, k - 1, k - 1);
    }
  }

  lemma {:induction false} SpentIs(g: Config, k: nat)
    ensures Spent(g, k) == k as real * (g.timeout + g.delay)
  {
    if k > 0 {
      SpentIs(g, k - 1);
      assert k as real == (k - 1) as real + 1.0;
    }
  }

  /** The end of the lease, or the deadline with one wake-up and one poll. */
  function Ceiling(g: Config, w0: World): real {
    Max(w0.h.leaseUntil, DeadlineOf(w0) + g.delay + 5.0)
  }

  /** No lease has been honoured since `w0`. */
  predicate Before(g: Config, w0: World, w: World) {
    w.h.extensions >= w0.h.extensions &&
    var base := DeadlineOf(w0) + Slack(g) + Spent(g, w.h.extensions - w0.h.extensions);
    && DeadlineOf(w) <= base
    && match w.pc
       case Sampled(d) => w.now <= base + g.delay && Min(d, w.now + POLL_SLICE) <= base
       case Sleeping(latest) => w.now <= latest <= base + g.delay
       case Extending(_) => w.now <= base
       case Fired(_) => true
       case Stopped => true
       case _ => w.now <= base + g.delay
  }

  /** The lease has been honoured: the deadline is past it, so it is not honoured again. */
  predicate After(g: Config, w0: World, w: World) {
    w.h.extensions >= w0.h.extensions &&
    var base := Ceiling(g, w0) + Spent(g, w.h.extensions - w0.h.extensions);
    && w.h.leaseUntil <= DeadlineOf(w) <= base
    && match w.pc
       case Sampled(d) => w.now <= base + g.delay && w.h.leaseUntil <= d <= base
       case Sleeping(latest) => w.now <= latest <= base + g.delay
       case LeaseCheck(d) => w.now <= base + g.delay && w.h.leaseUntil <= d <= w.now
       case CpuCheck(_, lease, at) => w.now <= base + g.delay && w.h.leaseUntil <= w.now
       case Extending(_) => w.now <= base
       case Fired(_) => true
       case Stopped => true
       case _ => w.now <= base + g.delay
  }

  predicate OnTrack(g: Config, w0: World, w: World) {
    w.h.leaseUntil == w0.h.leaseUntil && (w.h.phase == Armed ==> Before(g, w0, w) || After(g, w0, w))
  }

  lemma SpentNext(g: Config, k: nat)
    requires Sane(g)
    ensures Spent(g, k) >= 0.0 && Spent(g, k + 1) == Spent(g, k) + g.timeout + g.delay
  {
    SpentMonotone(g, 0, k);
  }

  lemma HonourLease(g: Config, w0: World, w: World)
    requires Sane(g) && w.h.leaseUntil == w0.h.leaseUntil && Before(g, w0, w)
    requires w.pc.LeaseCheck? && w.h.leaseUntil > w.now
    ensures After(g, w0, Do(g, w, SampleLease))
  {
    SpentNext(g, w.h.extensions - w0.h.extensions);
  }

  lemma BeforeStep(g: Config, w0: World, w: World, step: Step)
    requires Sane(g) && Quiet(step) && w.h.phase == Armed && Before(g, w0, w)
    requires !(step.SampleLease? && w.pc.LeaseCheck? && w.h.leaseUntil > w.now)
    ensures var v := Do(g, w, step); v.h.phase == Armed ==> Before(g, w0, v)
  {
    SpentNext(g, w.h.extensions - w0.h.extensions);
  }

  lemma AfterStep(g: Config, w0: World, w: World, step: Step)
    requires Sane(g) && Quiet(step) && w.h.phase == Armed && After(g, w0, w)
    ensures var v := Do(g, w, step); v.h.phase == Armed ==> After(g, w0, v)
  {
    SpentNext(g, w.h.extensions - w0.h.extensions);
  }

  lemma QuietStep(g: Config, w0: World, w: World, step: Step)
    requires Sane(g) && Quiet(step) && OnTrack(g, w0, w)
    ensures OnTrack(g, w0, Do(g, w, step))
  {
    if w.h.phase == Armed {
      if After(g, w0, w) {
        AfterStep(g, w0, w, step);
      } else if step.SampleLease? && w.pc.LeaseCheck? && w.h.leaseUntil > w.now {
        HonourLease(g, w0, w);
      } else {
        BeforeStep(g, w0, w, step);
      }
    }
  }

  /** The last moment at which a watchdog left alone since `w0` can still be armed: the end of the lease or
      the deadline plus one poll, plus one wake-up, plus what the unused CPU extensions add. */
  function LastMoment(g: Config, w0: World): real
    requires w0.h.extensions <= 3
  {
    Ceiling(g, w0) + g.delay + Spent(g, 3 - w0.h.extensions)
  }

  lemma InTime(g: Config, w0: World, w: World)
    requires Sane(g) && Sober(w0) && Sober(w) && OnTrack(g, w0, w) && w.h.extensions >= w0.h.extensions
    ensures w.h.phase == Armed ==> w.now <= LastMoment(g, w0)
  {
    SpentMonotone(g, w.h.extensions - w0.h.extensions, MAX_CPU_EXTENSIONS - w0.h.extensions);
  }

  lemma FiresInTime(g: Config, armedAt: real, steps: seq<Step>, quiet: seq<Step>, w0: World, w: World)
    requires Sane(g) && AllQuiet(quiet)
    requires w0 == Run(g, Start(g, armedAt), steps) && w == Run(g, w0, quiet)
    ensures w0.h.extensions <= 3 && (w.now > LastMoment(g, w0) ==> w.h.phase != Armed)
  {
    FiresOnlyWithCause(g, armedAt, steps);
    RunPrompt(g, armedAt, steps);
    QuietRun(g, w0, quiet);
    InTime(g, w0, w);
  }

  lemma {:induction false} QuietRun(g: Config, w0: World, quiet: seq<Step>)
    requires Sane(g) && AllQuiet(quiet) && Sober(w0) && Prompt(g, w0)
    ensures var w := Run(g, w0, quiet);
      OnTrack(g, w0, w) && Sober(w) && w.h.extensions >= w0.h.extensions
  {
    if quiet == [] {
      StartsBefore(g, w0);
    } else {
      var w := Run(g, w0, quiet[..|quiet| - 1]);
      QuietRun(g, w0, quiet[..|quiet| - 1]);
      QuietStep(g, w0, w, quiet[|quiet| - 1]);
      StepSober(g, w, quiet[|quiet| - 1]);
    }
  }

  lemma StartsBefore(g: Config, w0: World)
    requires Sane(g) && Prompt(g, w0)
    ensures Before(g, w0, w0)
  {
  }

  // ---------------------------------------------------------------- It does fire

  /** A step of the thread that sees no CPU progress, or the passing of time. */
  predicate Alone(step: Step) {
    !step.Disarm? && !step.Kick? && !step.Lease? && step != JudgeCpu(true)
  }

  ghost predicate AllAlone(steps: seq<Step>) {
    forall i :: 0 <= i < |steps| ==> Alone(steps[i])
  }

  /** By such steps it can come from here to firing. */
  ghost predicate WillFire(g: Config, w: World) {
    exists steps :: AllAlone(steps) && Run(g, w, steps).pc.Fired?
  }

  lemma {:induction false} RunFrom(g: Config, w: World, step: Step, rest: seq<Step>)
    ensures Run(g, w, [step] + rest) == Run(g, Do(g, w, step), rest)
    decreases |rest|
  {
    if rest == [] {
      assert [step] + rest == [step] && [step][..0] == [];
    } else {
      var init := rest[..|rest| - 1];
      assert ([step] + rest)[..|rest|] == [step] + init;
      RunFrom(g, w, step, init);
    }
  }

  lemma {:induction false} OneStepEarlier(g: Config, w: World, step: Step)
    requires Alone(step) && WillFire(g, Do(g, w, step))
    ensures WillFire(g, w)
  {
    var rest :| AllAlone(rest) && Run(g, Do(g, w, step), rest).pc.Fired?;
    RunFrom(g, w, step, rest);
    assert AllAlone([step] + rest);
  }

  lemma FiredWillFire(g: Config, w: World)
    requires w.pc.Fired?
    ensures WillFire(g, w)
  {
    assert AllAlone([]) && Run(g, w, []) == w;
  }

  lemma FromClaiming(g: Config, w: World)
    requires w.pc.Claiming? && w.h.phase == Armed
    ensures WillFire(g, w)
  {
    FiredWillFire(g, Do(g, w, Claim));
    OneStepEarlier(g, w, Claim);
  }

  lemma FromCpuCheck(g: Config, w: World)
    requires w.pc.CpuCheck? && w.h.phase == Armed
    ensures WillFire(g, w)
  {
    FromClaiming(g, Do(g, w, JudgeCpu(false)));
    OneStepEarlier(g, w, JudgeCpu(false));
  }

  /** Polls left until the deadline. */
  function Polls(left: real): nat {
    if left <= 0.0 then 0 else (left / 5.0).Floor + 1
  }

  lemma PollsShrink(before: real, after: real)
    requires before > 0.0 && (after <= before - 5.0 || after <= 0.0)
    ensures Polls(after) < Polls(before)
  {
    if after > 0.0 {
      assert after / 5.0 <= before / 5.0 - 1.0;
    }
  }

  lemma {:induction false} FromSleeping(g: Config, w: World)
    requires Sane(g) && w.pc.Sleeping? && w.now <= w.pc.latest && w.h.phase == Armed
    requires WillFire(g, World(w.pc.latest, w.h, Top))
    ensures WillFire(g, w)
  {
    var awake := w.(now := w.pc.latest);
    assert Do(g, awake, Wake) == World(w.pc.latest, w.h, Top);
    OneStepEarlier(g, awake, Wake);
    if w.now < w.pc.latest {
      assert Do(g, w, Tick(w.pc.latest - w.now)) == awake;
      OneStepEarlier(g, w, Tick(w.pc.latest - w.now));
    }
  }

  /** From the top of its loop the thread polls until the deadline, honours a lease at most once, and fires. */
  lemma {:induction false} FromTop(g: Config, w: World)
    requires Sane(g) && w.pc.Top? && w.h.phase == Armed
    ensures WillFire(g, w)
    decreases w.h.leaseUntil > w.h.deadline, Polls(w.h.deadline - w.now), 1
  {
    var sampled := Do(g, w, SampleDeadline);
    var decided := Do(g, sampled, Decide);
    if w.h.deadline > w.now {
      var later := World(decided.pc.latest, w.h, Top);
      PollsShrink(w.h.deadline - w.now, w.h.deadline - later.now);
      FromTop(g, later);
      FromSleeping(g, decided);
    } else {
      FromLeaseCheck(g, decided);
    }
    OneStepEarlier(g, sampled, Decide);
    OneStepEarlier(g, w, SampleDeadline);
  }

  lemma {:induction false} FromLeaseCheck(g: Config, w: World)
    requires Sane(g) && w.pc.LeaseCheck? && w.h.phase == Armed && w.pc.deadline <= w.now && w.h.deadline <= w.now
    ensures WillFire(g, w)
    decreases w.h.leaseUntil > w.h.deadline, 0, 0
  {
    var judged := Do(g, w, SampleLease);
    if w.h.leaseUntil > w.now {
      FromTop(g, Do(g, judged, ApplyExtension));
      OneStepEarlier(g, judged, ApplyExtension);
    } else {
      FromCpuCheck(g, judged);
    }
    OneStepEarlier(g, w, SampleLease);
  }

  /** Wherever the thread is while the watchdog is armed: if nobody disarms it, kicks it or claims a lease any
      more, and there is no CPU progress, it fires. */
  lemma {:induction false} FiresLeftAlone(g: Config, armedAt: real, before: seq<Step>)
    requires Sane(g) && Run(g, Start(g, armedAt), before).h.phase == Armed
    ensures WillFire(g, Run(g, Start(g, armedAt), before))
  {
    var w := Run(g, Start(g, armedAt), before);
    FiresOnlyWithCause(g, armedAt, before);
    RunPrompt(g, armedAt, before);
    FromAnywhere(g, w);
  }

  lemma {:induction false} FromAnywhere(g: Config, w: World)
    requires Sane(g) && Sober(w) && Prompt(g, w) && w.h.phase == Armed
    ensures WillFire(g, w)
    decreases if w.pc.Sampled? then 2 else if w.pc.LeaseCheck? then 1 else 0
  {
    match w.pc
    case Top => FromTop(g, w);
    case Sampled(_) =>
      StepPrompt(g, w, Decide);
      FromAnywhere(g, Do(g, w, Decide));
      OneStepEarlier(g, w, Decide);
    case Sleeping(latest) =>
      FromTop(g, World(latest, w.h, Top));
      FromSleeping(g, w);
    case LeaseCheck(_) =>
      StepPrompt(g, w, SampleLease);
      FromAnywhere(g, Do(g, w, SampleLease));
      OneStepEarlier(g, w, SampleLease);
    case CpuCheck(_, _, _) => FromCpuCheck(g, w);
    case Extending(_) =>
      FromTop(g, Do(g, w, ApplyExtension));
      OneStepEarlier(g, w, ApplyExtension);
    case Claiming(_) => FromClaiming(g, w);
    case _ =>
  }
}
