/** The batch runner over crashes and resumes: durable result lines, a checkpoint that lags behind them,
    and results that arrive in any order. */
module Batch {
  import opened Lineage

  /** A line of a batch file.  `discarded` marks a tombstone: a sample dropped for lack of reasoning. */
  datatype Line = Row(index: nat, text: string, discarded: bool, invalidTools: bool) | NotJson

  datatype Outcome = Success(invalidTools: bool) | NoReasoning | Failure

  /** A task of the pool: what its worker has yet to run, what it has completed, and whether its result
      has been received. */
  datatype Task = Task(todo: seq<nat>, completed: set<nat>, received: bool)

  /** A run in progress.  `skipped` holds the texts it was resumed past, `failed` whether a prompt failed. */
  datatype Progress = Progress(
    tasks: seq<Task>,
    known: set<nat>,
    base: set<nat>,
    skipped: set<string>,
    ran: seq<nat>,
    failed: bool)

  /** `data` is the prompt text of each dataset entry. */
  datatype World = World(data: seq<string>, lines: seq<Line>, checkpoint: set<nat>, progress: Option<Progress>)

  // ---------------------------------------------------------------- Resume

  function Chunk(s: seq<nat>, size: nat): seq<seq<nat>>
    requires size > 0
    decreases |s|
  {
    if s == [] then [] else if |s| <= size then [s] else [s[..size]] + Chunk(s[size..], size)
  }

  function Flat(ss: seq<seq<nat>>): seq<nat> {
    if ss == [] then [] else ss[0] + Flat(ss[1..])
  }

  lemma {:induction false} ChunkKeepsOrder(s: seq<nat>, size: nat)
    requires size > 0
    ensures Flat(Chunk(s, size)) == s
    ensures forall i :: 0 <= i < |Chunk(s, size)| ==> 0 < |Chunk(s, size)[i]| <= size
    decreases |s|
  {
    if s != [] {
      if |s| <= size {
        assert Flat([s]) == s + Flat([s][1..]) && [s][1..] == [];
        assert Flat([s]) == s + [] == s;
      } else {
        ChunkKeepsOrder(s[size..], size);
        var rest := Chunk(s[size..], size);
        assert ([s[..size]] + rest)[1..] == rest;
        assert s == s[..size] + s[size..];
      }
    }
  }

  lemma {:induction false} FlatMember(ss: seq<seq<nat>>, x: nat)
    ensures x in Flat(ss) <==> exists b :: 0 <= b < |ss| && x in ss[b]
  {
    if ss != [] {
      FlatMember(ss[1..], x);
      if x in Flat(ss) && x !in ss[0] {
        var b :| 0 <= b < |ss[1..]| && x in ss[1..][b];
        assert x in ss[b + 1];
      }
      if exists b :: 0 <= b < |ss| && x in ss[b] {
        var b :| 0 <= b < |ss| && x in ss[b];
        assert b > 0 ==> x in ss[1..][b - 1];
      }
    }
  }

  /** Prompt texts already processed, discarded ones included. */
  function Recorded(lines: seq<Line>): set<string> {
    set l | l in lines && l.Row? && l.text != "" :: l.text
  }

  function Indexed(lines: seq<Line>): set<nat> {
    set l | l in lines && l.Row? :: l.index
  }

  /** Dataset entries below `n` whose text is not among the completed ones, with their original index. */
  function Remaining(data: seq<string>, done: set<string>, n: nat): seq<nat>
    requires n <= |data|
  {
    if n == 0 then [] else Remaining(data, done, n - 1) + (if data[n - 1] in done then [] else [n - 1])
  }

  lemma {:induction false} RemainingMember(data: seq<string>, done: set<string>, n: nat)
    requires n <= |data|
    ensures forall i: nat :: i in Remaining(data, done, n) <==> i < n && data[i] !in done
  {
    if n > 0 {
      RemainingMember(data, done, n - 1);
    }
  }

  function Without(s: seq<nat>, known: set<nat>): seq<nat> {
    if s == [] then [] else (if s[0] in known then [] else [s[0]]) + Without(s[1..], known)
  }

  lemma {:induction false} WithoutMember(s: seq<nat>, known: set<nat>)
    ensures forall i: nat :: i in Without(s, known) <==> i in s && i !in known
  {
    if s != [] {
      WithoutMember(s[1..], known);
      assert s == [s[0]] + s[1..];
    }
  }

  function Tasks(batches: seq<seq<nat>>, known: set<nat>): seq<Task> {
    seq(|batches|, b requires 0 <= b < |batches| => Task(Without(batches[b], known), {}, false))
  }

  // ---------------------------------------------------------------- Steps

  datatype Step =
    | Begin(resume: bool, size: nat, named: bool)
    | RunNext(task: nat, outcome: Outcome)
    | Receive(task: nat, saved: bool)
    | FinalSave
    | Crash

  predicate HasTask(w: World, t: nat) {
    w.progress.Some? && t < |w.progress.value.tasks|
  }

  /** The line of a prompt that did not fail: its trajectory, or a tombstone. */
  function LineOf(data: seq<string>, i: nat, outcome: Outcome): Line
    requires i < |data|
  {
    Row(i, data[i], outcome.NoReasoning?, outcome.Success? && outcome.invalidTools)
  }

  /** A worker runs its next prompt; the line is durable before the prompt counts as completed. */
  function RunPrompt(w: World, t: nat, outcome: Outcome): World
    requires HasTask(w, t)
  {
    var s := w.progress.value;
    var task := s.tasks[t];
    if task.todo == [] then w
    else
      var i := task.todo[0];
      var ended := task.(todo := task.todo[1..]);
      var s' := s.(ran := s.ran + [i]);
      if outcome.Failure? || i >= |w.data| then
        w.(progress := Some(s'.(tasks := s.tasks[t := ended], failed := true)))
      else
        w.(lines := w.lines + [LineOf(w.data, i, outcome)],
           progress := Some(s'.(tasks := s.tasks[t := ended.(completed := task.completed + {i})])))
  }

  /** A finished task's result arrives; writing the checkpoint may fail. */
  function ReceiveResult(w: World, t: nat, saved: bool): World
    requires HasTask(w, t)
  {
    var s := w.progress.value;
    var task := s.tasks[t];
    if task.todo != [] || task.received then w
    else
      var known := s.known + task.completed;
      w.(progress := Some(s.(tasks := s.tasks[t := task.(received := true)], known := known)),
         checkpoint := if saved then known else w.checkpoint)
  }

  /** The checkpoint a run starts from: none when the file is unreadable or names another run. */
  function Loaded(w: World, named: bool): set<nat> {
    if named then w.checkpoint else {}
  }

  function Do(w: World, step: Step): World {
    match step
    case Begin(resume, size, named) =>
      if w.progress.Some? || size == 0 then w
      else
        var done := if resume then Recorded(w.lines) else {};
        var known := Loaded(w, named);
        var batches := Chunk(Remaining(w.data, done, |w.data|), size);
        w.(progress := Some(Progress(Tasks(batches, known), known, known, done, [], false)))
    case RunNext(t, outcome) => if HasTask(w, t) then RunPrompt(w, t, outcome) else w
    case Receive(t, saved) => if HasTask(w, t) then ReceiveResult(w, t, saved) else w
    case FinalSave => if w.progress.Some? then w.(checkpoint := w.progress.value.known) else w
    case Crash => w.(progress := None)
  }

  function Run(w: World, steps: seq<Step>): World {
    if steps == [] then w else Do(Run(w, steps[..|steps| - 1]), steps[|steps| - 1])
  }

  function Fresh(data: seq<string>): World {
    World(data, [], {}, None)
  }

  // ---------------------------------------------------------------- Invariants

  /** What is claimed to be completed has a durable line, and lines carry the text of their entry. */
  ghost predicate Backed(w: World) {
    && w.checkpoint <= Indexed(w.lines)
    && (forall l :: l in w.lines && l.Row? ==> l.index < |w.data| && l.text == w.data[l.index])
    && (w.progress.Some? ==>
          && w.progress.value.known <= Indexed(w.lines)
          && forall t :: 0 <= t < |w.progress.value.tasks| ==> w.progress.value.tasks[t].completed <= Indexed(w.lines))
  }

  /** Nothing the run was resumed past is run or waits to be run. */
  ghost predicate NoRerun(w: World, s: Progress) {
    && (forall i :: i in s.ran ==> i < |w.data| ==> w.data[i] !in s.skipped)
    && (forall t, i :: 0 <= t < |s.tasks| && i in s.tasks[t].todo ==> i < |w.data| ==> w.data[i] !in s.skipped)
  }

  ghost predicate Waits(s: Progress, i: nat) {
    exists t :: 0 <= t < |s.tasks| && i in s.tasks[t].todo
  }

  /** Every non-empty prompt is recorded, or waits, unless something failed. */
  ghost predicate Covers(w: World, s: Progress) {
    s.failed || forall i: nat :: i < |w.data| && w.data[i] != "" ==> w.data[i] in Recorded(w.lines) || Waits(s, i)
  }

  ghost predicate Given(s: Progress, i: nat) {
    exists t :: 0 <= t < |s.tasks| && s.tasks[t].received && i in s.tasks[t].completed
  }

  /** What is known is what the checkpoint said at the start and what the received tasks completed. */
  ghost predicate Merged(s: Progress) {
    && (forall t :: 0 <= t < |s.tasks| && s.tasks[t].received ==> s.tasks[t].todo == [])
    && forall i: nat :: i in s.known <==> i in s.base || Given(s, i)
  }

  ghost predicate Kept(w: World) {
    && Backed(w)
    && (w.progress.Some? ==> var s := w.progress.value; NoRerun(w, s) && Covers(w, s) && Merged(s))
  }

  lemma TaskHolds(batches: seq<seq<nat>>, known: set<nat>, i: nat)
    ensures (exists t :: 0 <= t < |batches| && i in Tasks(batches, known)[t].todo)
        <==> i !in known && exists b :: 0 <= b < |batches| && i in batches[b]
  {
    var tasks := Tasks(batches, known);
    forall t: nat | t < |tasks| ensures i in tasks[t].todo <==> i in batches[t] && i !in known {
      WithoutMember(batches[t], known);
    }
    if i !in known && exists b :: 0 <= b < |batches| && i in batches[b] {
      var b :| 0 <= b < |batches| && i in batches[b];
      assert i in tasks[b].todo;
    }
  }

  /** Who waits at the start of a run. */
  lemma {:induction false} WaitsAtStart(w: World, done: set<string>, known: set<nat>, size: nat, i: nat)
    requires size > 0
    ensures var tasks := Tasks(Chunk(Remaining(w.data, done, |w.data|), size), known);
      (exists t :: 0 <= t < |tasks| && i in tasks[t].todo) <==> i < |w.data| && w.data[i] !in done && i !in known
  {
    var todo := Remaining(w.data, done, |w.data|);
    RemainingMember(w.data, done, |w.data|);
    ChunkKeepsOrder(todo, size);
    FlatMember(Chunk(todo, size), i);
    TaskHolds(Chunk(todo, size), known, i);
  }

  lemma StartOf(w: World, resume: bool, size: nat, named: bool)
    requires w.progress.None? && size > 0
    ensures var u := Do(w, Begin(resume, size, named));
      && u.progress.Some? && u == w.(progress := u.progress)
      && var s := u.progress.value;
      && s.base == Loaded(w, named) == s.known && s.ran == [] && !s.failed
      && s.skipped == (if resume then Recorded(w.lines) else {})
      && s.tasks == Tasks(Chunk(Remaining(w.data, s.skipped, |w.data|), size), s.base)
  {
  }

  lemma {:induction false} BeginKeeps(w: World, resume: bool, size: nat, named: bool)
    requires Backed(w) && w.progress.None? && size > 0
    ensures Kept(Do(w, Begin(resume, size, named)))
  {
    StartOf(w, resume, size, named);
    var u := Do(w, Begin(resume, size, named));
    var s := u.progress.value;
    forall t, i: nat | 0 <= t < |s.tasks| && i in s.tasks[t].todo
      ensures i < |w.data| ==> w.data[i] !in s.skipped
    {
      WaitsAtStart(w, s.skipped, s.base, size, i);
    }
    forall i: nat | i < |w.data| && w.data[i] != "" ensures w.data[i] in Recorded(w.lines) || Waits(s, i) {
      WaitsAtStart(w, s.skipped, s.base, size, i);
      CheckpointedIsRecorded(w, i);
    }
  }

  lemma CheckpointedIsRecorded(w: World, i: nat)
    requires Backed(w) && i < |w.data| && w.data[i] != ""
    ensures i in w.checkpoint ==> w.data[i] in Recorded(w.lines)
  {
  }

  lemma RunPromptKeeps(w: World, t: nat, outcome: Outcome)
    requires Kept(w) && HasTask(w, t)
    ensures Kept(RunPrompt(w, t, outcome))
  {
    var u := RunPrompt(w, t, outcome);
    var s, s' := w.progress.value, u.progress.value;
    var task := s.tasks[t];
    if task.todo != [] {
      var i := task.todo[0];
      assert task.todo == [i] + task.todo[1..];
      assert forall l :: l in w.lines ==> l in u.lines;
      assert Indexed(w.lines) <= Indexed(u.lines) && Recorded(w.lines) <= Recorded(u.lines);
      if !s'.failed {
        var line := u.lines[|w.lines|];
        assert line in u.lines && line.index == i && line.text == w.data[i];
        forall j: nat | j < |w.data| && w.data[j] != "" ensures w.data[j] in Recorded(u.lines) || Waits(s', j) {
          if w.data[j] !in Recorded(w.lines) && j != i {
            var x :| 0 <= x < |s.tasks| && j in s.tasks[x].todo;
            assert j in s'.tasks[x].todo;
          }
        }
      }
      RunPromptMerged(w, t, outcome);
      RunPromptBacked(w, t, outcome);
    }
  }

  lemma RunPromptBacked(w: World, t: nat, outcome: Outcome)
    requires Backed(w) && HasTask(w, t) && w.progress.value.tasks[t].todo != []
    ensures Backed(RunPrompt(w, t, outcome))
  {
    var u := RunPrompt(w, t, outcome);
    assert forall l :: l in w.lines ==> l in u.lines;
    assert Indexed(w.lines) <= Indexed(u.lines);
    if |u.lines| > |w.lines| {
      assert u.lines[|w.lines|] in u.lines;
    }
  }

  /** Only received tasks feed what is known, and a task that still runs is not received. */
  lemma RunPromptMerged(w: World, t: nat, outcome: Outcome)
    requires HasTask(w, t) && Merged(w.progress.value) && w.progress.value.tasks[t].todo != []
    ensures Merged(RunPrompt(w, t, outcome).progress.value)
  {
    var s, s' := w.progress.value, RunPrompt(w, t, outcome).progress.value;
    forall i: nat ensures Given(s', i) <==> Given(s, i) {
      if Given(s, i) {
        var x :| 0 <= x < |s.tasks| && s.tasks[x].received && i in s.tasks[x].completed;
        assert s'.tasks[x] == s.tasks[x];
      }
      if Given(s', i) {
        var x :| 0 <= x < |s'.tasks| && s'.tasks[x].received && i in s'.tasks[x].completed;
        assert s'.tasks[x] == s.tasks[x];
      }
    }
  }

  lemma ReceiveKeeps(w: World, t: nat, saved: bool)
    requires Kept(w) && HasTask(w, t)
    ensures Kept(ReceiveResult(w, t, saved))
  {
    var u := ReceiveResult(w, t, saved);
    var s, s' := w.progress.value, u.progress.value;
    var task := s.tasks[t];
    if task.todo == [] && !task.received {
      forall i: nat ensures Waits(s', i) <==> Waits(s, i) {
        if Waits(s, i) {
          var x :| 0 <= x < |s.tasks| && i in s.tasks[x].todo;
          assert i in s'.tasks[x].todo;
        }
        if Waits(s', i) {
          var x :| 0 <= x < |s'.tasks| && i in s'.tasks[x].todo;
          assert i in s.tasks[x].todo;
        }
      }
      forall i: nat ensures Given(s', i) <==> Given(s, i) || i in task.completed {
        if Given(s, i) {
          var x :| 0 <= x < |s.tasks| && s.tasks[x].received && i in s.tasks[x].completed;
          assert s'.tasks[x] == s.tasks[x];
        }
        if i in task.completed {
          assert s'.tasks[t].received && i in s'.tasks[t].completed;
        }
        if Given(s', i) && i !in task.completed {
          var x :| 0 <= x < |s'.tasks| && s'.tasks[x].received && i in s'.tasks[x].completed;
          assert s'.tasks[x] == s.tasks[x];
        }
      }
    }
  }

  lemma StepKeeps(w: World, step: Step)
    requires Kept(w)
    ensures Kept(Do(w, step))
  {
    match step
    case Begin(resume, size, named) => if w.progress.None? && size > 0 { BeginKeeps(w, resume, size, named); }
    case RunNext(t, outcome) => if HasTask(w, t) { RunPromptKeeps(w, t, outcome); }
    case Receive(t, saved) => if HasTask(w, t) { ReceiveKeeps(w, t, saved); }
    case FinalSave =>
    case Crash =>
  }

  lemma {:induction false} RunKeeps(data: seq<string>, steps: seq<Step>)
    ensures Kept(Run(Fresh(data), steps))
  {
    if steps != [] {
      RunKeeps(data, steps[..|steps| - 1]);
      StepKeeps(Run(Fresh(data), steps[..|steps| - 1]), steps[|steps| - 1]);
    }
  }

  // ---------------------------------------------------------------- What follows

  /** Over any number of crashes, a checkpointed index has a durable line. */
  lemma CheckpointIsBacked(data: seq<string>, steps: seq<Step>)
    ensures var w := Run(Fresh(data), steps); w.checkpoint <= Indexed(w.lines)
  {
    RunKeeps(data, steps);
  }

  /** Whatever happens, written lines stay, in order; the checkpoint changes only by saving, and a crash takes
      neither. */
  lemma {:induction false} FilesStay(w: World, steps: seq<Step>)
    ensures w.lines <= Run(w, steps).lines
    ensures (forall i :: 0 <= i < |steps| ==> steps[i] != FinalSave && !(steps[i].Receive? && steps[i].saved)) ==>
      Run(w, steps).checkpoint == w.checkpoint
  {
    if steps != [] {
      FilesStay(w, steps[..|steps| - 1]);
    }
  }

  /** The first time the result of a finished task arrives and can be saved, the checkpoint holds what the task
      completed, with all that was known; a result arrives once, and one that is not finished not at all. */
  lemma {:induction false} ResultIsSaved(w: World, t: nat, saved: bool)
    requires HasTask(w, t)
    ensures var u, s := Do(w, Receive(t, saved)), w.progress.value;
      if s.tasks[t].todo == [] && !s.tasks[t].received then
        && HasTask(u, t) && u.progress.value.tasks == s.tasks[t := s.tasks[t].(received := true)]
        && u.progress.value.known == s.known + s.tasks[t].completed
        && u.checkpoint == (if saved then s.known + s.tasks[t].completed else w.checkpoint)
      else u == w
  {
  }

  /** A run keeps, until it ends, the texts it was resumed past. */
  lemma {:induction false} SkippedStays(w: World, steps: seq<Step>)
    requires w.progress.Some? && forall i :: 0 <= i < |steps| ==> !steps[i].Crash?
    ensures Run(w, steps).progress.Some? && Run(w, steps).progress.value.skipped == w.progress.value.skipped
    ensures Run(w, steps).data == w.data
  {
    if steps != [] {
      SkippedStays(w, steps[..|steps| - 1]);
    }
  }

  lemma {:induction false} RunConcat(w: World, a: seq<Step>, b: seq<Step>)
    ensures Run(w, a + b) == Run(Run(w, a), b)
    decreases |b|
  {
    if b == [] {
      assert a + b == a;
    } else {
      assert (a + b)[..|a + b| - 1] == a + b[..|b| - 1];
      RunConcat(w, a, b[..|b| - 1]);
    }
  }

  /** What a resumed run sets out to run: exactly the entries of which no line, tombstones included, has the
      text, or that have none, and whose index the checkpoint of this run does not hold. */
  lemma {:induction false} ResumeTakesExactly(w: World, size: nat, named: bool, i: nat)
    requires w.progress.None? && size > 0
    ensures var u := Do(w, Begin(true, size, named));
      u.progress.Some?
      && (Waits(u.progress.value, i)
          <==> i < |w.data| && !(named && i in w.checkpoint)
               && (w.data[i] == "" || forall l :: l in w.lines && l.Row? ==> l.text != w.data[i]))
  {
    StartOf(w, true, size, named);
    var s := Do(w, Begin(true, size, named)).progress.value;
    WaitsAtStart(w, s.skipped, s.base, size, i);
  }

  /** A resumed run runs no prompt whose text was on record, failed lines aside, when it began. */
  lemma {:induction false} ResumeRerunsNothing(data: seq<string>, before: seq<Step>, size: nat, named: bool,
                                               during: seq<Step>, i: nat)
    requires Run(Fresh(data), before).progress.None? && size > 0
    requires forall j :: 0 <= j < |during| ==> !during[j].Crash?
    requires var w := Run(Do(Run(Fresh(data), before), Begin(true, size, named)), during);
      w.progress.Some? && i in w.progress.value.ran && i < |data|
    ensures data[i] !in Recorded(Run(Fresh(data), before).lines)
  {
    var w0 := Run(Fresh(data), before);
    var begin := Begin(true, size, named);
    DataStays(data, before);
    SkippedStays(Do(w0, begin), during);
    RunConcat(Fresh(data), before, [begin] + during);
    RunConcat(w0, [begin], during);
    assert [begin][..0] == [] && Run(w0, [begin]) == Do(w0, begin);
    RunKeeps(data, before + ([begin] + during));
  }

  lemma {:induction false} DataStays(data: seq<string>, steps: seq<Step>)
    ensures Run(Fresh(data), steps).data == data
  {
    if steps != [] {
      DataStays(data, steps[..|steps| - 1]);
    }
  }

  /** A run in which nothing failed and nothing waits has every non-empty prompt on record. */
  lemma FinishedRunCovers(data: seq<string>, steps: seq<Step>, i: nat)
    requires var w := Run(Fresh(data), steps);
      && w.progress.Some? && !w.progress.value.failed
      && (forall t :: 0 <= t < |w.progress.value.tasks| ==> w.progress.value.tasks[t].todo == [])
      && i < |w.data| && w.data[i] != ""
    ensures var w := Run(Fresh(data), steps); w.data[i] in Recorded(w.lines)
  {
    RunKeeps(data, steps);
    var w := Run(Fresh(data), steps);
    assert !Waits(w.progress.value, i);
  }

  /** Once every result is in, the checkpoint holds what it held and what its workers completed, whatever
      the order they came in. */
  lemma MergeIgnoresOrder(data: seq<string>, steps: seq<Step>, i: nat)
    requires var w := Run(Fresh(data), steps);
      w.progress.Some? && forall t :: 0 <= t < |w.progress.value.tasks| ==> w.progress.value.tasks[t].received
    ensures var w := Run(Fresh(data), steps); var s := w.progress.value;
      i in Do(w, FinalSave).checkpoint
      <==> i in s.base || exists t :: 0 <= t < |s.tasks| && i in s.tasks[t].completed
  {
    RunKeeps(data, steps);
    var s := Run(Fresh(data), steps).progress.value;
    assert Given(s, i) <==> exists t :: 0 <= t < |s.tasks| && i in s.tasks[t].completed;
  }

  // ---------------------------------------------------------------- Merging the files

  /** Neither unreadable, nor a tombstone, nor naming a tool that does not exist. */
  predicate Merges(l: Line) {
    l.Row? && !l.discarded && !l.invalidTools
  }

  function Combined(lines: seq<Line>): seq<Line> {
    if lines == [] then []
    else Combined(lines[..|lines| - 1]) + (if Merges(lines[|lines| - 1]) then [lines[|lines| - 1]] else [])
  }

  function Tombstones(lines: seq<Line>): nat {
    if lines == [] then 0
    else Tombstones(lines[..|lines| - 1]) +
         (if lines[|lines| - 1].Row? && lines[|lines| - 1].discarded then 1 else 0)
  }

  lemma {:induction false} CombinedConcat(a: seq<Line>, b: seq<Line>)
    ensures Combined(a + b) == Combined(a) + Combined(b)
    decreases |b|
  {
    if b == [] {
      assert a + b == a;
    } else {
      assert (a + b)[..|a + b| - 1] == a + b[..|b| - 1];
      CombinedConcat(a, b[..|b| - 1]);
    }
  }

  /** The merged file holds every mergeable line as often as the batch files do, and no other line; a line
      that precedes another in the batch files precedes it in the merged file. */
  lemma {:induction false} CombinedIsTheMergeable(lines: seq<Line>, l: Line)
    ensures multiset(Combined(lines))[l] == if Merges(l) then multiset(lines)[l] else 0
  {
    if lines != [] {
      CombinedIsTheMergeable(lines[..|lines| - 1], l);
      assert lines == lines[..|lines| - 1] + [lines[|lines| - 1]];
    }
  }

  lemma {:induction false} CombinedKeepsOrder(lines: seq<Line>, i: nat, j: nat) returns (k: nat, m: nat)
    requires i < j < |lines| && Merges(lines[i]) && Merges(lines[j])
    ensures k < m < |Combined(lines)| && Combined(lines)[k] == lines[i] && Combined(lines)[m] == lines[j]
  {
    var head, tail := lines[..j], lines[j..];
    assert lines == head + tail;
    CombinedConcat(head, tail);
    k := CombinedAt(head, i);
    var t := CombinedAt(tail, 0);
    m := |Combined(head)| + t;
  }

  lemma {:induction false} CombinedAt(lines: seq<Line>, i: nat) returns (k: nat)
    requires i < |lines| && Merges(lines[i])
    ensures k < |Combined(lines)| && Combined(lines)[k] == lines[i]
  {
    var init := lines[..|lines| - 1];
    if i < |init| {
      k := CombinedAt(init, i);
    } else {
      k := |Combined(init)|;
    }
  }

  /** Merge the batch files, keeping order; the reported count is the number of lines written. */
  method CombineBatchFiles(lines: seq<Line>) returns (written: seq<Line>, kept: int, filtered: nat, tombstones: nat)
    ensures written == Combined(lines)
    ensures kept == |lines| - filtered - tombstones && kept == |written|
    ensures tombstones == Tombstones(lines)
  {
    var total := 0;
    written, filtered, tombstones := [], 0, 0;
    while total < |lines|
      invariant 0 <= total <= |lines|
      invariant written == Combined(lines[..total]) && tombstones == Tombstones(lines[..total])
      invariant |written| + filtered + tombstones == total
    {
      var line := lines[total];
      assert lines[..total + 1][..total] == lines[..total];
      total := total + 1;
      if line.NotJson? {
        filtered := filtered + 1;
      } else if line.discarded {
        tombstones := tombstones + 1;
      } else if line.invalidTools {
        filtered := filtered + 1;
      } else {
        written := written + [line];
      }
    }
    assert lines[..total] == lines;
    kept := total - filtered - tombstones;
  }

  // ---------------------------------------------------------------- One worker

  /** The prompts of a batch that end with a line: those that did not fail, in order. */
  function Ending(todo: seq<nat>, outcome: nat -> Outcome): seq<nat> {
    if todo == [] then []
    else Ending(todo[..|todo| - 1], outcome) + (if outcome(todo[|todo| - 1]).Failure? then [] else [todo[|todo| - 1]])
  }

  predicate InRange(todo: seq<nat>, size: nat) {
    forall k :: 0 <= k < |todo| ==> todo[k] < size
  }

  /** The lines those prompts write. */
  function WorkerLines(data: seq<string>, todo: seq<nat>, outcome: nat -> Outcome): seq<Line>
    requires InRange(todo, |data|)
  {
    if todo == [] then []
    else
      var init, i := todo[..|todo| - 1], todo[|todo| - 1];
      WorkerLines(data, init, outcome) + (if outcome(i).Failure? then [] else [LineOf(data, i, outcome(i))])
  }

  /** The steps of a worker over the first `n` prompts of its task. */
  function WorkerSteps(t: nat, todo: seq<nat>, outcome: nat -> Outcome): seq<Step> {
    seq(|todo|, k requires 0 <= k < |todo| => RunNext(t, outcome(todo[k])))
  }

  function Elements(s: seq<nat>): set<nat> {
    set i | i in s
  }

  /** A task whose first `n` prompts have been run. */
  function Worked(task: Task, n: nat, outcome: nat -> Outcome): Task
    requires n <= |task.todo|
  {
    task.(todo := task.todo[n..], completed := task.completed + Elements(Ending(task.todo[..n], outcome)))
  }

  /** What running a worker changes: its lines are added and its task moves on, and no other task does. */
  ghost predicate WorkedTo(w: World, u: World, t: nat, lines: seq<Line>, task: Task)
    requires HasTask(w, t)
  {
    && HasTask(u, t) && u.data == w.data && u.checkpoint == w.checkpoint && u.lines == w.lines + lines
    && u.progress.value.tasks == w.progress.value.tasks[t := task]
  }

  lemma WorkOne(task: Task, n: nat, outcome: nat -> Outcome)
    requires n < |task.todo|
    ensures var before, i := Worked(task, n, outcome), task.todo[n];
      && before.todo != [] && before.todo[0] == i
      && Worked(task, n + 1, outcome)
         == before.(todo := before.todo[1..],
                    completed := before.completed + (if outcome(i).Failure? then {} else {i}))
  {
    var before, i := Worked(task, n, outcome), task.todo[n];
    var init := task.todo[..n];
    assert task.todo[..n + 1][..n] == init && before.todo[1..] == task.todo[n + 1..];
    var more := if outcome(i).Failure? then {} else {i};
    assert Elements(Ending(task.todo[..n + 1], outcome)) == Elements(Ending(init, outcome)) + more;
    assert Worked(task, n + 1, outcome).completed == before.completed + more;
  }

  lemma TombstonesPush(lines: seq<Line>, l: Line)
    ensures Tombstones(lines + [l]) == Tombstones(lines) + (if l.Row? && l.discarded then 1 else 0)
  {
    assert (lines + [l])[..|lines|] == lines;
  }

  /** What the next prompt of a batch adds. */
  lemma {:induction false} LinesOne(data: seq<string>, todo: seq<nat>, n: nat, outcome: nat -> Outcome)
    requires InRange(todo, |data|) && n < |todo|
    ensures var i := todo[n]; var lines := WorkerLines(data, todo[..n], outcome);
      && WorkerLines(data, todo[..n + 1], outcome)
         == lines + (if outcome(i).Failure? then [] else [LineOf(data, i, outcome(i))])
      && Ending(todo[..n + 1], outcome)
         == Ending(todo[..n], outcome) + (if outcome(i).Failure? then [] else [i])
      && Tombstones(WorkerLines(data, todo[..n + 1], outcome))
         == Tombstones(lines) + (if outcome(i).NoReasoning? then 1 else 0)
  {
    var i := todo[n];
    assert todo[..n + 1][..n] == todo[..n];
    var lines := WorkerLines(data, todo[..n], outcome);
    if outcome(i).Failure? {
      assert lines + [] == lines;
    } else {
      TombstonesPush(lines, LineOf(data, i, outcome(i)));
    }
  }

  lemma WorkNext(w: World, v: World, t: nat, outcome: Outcome, lines: seq<Line>, task: Task)
    requires HasTask(w, t) && WorkedTo(w, v, t, lines, task) && task.todo != [] && task.todo[0] < |w.data|
    ensures var i := task.todo[0];
      WorkedTo(w, Do(v, RunNext(t, outcome)), t,
               lines + (if outcome.Failure? then [] else [LineOf(w.data, i, outcome)]),
               task.(todo := task.todo[1..],
                     completed := task.completed + (if outcome.Failure? then {} else {i})))
  {
    assert v.progress.value.tasks[t] == task;
    var i := task.todo[0];
    assert (w.lines + lines) + [LineOf(w.data, i, outcome)] == w.lines + (lines + [LineOf(w.data, i, outcome)]);
    assert lines + [] == lines && task.completed + {} == task.completed;
  }

  lemma StepsOne(t: nat, todo: seq<nat>, n: nat, outcome: nat -> Outcome)
    requires n < |todo|
    ensures var steps := WorkerSteps(t, todo[..n + 1], outcome);
      |steps| == n + 1 && steps[..n] == WorkerSteps(t, todo[..n], outcome)
      && steps[n] == RunNext(t, outcome(todo[n]))
  {
  }

  lemma WorkedNone(w: World, t: nat, outcome: nat -> Outcome)
    requires HasTask(w, t)
    ensures WorkedTo(w, w, t, [], Worked(w.progress.value.tasks[t], 0, outcome))
  {
    var task := w.progress.value.tasks[t];
    assert Worked(task, 0, outcome) == task by {
      assert task.todo[0..] == task.todo && task.completed + Elements([]) == task.completed;
    }
    assert w.lines + [] == w.lines && w.progress.value.tasks[t := task] == w.progress.value.tasks;
  }

  /** The steps of the first `n` prompts, run one after another, work the task that far. */
  ghost predicate RunsTo(w: World, t: nat, outcome: nat -> Outcome, n: nat)
    requires HasTask(w, t) && n <= |w.progress.value.tasks[t].todo|
    requires InRange(w.progress.value.tasks[t].todo, |w.data|)
  {
    var task := w.progress.value.tasks[t];
    WorkedTo(w, Run(w, WorkerSteps(t, task.todo[..n], outcome)), t, WorkerLines(w.data, task.todo[..n], outcome),
             Worked(task, n, outcome))
  }

  lemma RunsNext(w: World, t: nat, outcome: nat -> Outcome, n: nat)
    requires HasTask(w, t) && n < |w.progress.value.tasks[t].todo|
    requires InRange(w.progress.value.tasks[t].todo, |w.data|) && RunsTo(w, t, outcome, n)
    ensures RunsTo(w, t, outcome, n + 1)
  {
    var task := w.progress.value.tasks[t];
    WorkOne(task, n, outcome);
    LinesOne(w.data, task.todo, n, outcome);
    StepsOne(t, task.todo, n, outcome);
    var steps := WorkerSteps(t, task.todo[..n + 1], outcome);
    assert Run(w, steps) == Do(Run(w, steps[..n]), steps[n]);
    WorkNext(w, Run(w, steps[..n]), t, outcome(task.todo[n]), WorkerLines(w.data, task.todo[..n], outcome),
             Worked(task, n, outcome));
  }

  /** A worker that is let run through its task adds its lines, completes the prompts that have one, and
      touches no other task. */
  lemma {:induction false} WorkerIsARun(w: World, t: nat, outcome: nat -> Outcome, n: nat)
    requires HasTask(w, t) && n <= |w.progress.value.tasks[t].todo|
    requires InRange(w.progress.value.tasks[t].todo, |w.data|)
    ensures RunsTo(w, t, outcome, n)
  {
    if n == 0 {
      WorkedNone(w, t, outcome);
    } else {
      WorkerIsARun(w, t, outcome, n - 1);
      RunsNext(w, t, outcome, n - 1);
    }
  }

  /** Every line a worker writes is of a prompt it completed, in order: with that prompt's own text, as a
      tombstone exactly when the sample had no reasoning, and with what its tools were. */
  ghost predicate OwnLines(data: seq<string>, lines: seq<Line>, completed: seq<nat>, outcome: nat -> Outcome) {
    |lines| == |completed| && forall k :: 0 <= k < |lines| ==>
      var i := completed[k];
      && i < |data| && !outcome(i).Failure?
      && lines[k] == Row(i, data[i], outcome(i) == NoReasoning, outcome(i) == Success(true))
  }

  lemma {:induction false} WorkerOwnsLines(data: seq<string>, todo: seq<nat>, outcome: nat -> Outcome)
    requires InRange(todo, |data|)
    ensures OwnLines(data, WorkerLines(data, todo, outcome), Ending(todo, outcome), outcome)
  {
    if todo != [] {
      WorkerOwnsLines(data, todo[..|todo| - 1], outcome);
    }
  }

  /** What the worker has in hand after `n` prompts. */
  ghost predicate InHand(data: seq<string>, todo: seq<nat>, n: nat, outcome: nat -> Outcome,
                         lines: seq<Line>, completed: seq<nat>, discarded: nat)
    requires InRange(todo, |data|) && n <= |todo|
  {
    && lines == WorkerLines(data, todo[..n], outcome) && completed == Ending(todo[..n], outcome)
    && discarded == Tombstones(lines)
  }

  lemma InHandFailed(data: seq<string>, todo: seq<nat>, n: nat, outcome: nat -> Outcome,
                     lines: seq<Line>, completed: seq<nat>, discarded: nat)
    requires InRange(todo, |data|) && n < |todo| && InHand(data, todo, n, outcome, lines, completed, discarded)
    requires outcome(todo[n]).Failure?
    ensures InHand(data, todo, n + 1, outcome, lines, completed, discarded)
  {
    LinesOne(data, todo, n, outcome);
    assert lines + [] == lines && completed + [] == completed;
  }

  lemma InHandLine(data: seq<string>, todo: seq<nat>, n: nat, outcome: nat -> Outcome,
                   lines: seq<Line>, completed: seq<nat>, discarded: nat)
    requires InRange(todo, |data|) && n < |todo| && InHand(data, todo, n, outcome, lines, completed, discarded)
    requires !outcome(todo[n]).Failure?
    ensures var i := todo[n];
      InHand(data, todo, n + 1, outcome, lines + [LineOf(data, i, outcome(i))], completed + [i],
             discarded + (if outcome(i).NoReasoning? then 1 else 0))
  {
    LinesOne(data, todo, n, outcome);
  }

  lemma InHandAll(data: seq<string>, todo: seq<nat>, outcome: nat -> Outcome,
                  lines: seq<Line>, completed: seq<nat>, discarded: nat)
    requires InRange(todo, |data|) && InHand(data, todo, |todo|, outcome, lines, completed, discarded)
    ensures lines == WorkerLines(data, todo, outcome) && completed == Ending(todo, outcome)
    ensures OwnLines(data, lines, completed, outcome) && discarded == Tombstones(lines)
  {
    assert todo[..|todo|] == todo;
    WorkerOwnsLines(data, todo, outcome);
  }

  /** Run one batch: each prompt not known to be completed is run once, and writes one line with its own
      text unless it fails.  Exactly the prompts with a line are reported as completed. */
  method ProcessBatchWorker(data: seq<string>, batch: seq<nat>, known: set<nat>, outcome: nat -> Outcome)
    returns (lines: seq<Line>, completed: seq<nat>, processed: nat, skipped: nat, discarded: nat)
    requires InRange(batch, |data|)
    ensures InRange(Without(batch, known), |data|) && lines == WorkerLines(data, Without(batch, known), outcome)
    ensures completed == Ending(Without(batch, known), outcome)
    ensures OwnLines(data, lines, completed, outcome)
    ensures discarded == Tombstones(lines)
    ensures processed == |Without(batch, known)| && processed + skipped == |batch|
  {
    var todo := Without(batch, known);
    WithoutInRange(batch, known, |data|);
    WithoutShrinks(batch, known);
    processed, skipped := |todo|, |batch| - |todo|;
    lines, completed, discarded := [], [], 0;
    var n := 0;
    while n < |todo|
      invariant 0 <= n <= |todo|
      invariant InHand(data, todo, n, outcome, lines, completed, discarded)
    {
      var i := todo[n];
      if outcome(i).Failure? {
        InHandFailed(data, todo, n, outcome, lines, completed, discarded);
      } else {
        InHandLine(data, todo, n, outcome, lines, completed, discarded);
        lines := lines + [LineOf(data, i, outcome(i))];
        completed := completed + [i];
        if outcome(i).NoReasoning? {
          discarded := discarded + 1;
        }
      }
      n := n + 1;
    }
    InHandAll(data, todo, outcome, lines, completed, discarded);
  }

  lemma {:induction false} WithoutInRange(s: seq<nat>, known: set<nat>, size: nat)
    requires InRange(s, size)
    ensures InRange(Without(s, known), size)
  {
    WithoutMember(s, known);
    forall k | 0 <= k < |Without(s, known)| ensures Without(s, known)[k] < size {
      assert Without(s, known)[k] in s;
    }
  }

  lemma {:induction false} WithoutShrinks(s: seq<nat>, known: set<nat>)
    ensures |Without(s, known)| <= |s|
  {
    if s != [] {
      WithoutShrinks(s[1..], known);
    }
  }
}
