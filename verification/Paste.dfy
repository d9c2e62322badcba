/** The patched terminal-input feed: characters go to an inner key parser until it enters a bracketed paste,
    and from there into a paste buffer until the end mark or a timeout. */
module Paste {
  import opened Lineage

  const END_MARK: string := "\U{1B}[201~"
  const TIMEOUT := 2.0

  /** What the inner parser does with one character: its next state, the keys it reports, and whether it
      has just recognised the start mark of a paste. */
  datatype Sending<S, K> = Sending(next: S, keys: seq<K>, entered: bool)

  type Inner<!S, !K> = (S, char) -> Sending<S, K>

  /** Everything that happens to input: a character is sent to the inner parser, a key is reported, a paste
      is reported, what there is of one that timed out is reported, an end mark is dropped. */
  datatype Item<K> = Sent(c: char) | Key(k: K) | Pasted(text: string) | TimedOut(text: string) | EndMark

  datatype Parser<S> = Parser(inner: S, inPaste: bool, buffer: string, start: Option<real>)

  datatype Fed<S, K> = Fed(parser: Parser<S>, items: seq<Item<K>>)

  predicate MarkAt(b: string, i: nat) {
    i + |END_MARK| <= |b| && b[i..i + |END_MARK|] == END_MARK
  }

  /** The first end mark at or after `i`. */
  function IndexOf(b: string, i: nat): (r: Option<nat>)
    requires i <= |b|
    ensures r.None? ==> forall j: nat :: i <= j ==> !MarkAt(b, j)
    ensures r.Some? ==> i <= r.value && MarkAt(b, r.value) && forall j: nat :: i <= j < r.value ==> !MarkAt(b, j)
    decreases |b| - i
  {
    if i + |END_MARK| > |b| then None
    else if MarkAt(b, i) then Some(i)
    else IndexOf(b, i + 1)
  }

  function Keys<K>(keys: seq<K>): seq<Item<K>> {
    seq(|keys|, i requires 0 <= i < |keys| => Key(keys[i]))
  }

  function Send<S, K>(inner: Inner<S, K>, p: Parser<S>, c: char): Fed<S, K> {
    var r := inner(p.inner, c);
    Fed(if r.entered then p.(inner := r.next, inPaste := true, buffer := "") else p.(inner := r.next),
        [Sent(c)] + Keys(r.keys))
  }

  function Out<S>(p: Parser<S>): Parser<S> {
    p.(inPaste := false, buffer := "", start := None)
  }

  /** A feed that found no end mark: note when the wait began, give up, or go on waiting. */
  function Linger<S, K>(p: Parser<S>, b: string, now: real): Fed<S, K> {
    if p.start.None? then Fed(p.(buffer := b, start := Some(now)), [])
    else if now - p.start.value > TIMEOUT then Fed(Out(p), [TimedOut(b)])
    else Fed(p.(buffer := b), [])
  }

  function Then<S, K>(first: seq<Item<K>>, rest: Fed<S, K>): Fed<S, K> {
    rest.(items := first + rest.items)
  }

  /** Feed a chunk.  The clock is read at most once: nothing is fed after it has been. */
  function Feed<S, K>(inner: Inner<S, K>, p: Parser<S>, data: string, now: real): Fed<S, K>
    decreases |data| + (if p.inPaste then |p.buffer| else 0)
  {
    if p.inPaste then
      var b := p.buffer + data;
      var end := IndexOf(b, 0);
      if end.None? then Linger(p, b, now)
      else
        var remaining := b[end.value + |END_MARK|..];
        var first := [Pasted(b[..end.value]), EndMark];
        if remaining == "" then Fed(Out(p), first) else Then(first, Feed(inner, Out(p), remaining, now))
    else if data == "" then Fed(p, [])
    else
      var sent := Send(inner, p, data[0]);
      if |data| == 1 then sent else Then(sent.items, Feed(inner, sent.parser, data[1..], now))
  }

  // ---------------------------------------------------------------- One character at a time

  /** The parser without the clock value. */
  datatype Core<S> = Core(inner: S, inPaste: bool, buffer: string)

  function CoreOf<S>(p: Parser<S>): Core<S> {
    Core(p.inner, p.inPaste, p.buffer)
  }

  datatype Stepped<S, K> = Stepped(core: Core<S>, items: seq<Item<K>>)

  /** The automaton: in a paste, the end mark is whatever completes it. */
  function Step<S, K>(inner: Inner<S, K>, q: Core<S>, c: char): Stepped<S, K> {
    if q.inPaste then
      var b := q.buffer + [c];
      if |b| >= |END_MARK| && MarkAt(b, |b| - |END_MARK|) then
        Stepped(Core(q.inner, false, ""), [Pasted(b[..|b| - |END_MARK|]), EndMark])
      else Stepped(q.(buffer := b), [])
    else
      var r := inner(q.inner, c);
      Stepped(if r.entered then Core(r.next, true, "") else q.(inner := r.next), [Sent(c)] + Keys(r.keys))
  }

  function Steps<S, K>(inner: Inner<S, K>, q: Core<S>, data: string): Stepped<S, K>
    decreases |data|
  {
    if data == "" then Stepped(q, [])
    else
      var one := Step(inner, q, data[0]);
      var rest := Steps(inner, one.core, data[1..]);
      Stepped(rest.core, one.items + rest.items)
  }

  /** Nothing is buffered outside a paste, and no end mark is buffered inside one. */
  ghost predicate Clean<S>(p: Parser<S>) {
    if p.inPaste then forall i: nat :: !MarkAt(p.buffer, i) else p.buffer == ""
  }

  predicate NoTimeout<K>(items: seq<Item<K>>) {
    forall i :: 0 <= i < |items| ==> !items[i].TimedOut?
  }

  lemma {:induction false} StepsConcat<S, K>(inner: Inner<S, K>, q: Core<S>, a: string, b: string)
    ensures var first := Steps(inner, q, a); var second := Steps(inner, first.core, b);
      Steps(inner, q, a + b) == Stepped(second.core, first.items + second.items)
    decreases |a|
  {
    if a == "" {
      assert a + b == b;
    } else {
      assert (a + b)[0] == a[0] && (a + b)[1..] == a[1..] + b;
      StepsConcat(inner, Step(inner, q, a[0]).core, a[1..], b);
    }
  }

  /** Characters that complete no end mark only grow the buffer. */
  lemma {:induction false} StepsBuffer<S, K>(inner: Inner<S, K>, q: Core<S>, data: string)
    requires q.inPaste && forall i: nat :: !MarkAt(q.buffer + data, i)
    ensures Steps(inner, q, data) == Stepped(q.(buffer := q.buffer + data), [])
    decreases |data|
  {
    if data == "" {
      assert q.buffer + data == q.buffer;
    } else {
      var b := q.buffer + [data[0]];
      assert b + data[1..] == q.buffer + data;
      if |b| >= |END_MARK| {
        MarkInPrefix(b, data[1..], |b| - |END_MARK|);
      }
      StepsBuffer(inner, q.(buffer := b), data[1..]);
    }
  }

  lemma MarkInPrefix(a: string, b: string, i: nat)
    requires i + |END_MARK| <= |a|
    ensures MarkAt(a + b, i) <==> MarkAt(a, i)
  {
    assert (a + b)[i..i + |END_MARK|] == a[i..i + |END_MARK|];
  }

  /** Up to and including its first end mark, a paste is one `Pasted` item. */
  lemma {:induction false} StepsToMark<S, K>(inner: Inner<S, K>, q: Core<S>, data: string, i: nat)
    requires q.inPaste && (forall j: nat :: !MarkAt(q.buffer, j))
    requires MarkAt(q.buffer + data, i) && i + |END_MARK| == |q.buffer + data|
    requires forall j: nat :: j < i ==> !MarkAt(q.buffer + data, j)
    ensures Steps(inner, q, data)
         == Stepped(Core(q.inner, false, ""), [Pasted((q.buffer + data)[..i]), EndMark])
  {
    assert q.buffer + "" == q.buffer;
    if data != "" {
      var b := q.buffer + data;
      var init, last := data[..|data| - 1], data[|data| - 1];
      assert data == init + [last] && b == (q.buffer + init) + [last];
      forall j: nat ensures !MarkAt(q.buffer + init, j) {
        if j + |END_MARK| <= |q.buffer + init| { MarkInPrefix(q.buffer + init, [last], j); }
      }
      StepsBuffer(inner, q, init);
      StepsConcat(inner, q, init, [last]);
      assert [last][1..] == "";
    }
  }

  lemma FeedKeepsClean<S, K>(inner: Inner<S, K>, p: Parser<S>, data: string, now: real)
    requires Clean(p)
    ensures Clean(Feed(inner, p, data, now).parser)
    decreases |data| + (if p.inPaste then |p.buffer| else 0)
  {
    if p.inPaste {
      var b := p.buffer + data;
      var end := IndexOf(b, 0);
      if end.Some? && b[end.value + |END_MARK|..] != "" {
        FeedKeepsClean(inner, Out(p), b[end.value + |END_MARK|..], now);
      }
    } else if |data| > 1 {
      FeedKeepsClean(inner, Send(inner, p, data[0]).parser, data[1..], now);
    }
  }

  /** Cutting the input right after its first end mark. */
  lemma CutAtMark(buffer: string, data: string, i: nat) returns (n: nat)
    requires forall j: nat :: !MarkAt(buffer, j)
    requires MarkAt(buffer + data, i) && forall j: nat :: j < i ==> !MarkAt(buffer + data, j)
    ensures 0 < n <= |data| && i + |END_MARK| == |buffer| + n
    ensures MarkAt(buffer + data[..n], i) && forall j: nat :: j < i ==> !MarkAt(buffer + data[..n], j)
    ensures (buffer + data[..n])[..i] == (buffer + data)[..i] && data[n..] == (buffer + data)[i + |END_MARK|..]
  {
    if i + |END_MARK| <= |buffer| {
      MarkInPrefix(buffer, data, i);
    }
    n := i + |END_MARK| - |buffer|;
    var head, tail := data[..n], data[n..];
    assert (buffer + head) + tail == buffer + data;
    MarkInPrefix(buffer + head, tail, i);
    forall j: nat | j < i ensures !MarkAt(buffer + head, j) {
      MarkInPrefix(buffer + head, tail, j);
    }
  }

  lemma SplitAtMark<S, K>(inner: Inner<S, K>, q: Core<S>, data: string, i: nat)
    requires q.inPaste && (forall j: nat :: !MarkAt(q.buffer, j))
    requires MarkAt(q.buffer + data, i) && forall j: nat :: j < i ==> !MarkAt(q.buffer + data, j)
    ensures var b := q.buffer + data;
      var rest := Steps(inner, Core(q.inner, false, ""), b[i + |END_MARK|..]);
      Steps(inner, q, data) == Stepped(rest.core, [Pasted(b[..i]), EndMark] + rest.items)
  {
    var n := CutAtMark(q.buffer, data, i);
    var head, tail := data[..n], data[n..];
    assert data == head + tail;
    StepsToMark(inner, q, head, i);
    StepsThen(inner, q, head, tail, Core(q.inner, false, ""), [Pasted((q.buffer + data)[..i]), EndMark]);
  }

  lemma StepsThen<S, K>(inner: Inner<S, K>, q: Core<S>, a: string, b: string, mid: Core<S>, first: seq<Item<K>>)
    requires Steps(inner, q, a) == Stepped(mid, first)
    ensures var rest := Steps(inner, mid, b); Steps(inner, q, a + b) == Stepped(rest.core, first + rest.items)
  {
    StepsConcat(inner, q, a, b);
  }

  lemma Lingering<S, K>(p: Parser<S>, b: string, now: real)
    requires p.inPaste
    ensures var fed: Fed<S, K> := Linger(p, b, now);
      if fed.items == [] then CoreOf(fed.parser) == CoreOf(p).(buffer := b) else fed.items == [TimedOut(b)]
    ensures var fed: Fed<S, K> := Linger(p, b, now); NoTimeout(fed.items) <==> fed.items == []
  {
    var fed: Fed<S, K> := Linger(p, b, now);
    if fed.items != [] {
      assert fed.items[0].TimedOut?;
    }
  }

  /** As long as no paste times out, feeding a chunk is running the automaton over its characters. */
  lemma {:induction false} FeedIsSteps<S, K>(inner: Inner<S, K>, p: Parser<S>, data: string, now: real)
    requires Clean(p) && NoTimeout(Feed(inner, p, data, now).items)
    ensures var fed := Feed(inner, p, data, now);
      Steps(inner, CoreOf(p), data) == Stepped(CoreOf(fed.parser), fed.items)
    decreases |data| + (if p.inPaste then |p.buffer| else 0)
  {
    var fed := Feed(inner, p, data, now);
    if p.inPaste {
      var b := p.buffer + data;
      var end := IndexOf(b, 0);
      if end.None? {
        Lingering<S, K>(p, b, now);
        StepsBuffer<S, K>(inner, CoreOf(p), data);
      } else {
        SplitAtMark<S, K>(inner, CoreOf(p), data, end.value);
        var remaining := b[end.value + |END_MARK|..];
        if remaining != "" {
          NoTimeoutRest([Pasted(b[..end.value]), EndMark], Feed(inner, Out(p), remaining, now).items);
          FeedIsSteps(inner, Out(p), remaining, now);
        }
      }
    } else if data != "" {
      var sent := Send(inner, p, data[0]);
      assert Step(inner, CoreOf(p), data[0]) == Stepped(CoreOf(sent.parser), sent.items);
      if |data| == 1 {
        assert data[1..] == "" && sent.items + [] == sent.items;
      } else {
        NoTimeoutRest(sent.items, Feed(inner, sent.parser, data[1..], now).items);
        FeedIsSteps(inner, sent.parser, data[1..], now);
      }
    }
  }

  lemma NoTimeoutRest<K>(first: seq<Item<K>>, rest: seq<Item<K>>)
    requires NoTimeout(first + rest)
    ensures NoTimeout(first) && NoTimeout(rest)
  {
    forall i | 0 <= i < |rest| ensures !rest[i].TimedOut? {
      assert (first + rest)[|first| + i] == rest[i];
    }
    forall i | 0 <= i < |first| ensures !first[i].TimedOut? {
      assert (first + rest)[i] == first[i];
    }
  }

  // ---------------------------------------------------------------- Chunks

  /** A chunk and the time it arrives. */
  datatype Chunk = Chunk(data: string, now: real)

  function FeedAll<S, K>(inner: Inner<S, K>, p: Parser<S>, chunks: seq<Chunk>): Fed<S, K>
    decreases |chunks|
  {
    if chunks == [] then Fed(p, [])
    else
      var one := Feed(inner, p, chunks[0].data, chunks[0].now);
      Then(one.items, FeedAll(inner, one.parser, chunks[1..]))
  }

  function Joined(chunks: seq<Chunk>): string {
    if chunks == [] then "" else chunks[0].data + Joined(chunks[1..])
  }

  lemma {:induction false} FeedAllIsSteps<S, K>(inner: Inner<S, K>, p: Parser<S>, chunks: seq<Chunk>)
    requires Clean(p) && NoTimeout(FeedAll(inner, p, chunks).items)
    ensures var fed := FeedAll(inner, p, chunks);
      Steps(inner, CoreOf(p), Joined(chunks)) == Stepped(CoreOf(fed.parser), fed.items)
    decreases |chunks|
  {
    if chunks != [] {
      var data := chunks[0].data;
      var one := Feed(inner, p, data, chunks[0].now);
      NoTimeoutRest(one.items, FeedAll(inner, one.parser, chunks[1..]).items);
      FeedIsSteps(inner, p, data, chunks[0].now);
      FeedKeepsClean(inner, p, data, chunks[0].now);
      FeedAllIsSteps(inner, one.parser, chunks[1..]);
      StepsConcat(inner, CoreOf(p), data, Joined(chunks[1..]));
    }
  }

  /** Two ways of cutting the same input, neither of which times out, report the same and leave the parser
      in the same state, wherever the cuts fall. */
  lemma ChunkIndependence<S, K>(inner: Inner<S, K>, p: Parser<S>, chunks: seq<Chunk>, others: seq<Chunk>)
    requires Clean(p) && Joined(chunks) == Joined(others)
    requires NoTimeout(FeedAll(inner, p, chunks).items) && NoTimeout(FeedAll(inner, p, others).items)
    ensures FeedAll(inner, p, chunks).items == FeedAll(inner, p, others).items
    ensures CoreOf(FeedAll(inner, p, chunks).parser) == CoreOf(FeedAll(inner, p, others).parser)
  {
    FeedAllIsSteps(inner, p, chunks);
    FeedAllIsSteps(inner, p, others);
  }

  /** A wait that began no earlier than `since`. */
  predicate WaitsSince<S>(p: Parser<S>, since: real) {
    p.start.Some? ==> p.start.value >= since
  }

  lemma {:induction false} FeedInTime<S, K>(inner: Inner<S, K>, p: Parser<S>, data: string, now: real, since: real)
    requires WaitsSince(p, since) && since <= now <= since + TIMEOUT
    ensures var fed := Feed(inner, p, data, now); NoTimeout(fed.items) && WaitsSince(fed.parser, since)
    decreases |data| + (if p.inPaste then |p.buffer| else 0)
  {
    if p.inPaste {
      var b := p.buffer + data;
      var end := IndexOf(b, 0);
      if end.Some? && b[end.value + |END_MARK|..] != "" {
        FeedInTime(inner, Out(p), b[end.value + |END_MARK|..], now, since);
      }
    } else if |data| > 1 {
      FeedInTime(inner, Send(inner, p, data[0]).parser, data[1..], now, since);
    }
  }

  /** Chunks that all arrive within two seconds never time out, so how they are cut does not matter. */
  lemma {:induction false} PromptChunksNeverTimeOut<S, K>(inner: Inner<S, K>, p: Parser<S>, chunks: seq<Chunk>,
                                                           since: real)
    requires WaitsSince(p, since)
    requires forall i :: 0 <= i < |chunks| ==> since <= chunks[i].now <= since + TIMEOUT
    ensures NoTimeout(FeedAll(inner, p, chunks).items)
    decreases |chunks|
  {
    if chunks != [] {
      FeedInTime(inner, p, chunks[0].data, chunks[0].now, since);
      PromptChunksNeverTimeOut(inner, Feed(inner, p, chunks[0].data, chunks[0].now).parser, chunks[1..], since);
    }
  }

  /** The end mark as the terminal sends it: escape, `[201~`. */
  predicate MarkIn(b: string, i: nat) {
    i + 6 <= |b| && b[i] == '\U{1B}' && b[i + 1..i + 6] == "[201~"
  }

  lemma MarkIsMark(b: string, i: nat)
    ensures MarkAt(b, i) <==> MarkIn(b, i)
  {
    if i + 6 <= |b| {
      assert b[i..i + 6] == [b[i]] + b[i + 1..i + 6];
      assert END_MARK == ['\U{1B}'] + "[201~";
      assert END_MARK[0] == '\U{1B}' && END_MARK[1..] == "[201~";
      assert MarkAt(b, i) ==> b[i..i + 6][0] == '\U{1B}' && b[i..i + 6][1..] == "[201~";
    }
  }

  /** A feed that leaves a paste without an end mark gives it up exactly when more than two seconds have
      passed since the first such feed: what there is of it is reported, and paste mode is left. */
  lemma {:induction false} TimesOutIff<S, K>(inner: Inner<S, K>, p: Parser<S>, data: string, now: real)
    requires p.inPaste && forall i: nat :: !MarkIn(p.buffer + data, i)
    ensures Feed(inner, p, data, now)
         == (if p.start.Some? && now > p.start.value + 2.0
             then Fed(Parser(p.inner, false, "", None), [TimedOut(p.buffer + data)])
             else Fed(Parser(p.inner, true, p.buffer + data, Some(if p.start.Some? then p.start.value else now)), []))
  {
    forall i: nat ensures !MarkAt(p.buffer + data, i) {
      MarkIsMark(p.buffer + data, i);
    }
  }

  /** A feed that completes a paste, with whatever follows the end mark. */
  lemma FeedEnds<S, K>(inner: Inner<S, K>, p: Parser<S>, data: string, now: real, end: nat)
    requires p.inPaste && IndexOf(p.buffer + data, 0) == Some(end)
    ensures var b := p.buffer + data;
      var remaining := b[end + |END_MARK|..];
      Feed(inner, p, data, now)
      == Then([Pasted(b[..end]), EndMark],
              if remaining == "" then Fed(Out(p), []) else Feed(inner, Out(p), remaining, now))
  {
    var first: seq<Item<K>> := [Pasted((p.buffer + data)[..end]), EndMark];
    assert first + [] == first;
  }

  /** The first end mark ends the paste: what came before it is reported, what follows is fed as input, and the
      next wait starts anew. */
  lemma {:induction false} EndsAtFirstMark<S, K>(inner: Inner<S, K>, p: Parser<S>, data: string, now: real, i: nat)
    requires p.inPaste && MarkIn(p.buffer + data, i) && forall j: nat :: j < i ==> !MarkIn(p.buffer + data, j)
    ensures var b := p.buffer + data;
      Feed(inner, p, data, now)
      == Then([Pasted(b[..i]), EndMark], Feed(inner, Parser(p.inner, false, "", None), b[i + 6..], now))
  {
    var b := p.buffer + data;
    MarkIsMark(b, i);
    forall j: nat | j < i ensures !MarkAt(b, j) {
      MarkIsMark(b, j);
    }
    FeedEnds(inner, p, data, now, i);
  }

  /** Outside a paste each character is sent to the inner parser, whose keys are reported; once that has seen
      the start mark, the rest of the chunk is the beginning of a paste. */
  lemma {:induction false} SendsUntilPaste<S, K>(inner: Inner<S, K>, p: Parser<S>, data: string, now: real)
    requires !p.inPaste && data != ""
    ensures var r := inner(p.inner, data[0]);
      Feed(inner, p, data, now)
      == Then([Sent(data[0])] + Keys(r.keys),
              if data == [data[0]] then Fed(Parser(r.next, r.entered, if r.entered then "" else p.buffer, p.start), [])
              else Feed(inner, Parser(r.next, r.entered, if r.entered then "" else p.buffer, p.start), data[1..], now))
  {
    var r := inner(p.inner, data[0]);
    var sent := [Sent(data[0])] + Keys(r.keys);
    assert sent + [] == sent;
    assert data == [data[0]] <==> |data| == 1;
  }

  // ---------------------------------------------------------------- Every character is accounted for

  function CharsOf<K>(item: Item<K>): string {
    match item
    case Sent(c) => [c]
    case Key(_) => ""
    case Pasted(text) => text
    case TimedOut(text) => text
    case EndMark => END_MARK
  }

  function Chars<K>(items: seq<Item<K>>): string {
    if items == [] then "" else CharsOf(items[0]) + Chars(items[1..])
  }

  lemma {:induction false} CharsConcat<K>(a: seq<Item<K>>, b: seq<Item<K>>)
    ensures Chars(a + b) == Chars(a) + Chars(b)
    decreases |a|
  {
    if a == [] {
      assert a + b == b;
    } else {
      var rest := a[1..];
      assert (a + b)[0] == a[0] && (a + b)[1..] == rest + b;
      CharsConcat(rest, b);
      assert CharsOf(a[0]) + (Chars(rest) + Chars(b)) == (CharsOf(a[0]) + Chars(rest)) + Chars(b);
    }
  }

  lemma {:induction false} KeysAreNoChars<K>(keys: seq<K>)
    ensures Chars(Keys(keys)) == ""
    decreases |keys|
  {
    if keys != [] {
      assert Keys(keys)[1..] == Keys(keys[1..]);
      KeysAreNoChars(keys[1..]);
    }
  }

  lemma CharsOfSent<S, K>(inner: Inner<S, K>, p: Parser<S>, c: char)
    ensures Chars(Send(inner, p, c).items) == [c]
  {
    var r := inner(p.inner, c);
    KeysAreNoChars(r.keys);
    CharsConcat([Sent(c)], Keys(r.keys));
    var sent: seq<Item<K>> := [Sent(c)];
    assert sent[1..] == [] && Chars(sent) == [c];
  }

  lemma CharsOfPaste<K>(text: string)
    ensures Chars<K>([Pasted(text), EndMark]) == text + END_MARK
    ensures Chars<K>([TimedOut(text)]) == text
  {
    var items: seq<Item<K>>, mark: seq<Item<K>> := [Pasted(text), EndMark], [EndMark];
    assert items[1..] == mark && mark[1..] == [];
    assert Chars(mark) == END_MARK + "" == END_MARK;
    assert Chars(items) == text + Chars(mark);
    var late: seq<Item<K>> := [TimedOut(text)];
    assert late[1..] == [];
    assert Chars(late) == text + "" == text;
  }

  /** What happened, with what is left in the buffer, is what was in the buffer and the input. */
  predicate Accounts<K>(before: string, data: string, items: seq<Item<K>>, after: string) {
    Chars(items) + after == before + data
  }

  lemma AccountsThen<K>(before: string, a: string, first: seq<Item<K>>, mid: string, b: string, rest: seq<Item<K>>,
                        after: string)
    requires Accounts(before, a, first, mid) && Accounts(mid, b, rest, after)
    ensures Accounts(before, a + b, first + rest, after)
  {
    CharsConcat(first, rest);
    Regroup(Chars(first), Chars(rest), after, mid, b, before, a);
  }

  lemma Regroup(x: string, y: string, after: string, mid: string, b: string, before: string, a: string)
    requires x + mid == before + a && y + after == mid + b
    ensures (x + y) + after == before + (a + b)
  {
    assert (x + y) + after == x + (y + after);
    assert x + (mid + b) == (x + mid) + b;
    assert (before + a) + b == before + (a + b);
  }

  /** A paste ended by its mark, as if its text had just arrived. */
  lemma AccountsPaste<K>(text: string)
    ensures Accounts<K>("", text + END_MARK, [Pasted(text), EndMark], "")
  {
    var all := text + END_MARK;
    CharsOfPaste<K>(text);
    assert all + "" == all && "" + all == all;
  }

  lemma AroundMark(b: string, i: nat)
    requires MarkAt(b, i)
    ensures b == (b[..i] + END_MARK) + b[i + |END_MARK|..]
  {
  }

  /** With or without timeouts, paste texts, end marks, characters sent to the inner parser and what is left
      in the buffer are together the input, each character once and in order. */
  lemma {:induction false} FeedAccountsForInput<S, K>(inner: Inner<S, K>, p: Parser<S>, data: string, now: real)
    requires Clean(p)
    ensures var fed := Feed(inner, p, data, now); Accounts(p.buffer, data, fed.items, fed.parser.buffer)
    decreases |data| + (if p.inPaste then |p.buffer| else 0)
  {
    if p.inPaste {
      var b := p.buffer + data;
      var end := IndexOf(b, 0);
      if end.None? {
        Lingering<S, K>(p, b, now);
        CharsOfPaste<K>(b);
      } else {
        AccountsPaste<K>(b[..end.value]);
        AroundMark(b, end.value);
        var remaining := b[end.value + |END_MARK|..];
        if remaining != "" {
          var rest := Feed(inner, Out(p), remaining, now);
          FeedAccountsForInput(inner, Out(p), remaining, now);
          AccountsThen("", b[..end.value] + END_MARK, [Pasted(b[..end.value]), EndMark], "", remaining, rest.items,
                       rest.parser.buffer);
        }
        assert "" + b == b;
      }
    } else if data != "" {
      var sent := Send(inner, p, data[0]);
      CharsOfSent(inner, p, data[0]);
      assert Accounts("", [data[0]], sent.items, "");
      if |data| > 1 {
        var rest := Feed(inner, sent.parser, data[1..], now);
        FeedAccountsForInput(inner, sent.parser, data[1..], now);
        AccountsThen("", [data[0]], sent.items, "", data[1..], rest.items, rest.parser.buffer);
      }
      assert data == [data[0]] + data[1..];
    }
  }

  lemma {:induction false} FeedAllAccountsForInput<S, K>(inner: Inner<S, K>, p: Parser<S>, chunks: seq<Chunk>)
    requires Clean(p)
    ensures var fed := FeedAll(inner, p, chunks); Accounts(p.buffer, Joined(chunks), fed.items, fed.parser.buffer)
    decreases |chunks|
  {
    if chunks != [] {
      var data := chunks[0].data;
      var one := Feed(inner, p, data, chunks[0].now);
      var rest := FeedAll(inner, one.parser, chunks[1..]);
      FeedAccountsForInput(inner, p, data, chunks[0].now);
      FeedKeepsClean(inner, p, data, chunks[0].now);
      FeedAllAccountsForInput(inner, one.parser, chunks[1..]);
      AccountsThen(p.buffer, data, one.items, one.parser.buffer, Joined(chunks[1..]), rest.items, rest.parser.buffer);
    }
  }

  // ---------------------------------------------------------------- The parser object

  /** What the key callback receives. */
  datatype Press<K> = KeyPress(k: K) | BracketedPaste(text: string)

  /** The calls the key callback gets out of a run of items: an empty paste that timed out is not reported. */
  function Presses<K>(items: seq<Item<K>>): seq<Press<K>> {
    if items == [] then []
    else
      Presses(items[..|items| - 1]) +
      match items[|items| - 1]
      case Key(k) => [KeyPress(k)]
      case Pasted(text) => [BracketedPaste(text)]
      case TimedOut(text) => if text == "" then [] else [BracketedPaste(text)]
      case _ => []
  }

  lemma {:induction false} PressesConcat<K>(a: seq<Item<K>>, b: seq<Item<K>>)
    ensures Presses(a + b) == Presses(a) + Presses(b)
    decreases |b|
  {
    if b == [] {
      assert a + b == a;
    } else {
      assert (a + b)[..|a + b| - 1] == a + b[..|b| - 1];
      PressesConcat(a, b[..|b| - 1]);
    }
  }

  lemma PressesOfPaste<K>(text: string)
    ensures Presses<K>([Pasted(text), EndMark]) == [BracketedPaste(text)]
    ensures Presses<K>([TimedOut(text)]) == if text == "" then [] else [BracketedPaste(text)]
    ensures Presses<K>([]) == []
  {
    var items: seq<Item<K>>, late: seq<Item<K>> := [Pasted(text), EndMark], [TimedOut(text)];
    assert items[..1] == [Pasted(text)] && items[..1][..0] == [] && late[..0] == [];
    assert Presses(items[..1]) == [BracketedPaste(text)];
  }

  /** The whole feed is what was done so far, then the feed of the rest, if there is any. */
  ghost predicate Midway<S, K>(inner: Inner<S, K>, whole: Fed<S, K>, done: seq<Item<K>>, p: Parser<S>, rest: string,
                               now: real)
  {
    whole == if rest == "" then Fed(p, done) else Then(done, Feed(inner, p, rest, now))
  }

  lemma NextKey<S, K>(inner: Inner<S, K>, whole: Fed<S, K>, done: seq<Item<K>>, p: Parser<S>, rest: string, now: real)
    requires !p.inPaste && rest != "" && Midway(inner, whole, done, p, rest, now)
    ensures var sent := Send(inner, p, rest[0]); Midway(inner, whole, done + sent.items, sent.parser, rest[1..], now)
    ensures Presses(done + Send(inner, p, rest[0]).items) == Presses(done) + Presses(Send(inner, p, rest[0]).items)
  {
    var sent := Send(inner, p, rest[0]);
    PressesConcat(done, sent.items);
    if |rest| > 1 {
      var last := Feed(inner, sent.parser, rest[1..], now);
      assert done + (sent.items + last.items) == (done + sent.items) + last.items;
    }
  }

  /** A call left the parser and the key callback as specified. */
  ghost predicate Did<S, K>(fed: Fed<S, K>, p: Parser<S>, was: seq<Press<K>>, presses: seq<Press<K>>) {
    p == fed.parser && presses == was + Presses(fed.items)
  }

  /** Finishing the rest finishes the whole. */
  lemma DidRest<S, K>(inner: Inner<S, K>, whole: Fed<S, K>, done: seq<Item<K>>, p: Parser<S>, rest: string, now: real,
                      after: Parser<S>, was: seq<Press<K>>, presses: seq<Press<K>>)
    requires rest != "" && Midway(inner, whole, done, p, rest, now)
    requires Did(Feed(inner, p, rest, now), after, was + Presses(done), presses)
    ensures Did(whole, after, was, presses)
  {
    PressesConcat(done, Feed(inner, p, rest, now).items);
  }

  lemma PasteEnds<S, K>(text: string, rest: Fed<S, K>, after: Parser<S>, was: seq<Press<K>>, presses: seq<Press<K>>)
    requires Did(rest, after, was + [BracketedPaste(text)], presses)
    ensures Did(Then([Pasted(text), EndMark], rest), after, was, presses)
  {
    PressesOfPaste<K>(text);
    PressesConcat([Pasted(text), EndMark], rest.items);
    assert (was + [BracketedPaste(text)]) + Presses(rest.items) == was + ([BracketedPaste(text)] + Presses(rest.items));
  }

  class Vt100Parser<S, K> {
    const input: Inner<S, K>
    var inner: S
    var inPaste: bool
    var buffer: string
    var start: Option<real>
    var presses: seq<Press<K>>

    function View(): Parser<S>
      reads this
    {
      Parser(inner, inPaste, buffer, start)
    }

    constructor (input: Inner<S, K>, inner: S)
      ensures View() == Parser(inner, false, "", None) && Clean(View()) && presses == [] && this.input == input
    {
      this.input, this.inner := input, inner;
      inPaste, buffer, start, presses := false, "", None, [];
    }

    /** Hand one character to the inner parser. */
    method SendChar(c: char)
      modifies this
      ensures Did(Send(input, old(View()), c), View(), old(presses), presses)
    {
      var r := input(inner, c);
      inner := r.next;
      if r.entered {
        inPaste, buffer := true, "";
      }
      presses := presses + Presses(Keys(r.keys));
      PressesConcat([Sent(c)], Keys(r.keys));
      assert Presses<K>([Sent(c)]) == [];
    }

    /** Leave paste mode. */
    method Leave()
      modifies this`inPaste, this`buffer, this`start
      ensures View() == Out(old(View()))
    {
      inPaste, buffer, start := false, "", None;
    }

    method FeedData(data: string, now: real)
      modifies this
      ensures Did(Feed(input, old(View()), data, now), View(), old(presses), presses)
      decreases |data| + (if inPaste then |buffer| else 0), 1
    {
      if inPaste {
        FeedPaste(data, now);
      } else {
        FeedKeys(data, now);
      }
    }

    /** Character by character to the inner parser, until it enters a paste or the chunk ends. */
    method SendUntilPaste(data: string, ghost now: real) returns (n: nat, ghost done: seq<Item<K>>)
      requires !inPaste
      modifies this
      ensures n <= |data| && (data != "" ==> n > 0) && (n < |data| ==> inPaste) && (inPaste ==> buffer == "")
      ensures Midway(input, Feed(input, old(View()), data, now), done, View(), data[n..], now)
      ensures presses == old(presses) + Presses(done)
    {
      ghost var whole := Feed(input, View(), data, now);
      done, n := [], 0;
      var rest := data;
      while rest != "" && !inPaste
        invariant n <= |data| && rest == data[n..] && (inPaste ==> buffer == "") && (n == 0 ==> !inPaste)
        invariant Midway(input, whole, done, View(), rest, now)
        invariant presses == old(presses) + Presses(done)
        decreases |rest|
      {
        NextKey(input, whole, done, View(), rest, now);
        done := done + Send(input, View(), rest[0]).items;
        SendChar(rest[0]);
        n, rest := n + 1, rest[1..];
      }
    }

    method FeedKeys(data: string, now: real)
      requires !inPaste
      modifies this
      ensures Did(Feed(input, old(View()), data, now), View(), old(presses), presses)
      decreases |data|, 0
    {
      ghost var whole := Feed(input, View(), data, now);
      ghost var done;
      var n;
      n, done := SendUntilPaste(data, now);
      if n < |data| {
        ghost var p := View();
        FeedData(data[n..], now);
        DidRest(input, whole, done, p, data[n..], now, View(), old(presses), presses);
      }
    }

    /** Buffer a chunk of a paste, and report the paste when its end mark is there or it has timed out. */
    method FeedPaste(data: string, now: real)
      requires inPaste
      modifies this
      ensures Did(Feed(input, old(View()), data, now), View(), old(presses), presses)
      decreases |data| + |buffer|, 0
    {
      ghost var p := View();
      buffer := buffer + data;
      var end := IndexOf(buffer, 0);
      if end.None? {
        PressesOfPaste<K>(buffer);
        if start.None? {
          start := Some(now);
        } else if now - start.value > TIMEOUT {
          if buffer != "" {
            presses := presses + [BracketedPaste(buffer)];
          }
          Leave();
        }
        return;
      }
      var content, remaining := buffer[..end.value], buffer[end.value + |END_MARK|..];
      presses := presses + [BracketedPaste(content)];
      Leave();
      FeedEnds(input, p, data, now, end.value);
      ghost var rest := if remaining == "" then Fed(Out(p), []) else Feed(input, Out(p), remaining, now);
      if remaining != "" {
        FeedData(remaining, now);
      } else {
        assert presses + [] == presses;
      }
      PasteEnds(content, rest, View(), old(presses), presses);
    }
  }
}
