/**
 Input line assembly of StreamCore: chunks of bytes arrive in any size and at
 any time, `in` commands take one line each. The lines do not depend on how
 the byte stream was cut into chunks.
 */
module LineInput {

  import opened Basics

  datatype IoStatus = IoSuccess | IoTimeout | IoNoReply | IoEnd | IoFault

  predicate OccursAt(text: Bytes, pattern: Bytes, i: int) {
    0 <= i && i + |pattern| <= |text| && text[i..i + |pattern|] == pattern
  }

  /** StreamBuffer::find: the least matching index from `start` on, or -1. */
  function Find(text: Bytes, pattern: Bytes, start: nat): (r: int)
    ensures r == -1 || (start <= r && r + |pattern| <= |text|)
    decreases |text| - start
  {
    if start + |pattern| > |text| then -1
    else if text[start..start + |pattern|] == pattern then start
    else Find(text, pattern, start + 1)
  }

  lemma {:induction false} FindLeast(text: Bytes, pattern: Bytes, start: nat)
    ensures var r := Find(text, pattern, start);
            && (r == -1 || OccursAt(text, pattern, r))
            && forall i | start <= i && (r == -1 || i < r) :: !OccursAt(text, pattern, i)
    decreases |text| - start
  {
    if start + |pattern| <= |text| && text[start..start + |pattern|] != pattern {
      FindLeast(text, pattern, start + 1);
    }
  }

  lemma {:induction false} FindIs(text: Bytes, pattern: Bytes, start: nat, r: nat)
    requires start <= r && OccursAt(text, pattern, r)
    requires forall i | start <= i < r :: !OccursAt(text, pattern, i)
    ensures Find(text, pattern, start) == r
    decreases r - start
  {
    assert OccursAt(text, pattern, start) <==> start == r;
    if start < r { FindIs(text, pattern, start + 1, r); }
  }

  // ---- readCallback, from the appended chunk to the line that is parsed ----

  datatype Config = Config(terminator: Bytes, maxInput: nat)

  datatype Pending = Pending(buffer: Bytes, unparsed: bool)

  const NOTHING := Pending([], false)

  datatype Outcome =
    | Early(pending: Pending)                              // no `in` command is active
    | More(pending: Pending)                               // the line is not complete
    | Line(text: Bytes, pending: Pending, status: IoStatus, ended: bool)

  /** Where the search for the terminator starts after `size` new bytes. */
  function SearchStart(p: Pending, size: nat, terminator: Bytes): nat
    requires size <= |p.buffer|
  {
    var start := |p.buffer| - size - |terminator|;
    if p.unparsed || start < 0 then 0 else start
  }

  /** Ends of the line and of its terminator, or none. */
  function LineEnd(c: Config, p: Pending, size: nat, status: IoStatus): (r: (int, nat))
    requires size <= |p.buffer|
    ensures r.0 == -1 || (0 <= r.0 && r.0 + r.1 <= |p.buffer|)
  {
    var found := if c.terminator == [] then -1 else Find(p.buffer, c.terminator, SearchStart(p, size, c.terminator));
    var termlen := if found >= 0 then |c.terminator| else 0;
    var end := if status == IoEnd && found < 0 then |p.buffer| else found;
    var end := if c.maxInput > 0 && end < 0 && c.maxInput <= |p.buffer| then c.maxInput else end;
    if c.maxInput > 0 && end > c.maxInput then (c.maxInput, 0) else (end, termlen)
  }

  /** One chunk. A timeout is a valid end if nothing else ends a line. */
  function Receive(c: Config, p: Pending, active: bool, status: IoStatus, chunk: Bytes): Outcome {
    var status := if status == IoTimeout && c.terminator == [] && c.maxInput == 0 then IoEnd else status;
    var q := p.(buffer := p.buffer + chunk);
    if !active then Early(Pending(q.buffer, q.unparsed || q.buffer != []))
    else
      var (end, termlen) := LineEnd(c, q, |chunk|, status);
      if end >= 0 then
        var rest := q.buffer[end + termlen..];
        Line(q.buffer[..end], Pending(rest, rest != []), if status == IoTimeout then IoEnd else status, true)
      else if status != IoTimeout then More(q)
      else Line(q.buffer, NOTHING, status, false)
  }

  /** What can come of `size` bytes: a line takes something from a nonempty
      buffer, and with a length limit more bytes are wanted only below it. */
  predicate Sensible(c: Config, active: bool, size: nat, o: Outcome) {
    && (o.Early? <==> !active)
    && (o.Line? && o.pending.unparsed ==> o.ended && |o.pending.buffer| < size)
    && (o.More? ==> |o.pending.buffer| == size && (c.maxInput > 0 ==> size < c.maxInput))
  }

  lemma ReceiveIsSensible(c: Config, p: Pending, active: bool, status: IoStatus, chunk: Bytes)
    ensures Sensible(c, active, |p.buffer| + |chunk|, Receive(c, p, active, status, chunk))
  {
  }

  // ---- Successive `in` commands on one stream ----

  datatype Event = Chunk(bytes: Bytes) | Begin

  datatype Reader = Reader(pending: Pending, active: bool, lines: seq<Bytes>)

  const IDLE := Reader(NOTHING, false, [])

  function Took(r: Reader, o: Outcome): Reader {
    match o
    case Line(text, pending, _, _) => Reader(pending, false, r.lines + [text])
    case _ => r.(pending := o.pending)
  }

  /** A chunk from the bus, or the start of an `in` command, which parses early input first. */
  function Step(c: Config, r: Reader, e: Event): Reader {
    match e
    case Chunk(bytes) => Took(r, Receive(c, r.pending, r.active, IoSuccess, bytes))
    case Begin =>
      var s := r.(active := true);
      if r.pending.unparsed then Took(s, Receive(c, s.pending, true, IoSuccess, [])) else s
  }

  function Run(c: Config, es: seq<Event>): Reader {
    if es == [] then IDLE else Step(c, Run(c, es[..|es| - 1]), es[|es| - 1])
  }

  /** An `in` command starts only after the previous one got its line. */
  predicate InOrder(c: Config, es: seq<Event>) {
    es == [] || (InOrder(c, es[..|es| - 1]) && (es[|es| - 1].Begin? ==> !Run(c, es[..|es| - 1]).active))
  }

  function Received(es: seq<Event>): Bytes {
    if es == [] then []
    else Received(es[..|es| - 1]) + match es[|es| - 1] case Chunk(b) => b case Begin => []
  }

  function Begins(es: seq<Event>): nat {
    if es == [] then 0 else Begins(es[..|es| - 1]) + if es[|es| - 1].Begin? then 1 else 0
  }

  // ---- Splitting a whole stream ----

  /** Lines end with a terminator, or have a fixed length; with neither there is no end. */
  predicate OneRule(c: Config) { c.terminator == [] || c.maxInput == 0 }

  /** The length of the first line of a stream, or -1. */
  function LineLength(c: Config, stream: Bytes): (k: int)
    ensures k == -1 || (0 <= k && k + |c.terminator| <= |stream|)
  {
    if c.terminator != [] then Find(stream, c.terminator, 0) else if 0 < c.maxInput <= |stream| then c.maxInput else -1
  }

  /** The stream after its first line. */
  function Rest(c: Config, stream: Bytes): Bytes
    requires LineLength(c, stream) >= 0
  {
    stream[LineLength(c, stream) + |c.terminator|..]
  }

  function Lines(c: Config, stream: Bytes): (r: seq<Bytes>)
    requires OneRule(c)
    decreases |stream|
  {
    var k := LineLength(c, stream);
    if k < 0 then [] else [stream[..k]] + Lines(c, Rest(c, stream))
  }

  function Joined(lines: seq<Bytes>, t: Bytes): Bytes {
    if lines == [] then [] else lines[0] + t + Joined(lines[1..], t)
  }

  function Prefix(lines: seq<Bytes>, n: nat): seq<Bytes> { if n <= |lines| then lines[..n] else lines }

  lemma OccursInFront(a: Bytes, b: Bytes, t: Bytes, i: nat)
    requires i + |t| <= |a|
    ensures OccursAt(a + b, t, i) == OccursAt(a, t, i)
  {
    assert (a + b)[i..i + |t|] == a[i..i + |t|];
  }

  lemma CutConcat(a: Bytes, b: Bytes, i: nat)
    requires i <= |a|
    ensures (a + b)[..i] == a[..i] && (a + b)[i..] == a[i..] + b
  {
  }

  /** The search from just before the new bytes finds what a full search finds. */
  lemma SearchStartIsEnough(before: Bytes, chunk: Bytes, t: Bytes)
    requires forall i | 0 <= i :: !OccursAt(before, t, i)
    ensures var p := Pending(before + chunk, false);
            Find(p.buffer, t, SearchStart(p, |chunk|, t)) == Find(p.buffer, t, 0)
  {
    var p := Pending(before + chunk, false);
    forall i | 0 <= i < SearchStart(p, |chunk|, t) ensures !OccursAt(p.buffer, t, i) {
      OccursInFront(before, chunk, t, i);
    }
    var r := Find(p.buffer, t, SearchStart(p, |chunk|, t));
    FindLeast(p.buffer, t, SearchStart(p, |chunk|, t));
    FindLeast(p.buffer, t, 0);
    if r >= 0 { FindIs(p.buffer, t, 0, r); }
  }

  lemma FindStable(a: Bytes, b: Bytes, t: Bytes)
    requires Find(a, t, 0) >= 0
    ensures Find(a + b, t, 0) == Find(a, t, 0)
  {
    var k := Find(a, t, 0);
    FindLeast(a, t, 0);
    forall i | 0 <= i <= k ensures OccursAt(a + b, t, i) == OccursAt(a, t, i) {
      OccursInFront(a, b, t, i);
    }
    FindIs(a + b, t, 0, k);
  }

  /** The first line is not changed by what comes later. */
  lemma LineStable(c: Config, stream: Bytes, more: Bytes)
    requires LineLength(c, stream) >= 0
    ensures LineLength(c, stream + more) == LineLength(c, stream)
    ensures (stream + more)[..LineLength(c, stream)] == stream[..LineLength(c, stream)]
    ensures Rest(c, stream + more) == Rest(c, stream) + more
  {
    if c.terminator != [] { FindStable(stream, more, c.terminator); }
    CutConcat(stream, more, LineLength(c, stream));
    CutConcat(stream, more, LineLength(c, stream) + |c.terminator|);
  }

  lemma FirstLine(c: Config, stream: Bytes)
    requires LineLength(c, stream) >= 0
    ensures stream == stream[..LineLength(c, stream)] + c.terminator + Rest(c, stream)
  {
    var k, t := LineLength(c, stream), c.terminator;
    if t != [] { FindLeast(stream, t, 0); }
    assert stream == stream[..k] + stream[k..k + |t|] + stream[k + |t|..];
  }

  /** `lines` are the first lines of `stream` and `rest` is what follows them. */
  predicate TakenFrom(c: Config, lines: seq<Bytes>, rest: Bytes, stream: Bytes)
    decreases |lines|
  {
    if lines == [] then rest == stream
    else
      var k := LineLength(c, stream);
      k >= 0 && lines[0] == stream[..k] && TakenFrom(c, lines[1..], rest, Rest(c, stream))
  }

  /** The rest of the stream goes on from the leftover. */
  lemma {:induction false} LinesExtend(c: Config, lines: seq<Bytes>, rest: Bytes, stream: Bytes, more: Bytes)
    requires TakenFrom(c, lines, rest, stream)
    ensures TakenFrom(c, lines, rest + more, stream + more)
    decreases |lines|
  {
    if lines != [] {
      LineStable(c, stream, more);
      LinesExtend(c, lines[1..], rest, Rest(c, stream), more);
    }
  }

  lemma {:induction false} TakeOneMore(c: Config, lines: seq<Bytes>, rest: Bytes, stream: Bytes)
    requires TakenFrom(c, lines, rest, stream) && LineLength(c, rest) >= 0
    ensures TakenFrom(c, lines + [rest[..LineLength(c, rest)]], Rest(c, rest), stream)
    decreases |lines|
  {
    var line := rest[..LineLength(c, rest)];
    if lines == [] {
      assert (lines + [line])[1..] == [];
    } else {
      assert (lines + [line])[1..] == lines[1..] + [line];
      TakeOneMore(c, lines[1..], rest, Rest(c, stream));
    }
  }

  /** Lines taken, then the lines of the leftover, are the lines of the stream. */
  lemma {:induction false} TakenLines(c: Config, lines: seq<Bytes>, rest: Bytes, stream: Bytes)
    requires OneRule(c) && TakenFrom(c, lines, rest, stream)
    ensures Lines(c, stream) == lines + Lines(c, rest)
    decreases |lines|
  {
    if lines == [] {
      assert lines + Lines(c, rest) == Lines(c, rest);
    } else {
      TakenLines(c, lines[1..], rest, Rest(c, stream));
      assert lines + Lines(c, rest) == [lines[0]] + (lines[1..] + Lines(c, rest));
    }
  }

  /** No byte is lost or made up. */
  lemma {:induction false} TakenBytes(c: Config, lines: seq<Bytes>, rest: Bytes, stream: Bytes)
    requires TakenFrom(c, lines, rest, stream)
    ensures Joined(lines, c.terminator) + rest == stream
    decreases |lines|
  {
    if lines != [] {
      FirstLine(c, stream);
      TakenBytes(c, lines[1..], rest, Rest(c, stream));
      FourPieces(lines[0], c.terminator, Joined(lines[1..], c.terminator), rest);
    }
  }

  lemma FourPieces(a: Bytes, b: Bytes, c: Bytes, d: Bytes)
    ensures a + b + c + d == a + b + (c + d)
  {
  }

  // ---- The invariant over runs ----

  predicate Fine(c: Config, r: Reader, stream: Bytes, begins: nat) {
    && TakenFrom(c, r.lines, r.pending.buffer, stream)
    && begins == |r.lines| + (if r.active then 1 else 0)
    && (!r.active ==> (r.pending.unparsed <==> r.pending.buffer != []))
    && (r.active ==> LineLength(c, r.pending.buffer) == -1)
  }

  /** What Receive gives for a whole buffer. */
  function FirstOf(c: Config, b: Bytes, unparsed: bool): Outcome {
    var k := LineLength(c, b);
    if k < 0 then More(Pending(b, unparsed)) else Line(b[..k], Pending(Rest(c, b), Rest(c, b) != []), IoSuccess, true)
  }

  /** A chunk gives the first line of the buffer, if any. */
  lemma ReceiveFindsFirst(c: Config, p: Pending, chunk: Bytes)
    requires OneRule(c) && (p.unparsed || LineLength(c, p.buffer) == -1)
    ensures Receive(c, p, true, IoSuccess, chunk) == FirstOf(c, p.buffer + chunk, p.unparsed)
  {
    if c.terminator != [] && !p.unparsed {
      FindLeast(p.buffer, c.terminator, 0);
      SearchStartIsEnough(p.buffer, chunk, c.terminator);
    }
  }

  /** The bytes waiting for an active `in` command, after a chunk was appended. */
  lemma TakingKeeps(c: Config, r: Reader, chunk: Bytes, stream: Bytes)
    requires OneRule(c) && r.active && TakenFrom(c, r.lines, r.pending.buffer + chunk, stream)
    requires r.pending.unparsed || LineLength(c, r.pending.buffer) == -1
    ensures Fine(c, Took(r, Receive(c, r.pending, true, IoSuccess, chunk)), stream, |r.lines| + 1)
  {
    ReceiveFindsFirst(c, r.pending, chunk);
    FirstKeeps(c, r, r.pending.buffer + chunk, stream);
  }

  lemma FirstKeeps(c: Config, r: Reader, all: Bytes, stream: Bytes)
    requires r.active && TakenFrom(c, r.lines, all, stream)
    ensures Fine(c, Took(r, FirstOf(c, all, r.pending.unparsed)), stream, |r.lines| + 1)
  {
    if LineLength(c, all) >= 0 { TakeOneMore(c, r.lines, all, stream); }
  }

  lemma ChunkKeeps(c: Config, r: Reader, chunk: Bytes, stream: Bytes, begins: nat)
    requires OneRule(c) && Fine(c, r, stream, begins)
    ensures Fine(c, Step(c, r, Chunk(chunk)), stream + chunk, begins)
  {
    LinesExtend(c, r.lines, r.pending.buffer, stream, chunk);
    if r.active { TakingKeeps(c, r, chunk, stream + chunk); }
  }

  lemma BeginKeeps(c: Config, r: Reader, stream: Bytes, begins: nat)
    requires OneRule(c) && Fine(c, r, stream, begins) && !r.active
    ensures Fine(c, Step(c, r, Begin), stream, begins + 1)
  {
    if r.pending.unparsed {
      assert r.pending.buffer + [] == r.pending.buffer;
      TakingKeeps(c, r.(active := true), [], stream);
    } else {
      FindLeast([], c.terminator, 0);
    }
  }

  lemma {:induction false} RunKeeps(c: Config, es: seq<Event>)
    requires OneRule(c) && InOrder(c, es)
    ensures Fine(c, Run(c, es), Received(es), Begins(es))
  {
    if es != [] {
      var n := |es| - 1;
      RunKeeps(c, es[..n]);
      var r, stream, begins := Run(c, es[..n]), Received(es[..n]), Begins(es[..n]);
      match es[n]
      case Chunk(b) => ChunkKeeps(c, r, b, stream, begins);
      case Begin =>
        assert stream + [] == stream;
        BeginKeeps(c, r, stream, begins);
    }
  }

  /** The `in` commands get the lines of the whole stream, however it was cut;
      lines, terminators and leftover are the bytes received. */
  lemma ChunkIndependence(c: Config, es: seq<Event>)
    requires OneRule(c) && InOrder(c, es)
    ensures var r, all := Run(c, es), Lines(c, Received(es));
            && r.lines == Prefix(all, Begins(es))
            && (r.active <==> |all| < Begins(es))
            && Joined(r.lines, c.terminator) + r.pending.buffer == Received(es)
  {
    RunKeeps(c, es);
    var r := Run(c, es);
    TakenLines(c, r.lines, r.pending.buffer, Received(es));
    TakenBytes(c, r.lines, r.pending.buffer, Received(es));
  }

  /** Two ways to cut the same stream. */
  lemma SameStreamSameLines(c: Config, es: seq<Event>, fs: seq<Event>)
    requires OneRule(c) && InOrder(c, es) && InOrder(c, fs)
    requires Received(es) == Received(fs) && Begins(es) == Begins(fs)
    ensures Run(c, es).lines == Run(c, fs).lines && Run(c, es).pending.buffer == Run(c, fs).pending.buffer
    ensures Run(c, es).active == Run(c, fs).active
  {
    ChunkIndependence(c, es);
    ChunkIndependence(c, fs);
    var j := Joined(Run(c, es).lines, c.terminator);
    assert Run(c, es).pending.buffer == Received(es)[|j|..] == Run(c, fs).pending.buffer;
  }

  // ---- When the lines depend on the chunks ----

  /** The bytes received and the number of `in` commands settle the lines, the
      leftover and whether an `in` waits. */
  ghost predicate Independent(c: Config) {
    forall es: seq<Event>, fs: seq<Event>
      | InOrder(c, es) && InOrder(c, fs) && Received(es) == Received(fs) && Begins(es) == Begins(fs)
      :: SameReader(Run(c, es), Run(c, fs))
  }

  predicate SameReader(r: Reader, s: Reader) {
    r.lines == s.lines && r.pending.buffer == s.pending.buffer && r.active == s.active
  }

  lemma RunNext(c: Config, es: seq<Event>, e: Event)
    ensures Run(c, es + [e]) == Step(c, Run(c, es), e)
    ensures InOrder(c, es + [e]) <==> InOrder(c, es) && (e.Begin? ==> !Run(c, es).active)
    ensures Begins(es + [e]) == Begins(es) + if e.Begin? then 1 else 0
    ensures Received(es + [e]) == Received(es) + match e case Chunk(b) => b case Begin => []
  {
    assert (es + [e])[..|es|] == es;
  }

  function OtherByte(t: Bytes): (b: byte)
    requires t != []
    ensures b != t[0]
  {
    if t[0] == 0 then 1 else 0
  }

  /** As many bytes as the limit allows, in which the terminator does not begin. */
  function LongestLine(c: Config): (x: Bytes)
    requires c.terminator != []
    ensures |x| == c.maxInput && forall i | 0 <= i < |x| :: x[i] != c.terminator[0]
  {
    Repeat(OtherByte(c.terminator), c.maxInput)
  }

  /** The first chunk of a line, as a whole line. */
  predicate GivesLine(c: Config, chunk: Bytes, line: Bytes) {
    Receive(c, NOTHING, true, IoSuccess, chunk) == Line(line, NOTHING, IoSuccess, true)
  }

  lemma NoMatchAt(text: Bytes, pattern: Bytes, i: nat)
    requires i < |text| && pattern != [] && text[i] != pattern[0]
    ensures !OccursAt(text, pattern, i)
  {
    assert i + |pattern| <= |text| ==> text[i..i + |pattern|][0] == text[i];
  }

  lemma EndsWithTerminator(c: Config, line: Bytes)
    requires c.terminator != [] && 0 < c.maxInput && |line| <= c.maxInput
    requires forall i | 0 <= i < |line| :: line[i] != c.terminator[0]
    ensures GivesLine(c, line + c.terminator, line)
  {
    var t, q := c.terminator, line + c.terminator;
    assert [] + q == q;
    forall i | 0 <= i < |line| ensures !OccursAt(q, t, i) {
      assert q[i] == line[i];
      NoMatchAt(q, t, i);
    }
    FindIs(q, t, 0, |line|);
  }

  lemma EndsAtLimit(c: Config)
    requires c.terminator != [] && 0 < c.maxInput
    ensures GivesLine(c, LongestLine(c), LongestLine(c))
  {
    var t, x := c.terminator, LongestLine(c);
    assert [] + x == x;
    forall i | 0 <= i < |x| ensures !OccursAt(x, t, i) { NoMatchAt(x, t, i); }
    FindLeast(x, t, 0);
  }

  /** One more `in` command and its line. */
  lemma OneMoreLine(c: Config, es: seq<Event>, chunk: Bytes, line: Bytes)
    requires InOrder(c, es) && Run(c, es) == IDLE.(lines := Run(c, es).lines) && GivesLine(c, chunk, line)
    ensures var fs := es + [Begin, Chunk(chunk)];
            && InOrder(c, fs) && Run(c, fs) == IDLE.(lines := Run(c, es).lines + [line])
            && Received(fs) == Received(es) + chunk && Begins(fs) == Begins(es) + 1
  {
    RunNext(c, es, Begin);
    RunNext(c, es + [Begin], Chunk(chunk));
    assert es + [Begin] + [Chunk(chunk)] == es + [Begin, Chunk(chunk)];
    assert Received(es) + [] == Received(es);
  }

  lemma OneLine(c: Config, chunk: Bytes, line: Bytes)
    requires GivesLine(c, chunk, line)
    ensures var es := [Begin, Chunk(chunk)];
            InOrder(c, es) && Run(c, es) == IDLE.(lines := [line]) && Received(es) == chunk && Begins(es) == 1
  {
    OneMoreLine(c, [], chunk, line);
    assert [] + [Begin, Chunk(chunk)] == [Begin, Chunk(chunk)] && [] + chunk == chunk && [] + [line] == [line];
  }

  /** The same bytes for two `in` commands. The terminator belongs to the longest
      line if it comes in the same chunk, and is an empty line of its own if not. */
  lemma LimitAndTerminatorDiffer(c: Config)
    requires c.terminator != [] && c.maxInput > 0
    ensures var x, t := LongestLine(c), c.terminator;
            var es, fs := [Begin, Chunk(x + t), Begin], [Begin, Chunk(x), Begin, Chunk(t)];
            && InOrder(c, es) && InOrder(c, fs) && Received(es) == Received(fs) == x + t && Begins(es) == Begins(fs) == 2
            && Run(c, es).lines == [x] && Run(c, fs).lines == [x, []]
  {
    TogetherOneLine(c);
    ApartTwoLines(c);
  }

  lemma TogetherOneLine(c: Config)
    requires c.terminator != [] && c.maxInput > 0
    ensures var x, es := LongestLine(c), [Begin, Chunk(LongestLine(c) + c.terminator), Begin];
            InOrder(c, es) && Received(es) == x + c.terminator && Begins(es) == 2 && Run(c, es).lines == [x]
  {
    var x, t := LongestLine(c), c.terminator;
    EndsWithTerminator(c, x);
    OneLine(c, x + t, x);
    RunNext(c, [Begin, Chunk(x + t)], Begin);
    assert [Begin, Chunk(x + t)] + [Begin] == [Begin, Chunk(x + t), Begin];
  }

  lemma ApartTwoLines(c: Config)
    requires c.terminator != [] && c.maxInput > 0
    ensures var x, fs := LongestLine(c), [Begin, Chunk(LongestLine(c)), Begin, Chunk(c.terminator)];
            InOrder(c, fs) && Received(fs) == x + c.terminator && Begins(fs) == 2 && Run(c, fs).lines == [x, []]
  {
    var x, t := LongestLine(c), c.terminator;
    EndsAtLimit(c);
    OneLine(c, x, x);
    EndsWithTerminator(c, []);
    assert [] + t == t;
    OneMoreLine(c, [Begin, Chunk(x)], t, []);
    assert [Begin, Chunk(x)] + [Begin, Chunk(t)] == [Begin, Chunk(x), Begin, Chunk(t)];
  }

  /** Lines do not depend on the chunks if and only if at most one rule ends them. */
  lemma IndependentIff(c: Config)
    ensures Independent(c) <==> OneRule(c)
  {
    if c.terminator != [] && c.maxInput > 0 {
      var x, t := LongestLine(c), c.terminator;
      LimitAndTerminatorDiffer(c);
      assert !SameReader(Run(c, [Begin, Chunk(x + t), Begin]), Run(c, [Begin, Chunk(x), Begin, Chunk(t)]));
    } else {
      forall es: seq<Event>, fs: seq<Event>
        | InOrder(c, es) && InOrder(c, fs) && Received(es) == Received(fs) && Begins(es) == Begins(fs)
        ensures SameReader(Run(c, es), Run(c, fs))
      {
        SameStreamSameLines(c, es, fs);
      }
    }
  }
}
