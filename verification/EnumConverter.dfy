/**
 The enum converter %{a|b|...}: parsing the list of choices, printing the text
 of a value, and finding the value whose text the input starts with.
 */
module EnumConverter {
  import opened Basics

  const ESC: byte := 0x1B
  const SKIP: byte := 1
  const BAR: byte := 0x7C
  const BRACE: byte := 0x7D
  const EQUALS: byte := 0x3D
  const QUESTION: byte := 0x3F

  /** A choice with its text as compiled: an escape byte protects the byte after it. */
  datatype Choice = Choice(index: int, text: Bytes)

  // ---- Texts ----

  datatype Item = Any | Char(c: byte)

  /** What scanning compares: an unprotected skip byte stands for any character. */
  function Items(text: Bytes): (s: seq<Item>)
    decreases |text|
  {
    if text == [] then []
    else if text[0] == SKIP then [Any] + Items(text[1..])
    else if text[0] == ESC && |text| > 1 then [Char(text[1])] + Items(text[2..])
    else [Char(text[0])] + Items(text[1..])
  }

  /** What printing appends. */
  function Plain(items: seq<Item>): (s: Bytes)
    ensures |s| == |items|
    ensures forall i | 0 <= i < |s| :: s[i] == Shown(items[i])
  {
    seq(|items|, i requires 0 <= i < |items| => Shown(items[i]))
  }

  function Shown(i: Item): byte { if i.Any? then SKIP else i.c }

  /** A text as it is compiled: characters that mean something, and any others, are escaped. */
  function Compiled(items: seq<Item>, escaped: byte -> bool): Bytes {
    if items == [] then []
    else
      (match items[0]
       case Any => [SKIP]
       case Char(c) => if c == SKIP || c == ESC || escaped(c) then [ESC, c] else [c])
      + Compiled(items[1..], escaped)
  }

  /** Whatever is escaped, a text stands for the characters it was written for. */
  lemma {:induction false} CompiledItems(items: seq<Item>, escaped: byte -> bool)
    ensures Items(Compiled(items, escaped)) == items && Complete(Compiled(items, escaped))
  {
    if items != [] {
      var rest := Compiled(items[1..], escaped);
      CompiledItems(items[1..], escaped);
      var t := Compiled(items, escaped);
      if items[0].Char? && t[0] == ESC { assert t[2..] == rest; } else { assert t[1..] == rest; }
    }
  }

  /** No escape byte at the very end. */
  predicate Complete(text: Bytes)
    decreases |text|
  {
    if text == [] then true
    else if text[0] == ESC then |text| > 1 && Complete(text[2..])
    else Complete(text[1..])
  }

  /** The input is a C string. */
  function At(input: Bytes, k: nat): byte { if k < |input| then input[k] else 0 }

  predicate Fits(i: Item, c: byte) { i.Any? || i.c == c }

  predicate Match(items: seq<Item>, input: Bytes) {
    forall i: nat | i < |items| :: Fits(items[i], At(input, i))
  }

  // ---- printLong ----

  /** The first choice with the index, or the number of choices. */
  function Lookup(list: seq<Choice>, value: int): (k: nat)
    ensures k <= |list|
    ensures k < |list| ==> list[k].index == value
    ensures forall j | 0 <= j < k :: list[j].index != value
  {
    if list == [] || list[0].index == value then 0 else 1 + Lookup(list[1..], value)
  }

  /** Fails for a value that is not listed, unless there is a default text. */
  method PrintLong(list: seq<Choice>, fallback: Option<Bytes>, value: int) returns (r: Option<Bytes>)
    ensures var k := Lookup(list, value);
            r == if k < |list| then Some(Plain(Items(list[k].text)))
                 else if fallback.Some? then Some(Plain(Items(fallback.value)))
                 else None
  {
    var k := 0;
    while k < |list| && list[k].index != value
      invariant k <= |list| && Lookup(list, value) == k + Lookup(list[k..], value)
    {
      assert list[k..][1..] == list[k + 1..];
      k := k + 1;
    }
    if k == |list| && fallback == None { return None; }
    var text := PrintText(if k < |list| then list[k].text else fallback.value);
    return Some(text);
  }

  method PrintText(text: Bytes) returns (output: Bytes)
    ensures output == Plain(Items(text))
  {
    output := [];
    var s := 0;
    assert text[0..] == text;
    while s < |text|
      invariant s <= |text| && output + Plain(Items(text[s..])) == Plain(Items(text))
    {
      ghost var was := text[s..];
      if text[s] == ESC && s + 1 < |text| { s := s + 1; }
      assert text[s + 1..] == was[|was| - |text| + s + 1..];
      ghost var item, later := Items(was)[0], Items(text[s + 1..]);
      PlainStep(output, item, later);
      output := output + [text[s]];
      s := s + 1;
    }
  }

  lemma PlainStep(output: Bytes, item: Item, later: seq<Item>)
    ensures output + Plain([item] + later) == output + [Shown(item)] + Plain(later)
  {
  }

  // ---- scanLong ----

  /** The first choice that matches, or the number of choices. */
  function FirstMatch(list: seq<Choice>, input: Bytes): (k: nat)
    ensures k <= |list|
    ensures k < |list| ==> Match(Items(list[k].text), input)
    ensures forall j | 0 <= j < k :: !Match(Items(list[j].text), input)
  {
    if list == [] || Match(Items(list[0].text), input) then 0 else 1 + FirstMatch(list[1..], input)
  }

  method ScanLong(list: seq<Choice>, input: Bytes) returns (consumed: int, value: int)
    ensures var k := FirstMatch(list, input);
            if k < |list| then consumed == |Items(list[k].text)| && value == list[k].index else consumed == -1
  {
    var k := 0;
    while k < |list|
      invariant k <= |list| && FirstMatch(list, input) == k + FirstMatch(list[k..], input)
    {
      var matches;
      consumed, matches := ScanText(list[k].text, input);
      if matches { return consumed, list[k].index; }
      assert list[k..][1..] == list[k + 1..];
      k := k + 1;
    }
    return -1, 0;
  }

  method ScanText(text: Bytes, input: Bytes) returns (consumed: nat, matches: bool)
    ensures consumed == |Items(text)| && matches == Match(Items(text), input)
  {
    ghost var items := Items(text);
    consumed, matches := 0, true;
    var s := 0;
    assert text[0..] == text;
    while s < |text|
      invariant s <= |text| && consumed <= |items| && items[consumed..] == Items(text[s..])
      invariant matches == Match(items[..consumed], input)
    {
      ghost var was := text[s..];
      if text[s] == SKIP {
        assert text[s + 1..] == was[1..];
      } else {
        if text[s] == ESC && s + 1 < |text| { s := s + 1; }
        assert text[s + 1..] == was[|was| - |text| + s + 1..];
        if text[s] != At(input, consumed) { matches := false; }
      }
      MatchStep(items, input, consumed);
      assert items[consumed + 1..] == items[consumed..][1..];
      s := s + 1;
      consumed := consumed + 1;
    }
    assert items[..consumed] == items;
  }

  lemma MatchStep(items: seq<Item>, input: Bytes, n: nat)
    requires n < |items|
    ensures Match(items[..n + 1], input) == (Match(items[..n], input) && Fits(items[n], At(input, n)))
  {
    assert forall i: nat | i < n :: items[..n + 1][i] == items[..n][i];
    assert items[..n + 1][n] == items[n];
  }

  // ---- Round trip ----

  /** Some continuation of `text` matches the items. */
  predicate Clashes(items: seq<Item>, text: Bytes) {
    forall i: nat | i < |items| && i < |text| :: Fits(items[i], text[i])
  }

  lemma ClashIffMatch(items: seq<Item>, text: Bytes)
    ensures Clashes(items, text) <==> exists rest: Bytes :: Match(items, text + rest)
  {
    if Clashes(items, text) {
      var rest := if |items| > |text| then Plain(items[|text|..]) else [];
      forall i: nat | i < |items| ensures Fits(items[i], At(text + rest, i)) {
        if i >= |text| { assert items[|text|..][i - |text|] == items[i]; }
      }
      assert Match(items, text + rest);
    }
    forall rest: Bytes | Match(items, text + rest) ensures Clashes(items, text) {
      forall i: nat | i < |items| && i < |text| ensures Fits(items[i], text[i]) {
        assert Fits(items[i], At(text + rest, i));
      }
    }
  }

  /** Without wildcards a match is a prefix, and the input must be long enough. */
  lemma MatchIsPrefix(items: seq<Item>, input: Bytes)
    requires forall i: nat | i < |items| :: items[i].Char? && items[i].c != 0
    ensures Match(items, input) <==> |items| <= |input| && input[..|items|] == Plain(items)
  {
    if Match(items, input) {
      forall i: nat | i < |items| ensures i < |input| && input[i] == Plain(items)[i] {
        assert Fits(items[i], At(input, i));
      }
      if |items| > 0 { assert Fits(items[|items| - 1], At(input, |items| - 1)); }
    }
  }

  lemma OwnTextMatches(items: seq<Item>, rest: Bytes)
    ensures Match(items, Plain(items) + rest)
  {
  }

  /** The value and the length come back, whatever follows the printed text,
      exactly if no earlier choice can match there. */
  lemma PrintScan(list: seq<Choice>, k: nat)
    requires k < |list|
    ensures (forall rest: Bytes :: FirstMatch(list, Plain(Items(list[k].text)) + rest) == k)
       <==> (forall j: nat | j < k :: !Clashes(Items(list[j].text), Plain(Items(list[k].text))))
  {
    var text := Plain(Items(list[k].text));
    if forall j: nat | j < k :: !Clashes(Items(list[j].text), text) {
      forall rest: Bytes ensures FirstMatch(list, text + rest) == k {
        OwnTextMatches(Items(list[k].text), rest);
        forall j: nat | j < k ensures !Match(Items(list[j].text), text + rest) {
          ClashIffMatch(Items(list[j].text), text);
        }
      }
    }
    if j: nat :| j < k && Clashes(Items(list[j].text), text) {
      ClashIffMatch(Items(list[j].text), text);
      var rest: Bytes :| Match(Items(list[j].text), text + rest);
      assert FirstMatch(list, text + rest) <= j;
    }
  }

  /** Texts that are pairwise not prefixes of each other never clash. */
  lemma PrefixFreeScans(list: seq<Choice>, value: int, rest: Bytes)
    requires forall i, j | 0 <= i < j < |list| :: !Clashes(Items(list[i].text), Plain(Items(list[j].text)))
    ensures var k := Lookup(list, value);
            k < |list| ==> FirstMatch(list, Plain(Items(list[k].text)) + rest) == k
  {
    var k := Lookup(list, value);
    if k < |list| { PrintScan(list, k); }
  }

  // ---- parse ----

  datatype Parsed =
    | Choices(list: seq<Choice>, fallback: Option<Bytes>, rest: Bytes)
    | Failed

  /** What strtol gives: a value and the number of characters it takes. */
  datatype Reading = NoNumber | Reading(value: int, length: nat)

  type Strtol = Bytes -> Reading

  /** What is left to do: source text, finished choices, and the choice being read. */
  datatype State = State(source: Bytes, list: seq<Choice>, index: int, text: Bytes)

  datatype Progress = Continue(state: State) | Done(result: Parsed)

  function EndChoice(c: byte, src: Bytes, list: seq<Choice>, index: int): Progress {
    if c == BRACE then Done(Choices(list, None, src)) else Continue(State(src, list, index + 1, []))
  }

  /** `=?` makes the text the default; it must be last and is for output only. */
  function TakeDefault(scanFormat: bool, s: State, src: Bytes): Parsed
    requires src != []
  {
    if !scanFormat && |src| > 1 && src[1] == BRACE then Choices(s.list, Some(s.text), src[2..]) else Failed
  }

  /** An assigned number, taken together with the end of its choice. */
  function TakeNumber(r: Reading, s: State, src: Bytes): (p: Progress)
    ensures p.Continue? ==> |p.state.source| < |src|
  {
    if r == NoNumber || r.length >= |src| || (src[r.length] != BAR && src[r.length] != BRACE) then Done(Failed)
    else EndChoice(src[r.length], src[r.length + 1..], s.list + [Choice(r.value, s.text)], r.value)
  }

  function TakeEscaped(s: State, src: Bytes): (p: Progress)
    ensures p.Continue? ==> |p.state.source| < |src|
  {
    if src == [] then Done(Failed) else Continue(State(src[1..], s.list, s.index, s.text + [ESC, src[0]]))
  }

  /** One round of the loop. */
  function Round(alt: bool, scanFormat: bool, number: Strtol, s: State): (p: Progress)
    requires s.source != []
    ensures p.Continue? ==> |p.state.source| < |s.source|
  {
    var c, src := s.source[0], s.source[1..];
    if c == EQUALS && alt then
      if src != [] && src[0] == QUESTION then Done(TakeDefault(scanFormat, s, src)) else TakeNumber(number(src), s, src)
    else if c == BAR || c == BRACE then EndChoice(c, src, s.list + [Choice(s.index, s.text)], s.index)
    else if c == ESC then TakeEscaped(s, src)
    else Continue(State(src, s.list, s.index, s.text + [c]))
  }

  function ParseFrom(alt: bool, scanFormat: bool, number: Strtol, s: State): Parsed
    decreases |s.source|
  {
    if s.source == [] then Failed
    else match Round(alt, scanFormat, number, s)
         case Done(r) => r
         case Continue(t) => ParseFrom(alt, scanFormat, number, t)
  }

  function Resume(alt: bool, scanFormat: bool, number: Strtol, p: Progress): Parsed {
    if p.Done? then p.result else ParseFrom(alt, scanFormat, number, p.state)
  }

  method Parse(alt: bool, scanFormat: bool, number: Strtol, source: Bytes) returns (r: Parsed)
    ensures r == ParseFrom(alt, scanFormat, number, State(source, [], 0, []))
    ensures r.Choices? ==> forall c | c in r.list :: Complete(c.text)
    ensures r.Choices? && r.fallback.Some? ==> !scanFormat && Complete(r.fallback.value)
  {
    var s := State(source, [], 0, []);
    while s.source != []
      invariant ParseFrom(alt, scanFormat, number, s) == ParseFrom(alt, scanFormat, number, State(source, [], 0, []))
      invariant Complete(s.text) && forall c | c in s.list :: Complete(c.text)
      decreases |s.source|
    {
      CompleteGrows(s.text, s.source);
      var p := Round(alt, scanFormat, number, s);
      if p.Done? { return p.result; }
      s := p.state;
    }
    return Failed;
  }

  lemma {:induction false} CompleteConcat(a: Bytes, b: Bytes)
    requires Complete(a) && Complete(b)
    ensures Complete(a + b)
    decreases |a|
  {
    if a == [] {
      assert a + b == b;
    } else if a[0] == ESC {
      assert (a + b)[2..] == a[2..] + b;
      CompleteConcat(a[2..], b);
    } else {
      assert (a + b)[1..] == a[1..] + b;
      CompleteConcat(a[1..], b);
    }
  }

  lemma CompleteGrows(text: Bytes, source: Bytes)
    requires Complete(text) && source != []
    ensures source[0] != ESC ==> Complete(text + [source[0]])
    ensures |source| > 1 ==> Complete(text + [ESC, source[1]])
  {
    if source[0] != ESC { CompleteConcat(text, [source[0]]); }
    if |source| > 1 {
      assert [ESC, source[1]][2..] == [];
      CompleteConcat(text, [ESC, source[1]]);
    }
  }

  // ---- Parsing what was written ----

  /** A choice as it is written, with or without an assigned number. */
  datatype Entry = Entry(text: Bytes, number: Option<int>)

  /** A text without unprotected special characters. */
  predicate Ordinary(alt: bool, text: Bytes)
    decreases |text|
  {
    if text == [] then true
    else if text[0] == ESC then |text| > 1 && Ordinary(alt, text[2..])
    else text[0] != BAR && text[0] != BRACE && !(alt && text[0] == EQUALS) && Ordinary(alt, text[1..])
  }

  function Written(e: Entry, show: int -> Bytes): Bytes {
    e.text + if e.number.Some? then [EQUALS] + show(e.number.value) else []
  }

  function Source(es: seq<Entry>, show: int -> Bytes): Bytes
    requires es != []
  {
    Written(es[0], show) + if |es| == 1 then [BRACE] else [BAR] + Source(es[1..], show)
  }

  /** Choices count up from the last assigned number. */
  function Numbered(es: seq<Entry>, index: int): (r: seq<Choice>)
    ensures |r| == |es|
  {
    if es == [] then [] else
    var i := if es[0].number.Some? then es[0].number.value else index;
    [Choice(i, es[0].text)] + Numbered(es[1..], i + 1)
  }

  /** A number that a long can hold; strtol gives no other. */
  predicate IsLong(i: int) { -0x8000_0000_0000_0000 <= i < 0x8000_0000_0000_0000 }

  /** strtol reads a shown long up to the character that ends the choice. */
  ghost predicate ReadsShown(number: Strtol, show: int -> Bytes) {
    forall i: int, rest: Bytes | IsLong(i) && AtEnd(rest) :: ReadsOne(number, show, i, rest)
  }

  predicate AtEnd(tail: Bytes) { tail != [] && (tail[0] == BAR || tail[0] == BRACE) }

  /** Texts are ordinary; numbers are longs and only assigned in the alternate form. */
  predicate Writable(alt: bool, e: Entry) {
    Ordinary(alt, e.text) && (e.number.Some? ==> alt && IsLong(e.number.value))
  }

  predicate ReadsOne(number: Strtol, show: int -> Bytes, i: int, rest: Bytes) {
    show(i) != [] && show(i)[0] != QUESTION && number(show(i) + rest) == Reading(i, |show(i)|)
  }

  lemma {:induction false} ParseText(alt: bool, scanFormat: bool, number: Strtol, text: Bytes, s: State)
    requires Ordinary(alt, text)
    ensures ParseFrom(alt, scanFormat, number, s.(source := text + s.source))
         == ParseFrom(alt, scanFormat, number, s.(text := s.text + text))
    decreases |text|
  {
    var t := s.(source := text + s.source);
    if text == [] {
      assert text + s.source == s.source && s.text + text == s.text;
    } else if text[0] == ESC {
      assert t.source[1..][1..] == text[2..] + s.source;
      assert s.text + [ESC, text[1]] + text[2..] == s.text + text;
      ParseText(alt, scanFormat, number, text[2..], s.(text := s.text + [ESC, text[1]]));
    } else {
      assert t.source[1..] == text[1..] + s.source;
      assert s.text + [text[0]] + text[1..] == s.text + text;
      ParseText(alt, scanFormat, number, text[1..], s.(text := s.text + [text[0]]));
    }
  }

  lemma ParseEnd(alt: bool, scanFormat: bool, number: Strtol, s: State)
    requires AtEnd(s.source)
    ensures ParseFrom(alt, scanFormat, number, s)
         == Resume(alt, scanFormat, number,
                   EndChoice(s.source[0], s.source[1..], s.list + [Choice(s.index, s.text)], s.index))
  {
  }

  lemma ParseNumber(scanFormat: bool, number: Strtol, show: int -> Bytes, i: int, tail: Bytes, s: State)
    requires AtEnd(tail) && ReadsOne(number, show, i, tail) && s.source == [EQUALS] + (show(i) + tail)
    ensures ParseFrom(true, scanFormat, number, s)
         == Resume(true, scanFormat, number, EndChoice(tail[0], tail[1..], s.list + [Choice(i, s.text)], i))
  {
    var n := show(i);
    assert s.source[1..] == n + tail;
    assert (n + tail)[|n|] == tail[0] && (n + tail)[|n| + 1..] == tail[1..];
    assert Round(true, scanFormat, number, s) == EndChoice(tail[0], tail[1..], s.list + [Choice(i, s.text)], i);
  }

  function IndexOf(e: Entry, index: int): int { if e.number.Some? then e.number.value else index }

  /** One written choice and its end. */
  lemma ParseEntry(alt: bool, scanFormat: bool, number: Strtol, show: int -> Bytes, e: Entry, tail: Bytes, s: State)
    requires Writable(alt, e) && ReadsShown(number, show)
    requires AtEnd(tail) && s.text == [] && s.source == Written(e, show) + tail
    ensures var i := IndexOf(e, s.index);
            ParseFrom(alt, scanFormat, number, s)
            == Resume(alt, scanFormat, number, EndChoice(tail[0], tail[1..], s.list + [Choice(i, e.text)], i))
  {
    assert [] + e.text == e.text;
    if e.number.Some? {
      var n := show(e.number.value);
      assert s.source == e.text + ([EQUALS] + (n + tail));
      ParseText(alt, scanFormat, number, e.text, s.(source := [EQUALS] + (n + tail)));
      assert ReadsOne(number, show, e.number.value, tail);
      ParseNumber(scanFormat, number, show, e.number.value, tail, State([EQUALS] + (n + tail), s.list, s.index, e.text));
    } else {
      assert s.source == e.text + tail;
      ParseText(alt, scanFormat, number, e.text, s.(source := tail));
      ParseEnd(alt, scanFormat, number, State(tail, s.list, s.index, e.text));
    }
  }

  lemma SourceStep(es: seq<Entry>, show: int -> Bytes, rest: Bytes)
    requires es != []
    ensures Source(es, show) + rest
         == Written(es[0], show) + if |es| == 1 then [BRACE] + rest else [BAR] + (Source(es[1..], show) + rest)
  {
  }

  lemma NumberedStep(list: seq<Choice>, es: seq<Entry>, index: int)
    requires es != []
    ensures var i := IndexOf(es[0], index);
            list + Numbered(es, index) == list + [Choice(i, es[0].text)] + Numbered(es[1..], i + 1)
  {
  }

  /** Reading back a written list gives its texts and numbers. */
  lemma {:induction false} ParseSource(
      alt: bool, scanFormat: bool, number: Strtol, show: int -> Bytes, es: seq<Entry>, rest: Bytes, s: State)
    requires es != [] && ReadsShown(number, show) && s.text == [] && s.source == Source(es, show) + rest
    requires forall e | e in es :: Writable(alt, e)
    ensures ParseFrom(alt, scanFormat, number, s) == Choices(s.list + Numbered(es, s.index), None, rest)
    decreases |es|
  {
    var e, i := es[0], IndexOf(es[0], s.index);
    var done := s.list + [Choice(i, e.text)];
    SourceStep(es, show, rest);
    NumberedStep(s.list, es, s.index);
    if |es| == 1 {
      ParseEntry(alt, scanFormat, number, show, e, [BRACE] + rest, s);
      assert ([BRACE] + rest)[1..] == rest && Numbered(es[1..], i + 1) == [];
    } else {
      var more := Source(es[1..], show) + rest;
      ParseEntry(alt, scanFormat, number, show, e, [BAR] + more, s);
      assert ([BAR] + more)[1..] == more;
      ParseSource(alt, scanFormat, number, show, es[1..], rest, State(more, done, i + 1, []));
    }
  }

  /** A last text with `=?` becomes the default. */
  lemma ParseDefault(number: Strtol, text: Bytes, rest: Bytes, s: State)
    requires Ordinary(true, text) && s.text == [] && s.source == text + [EQUALS, QUESTION, BRACE] + rest
    ensures ParseFrom(true, false, number, s) == Choices(s.list, Some(text), rest)
  {
    var after := [EQUALS, QUESTION, BRACE] + rest;
    assert s.source == text + after && [] + text == text;
    ParseText(true, false, number, text, s.(source := after));
    var t := s.(source := after, text := text);
    assert after[1..][2..] == rest;
    assert Round(true, false, number, t) == Done(Choices(s.list, Some(text), rest));
  }

  /** A list of choices, possibly empty, and then the default. */
  function SourceWithDefault(es: seq<Entry>, text: Bytes, show: int -> Bytes): Bytes {
    if es == [] then text + [EQUALS, QUESTION, BRACE]
    else Written(es[0], show) + [BAR] + SourceWithDefault(es[1..], text, show)
  }

  lemma Reassociate(a: Bytes, b: Bytes, c: Bytes, d: Bytes)
    ensures a + b + c + d == a + (b + (c + d))
  {
  }

  lemma {:induction false} ParseWithDefault(
      number: Strtol, show: int -> Bytes, es: seq<Entry>, text: Bytes, rest: Bytes, s: State)
    requires ReadsShown(number, show) && Ordinary(true, text) && forall e | e in es :: Writable(true, e)
    requires s.text == [] && s.source == SourceWithDefault(es, text, show) + rest
    ensures ParseFrom(true, false, number, s) == Choices(s.list + Numbered(es, s.index), Some(text), rest)
    decreases |es|
  {
    if es == [] {
      assert s.list + [] == s.list;
      ParseDefault(number, text, rest, s);
    } else {
      var e, i := es[0], IndexOf(es[0], s.index);
      var more := SourceWithDefault(es[1..], text, show) + rest;
      Reassociate(Written(e, show), [BAR], SourceWithDefault(es[1..], text, show), rest);
      ParseEntry(true, false, number, show, e, [BAR] + more, s);
      assert ([BAR] + more)[1..] == more;
      NumberedStep(s.list, es, s.index);
      ParseWithDefault(number, show, es[1..], text, rest, State(more, s.list + [Choice(i, e.text)], i + 1, []));
    }
  }

  /** With a default every value that is not listed prints it. */
  method PrintUnlisted(number: Strtol, show: int -> Bytes, es: seq<Entry>, text: Bytes, rest: Bytes, value: int)
    returns (r: Option<Bytes>)
    requires ReadsShown(number, show) && Ordinary(true, text) && forall e | e in es :: Writable(true, e)
    requires forall c | c in Numbered(es, 0) :: c.index != value
    ensures r == Some(Plain(Items(text)))
  {
    var source := SourceWithDefault(es, text, show) + rest;
    var parsed := Parse(true, false, number, source);
    ParseWithDefault(number, show, es, text, rest, State(source, [], 0, []));
    assert [] + Numbered(es, 0) == Numbered(es, 0);
    r := PrintLong(parsed.list, parsed.fallback, value);
  }
}
