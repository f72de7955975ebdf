/**
 * Parsing of cron expressions (internal/scheduler/scheduler.go). Integers are Go's 64-bit int where the
 * width shows: in strconv.Atoi, and in the stepping loop, whose addition wraps around.
 */
module CronFields {
  import opened Options

  const TWO63: int := 0x8000_0000_0000_0000
  const TWO62: int := 0x4000_0000_0000_0000

  function Wrap(x: int): int {
    (x + TWO63) % (2 * TWO63) - TWO63
  }

  // ---- strings -------------------------------------------------------------------------------

  function Split(s: string, c: char): (parts: seq<string>)
    ensures |parts| >= 1
  {
    if s == [] then [[]]
    else
      var rest := Split(s[1..], c);
      if s[0] == c then [[]] + rest else [[s[0]] + rest[0]] + rest[1..]
  }

  function Join(parts: seq<string>, c: char): string
    requires |parts| >= 1
  {
    if |parts| == 1 then parts[0] else parts[0] + [c] + Join(parts[1..], c)
  }

  /** Splitting loses nothing, and no part holds the separator. */
  lemma {:induction false} SplitJoin(s: string, c: char)
    ensures Join(Split(s, c), c) == s
    ensures forall part :: part in Split(s, c) ==> c !in part
  {
    if s != [] {
      SplitJoin(s[1..], c);
      var rest, parts := Split(s[1..], c), Split(s, c);
      if s[0] == c {
        assert parts[1..] == rest;
      } else {
        assert parts[1..] == rest[1..];
        assert s == [s[0]] + s[1..];
        assert rest[0] in rest;
      }
    }
  }

  predicate IsSpace(c: char) {
    || '\t' <= c <= '\r' || c == ' ' || c == '\U{85}' || c == '\U{A0}' || c == '\U{1680}'
    || '\U{2000}' <= c <= '\U{200A}' || c == '\U{2028}' || c == '\U{2029}' || c == '\U{202F}'
    || c == '\U{205F}' || c == '\U{3000}'
  }

  function TrimLeft(s: string): string {
    if s != [] && IsSpace(s[0]) then TrimLeft(s[1..]) else s
  }

  function TrimSpace(s: string): string {
    TrimRight(TrimLeft(s))
  }

  function TrimRight(s: string): string {
    if s != [] && IsSpace(s[|s| - 1]) then TrimRight(s[..|s| - 1]) else s
  }

  /** The maximal runs of characters that are not spaces. */
  function Words(s: string): seq<string> {
    if s == [] then []
    else if IsSpace(s[0]) then Words(s[1..])
    else if |s| == 1 || IsSpace(s[1]) then [[s[0]]] + Words(s[1..])
    else
      var rest := Words(s[1..]);
      if rest == [] then [[s[0]]] else [[s[0]] + rest[0]] + rest[1..]
  }

  function Digits(s: string): Option<nat> {
    if s == [] then Some(0)
    else
      var high := Digits(s[..|s| - 1]);
      var c := s[|s| - 1];
      if high.Some? && '0' <= c <= '9' then Some(10 * high.value + (c as int - '0' as int)) else None
  }

  /** strconv.Atoi: an optional sign and at least one digit, within 64 bits. */
  function Atoi(s: string): (r: Option<int>)
    ensures r.Some? ==> -TWO63 <= r.value < TWO63
  {
    var signed := s != [] && (s[0] == '-' || s[0] == '+');
    var digits := if signed then s[1..] else s;
    if digits == [] || Digits(digits).None? then None
    else
      var n: int := if signed && s[0] == '-' then 0 - Digits(digits).value else Digits(digits).value;
      if -TWO63 <= n < TWO63 then Some(n) else None
  }

  // ---- one token -----------------------------------------------------------------------------

  datatype Range = Range(start: int, end: int, step: int)

  predicate InBounds(r: Range, min: int, max: int) {
    min <= r.start <= r.end <= max && 1 <= r.step < TWO63
  }

  function ParseStep(token: string): Option<(string, int)> {
    if '/' !in token then Some((token, 1))
    else
      var p := Split(token, '/');
      if |p| != 2 then None
      else
        var n := Atoi(p[1]);
        if n.None? || n.value <= 0 then None else Some((p[0], n.value))
  }

  function ParseBase(base: string, min: int, max: int): Option<(int, int)> {
    if base == "*" then Some((min, max))
    else if '-' in base then
      var p := Split(base, '-');
      if |p| != 2 then None
      else
        var start, end := Atoi(p[0]), Atoi(p[1]);
        if start.None? || end.None? then None else Some((start.value, end.value))
    else
      var n := Atoi(base);
      if n.None? then None else Some((n.value, n.value))
  }

  function ParseToken(raw: string, min: int, max: int): (r: Option<Range>)
    ensures r.Some? ==> InBounds(r.value, min, max)
  {
    var token := TrimSpace(raw);
    if token == [] then None
    else
      var step := ParseStep(token);
      if step.None? then None
      else
        var base := ParseBase(step.value.0, min, max);
        if base.None? then None
        else
          var (start, end) := base.value;
          if start < min || end > max || start > end then None else Some(Range(start, end, step.value.1))
  }

  function ParseTokens(tokens: seq<string>, min: int, max: int): (r: Option<seq<Range>>)
    ensures r.Some? ==> |r.value| == |tokens| && forall i :: 0 <= i < |tokens| ==> InBounds(r.value[i], min, max)
  {
    if tokens == [] then Some([])
    else
      var first := ParseTokens(tokens[..|tokens| - 1], min, max);
      var last := ParseToken(tokens[|tokens| - 1], min, max);
      if first.None? || last.None? then None else Some(first.value + [last.value])
  }

  // ---- the stepping loop ---------------------------------------------------------------------

  /** Where the loop variable can be: near the field, or a wrapped sum one step away from it. */
  predicate Near(v: int, end: int, step: int) {
    && 0 <= end <= 59 && 1 <= step < TWO63
    && (-59 <= v || (v < -59 && step > TWO62 && -59 <= v + step <= 59 && -TWO63 <= v))
  }

  function Rank(v: int, end: int, step: int): nat
    requires Near(v, end, step)
  {
    if v > end then 0
    else if step <= TWO62 then end - v + 1
    else if v < -59 then 2 * (v + step + 100) + 3
    else 2 * (v + 100) + 2
  }

  lemma StepIsNear(v: int, end: int, step: int)
    requires Near(v, end, step) && v <= end
    ensures Near(Wrap(v + step), end, step) && Rank(Wrap(v + step), end, step) < Rank(v, end, step)
    ensures v + step < TWO63 ==> Wrap(v + step) == v + step
  {
    if v + step < TWO63 {
      assert Wrap(v + step) == v + step;
    } else {
      assert Wrap(v + step) == v + step - 2 * TWO63;
    }
  }

  /** The values that the loop `for v := start; v <= end; v += step` goes through. */
  function Visited(v: int, end: int, step: int): set<int>
    requires Near(v, end, step)
    decreases Rank(v, end, step)
  {
    if v > end then {}
    else
      StepIsNear(v, end, step);
      {v} + Visited(Wrap(v + step), end, step)
  }

  function Term(start: int, step: int, n: nat): int {
    start + n * step
  }

  /** What the token means. */
  ghost predicate Denotes(r: Range, x: int) {
    x <= r.end && exists n: nat :: x == Term(r.start, r.step, n)
  }

  /** The addition leaves 64 bits: the step is within 59 of the largest integer. */
  predicate Wraps(r: Range) {
    r.start + r.step >= TWO63
  }

  lemma TermShift(v: int, step: int, n: nat)
    requires n > 0
    ensures Term(v, step, n) == Term(v + step, step, n - 1)
  {
    assert n * step == (n - 1) * step + step;
  }

  lemma TermGrows(v: int, step: int, n: nat)
    requires step >= 1
    ensures Term(v, step, n) >= v
  {
    assert n * step >= 0;
  }

  /** The first term, or one of the rest. */
  lemma DenotesNext(r: Range, x: int)
    requires r.start <= r.end
    ensures Denotes(r, x) <==> x == r.start || Denotes(r.(start := r.start + r.step), x)
  {
    var next := r.(start := r.start + r.step);
    assert Term(r.start, r.step, 0) == r.start;
    if Denotes(next, x) {
      var n: nat :| x == Term(next.start, next.step, n);
      TermShift(r.start, r.step, n + 1);
    }
    if Denotes(r, x) {
      var n: nat :| x == Term(r.start, r.step, n);
      if n > 0 {
        TermShift(r.start, r.step, n);
      }
    }
  }

  lemma {:induction false} NoWrapVisits(r: Range, x: int)
    requires 0 <= r.start && 0 <= r.end <= 59 && 1 <= r.step && (r.start > r.end || !Wraps(r))
    requires r.step < TWO63
    ensures x in Visited(r.start, r.end, r.step) <==> Denotes(r, x)
    decreases if r.start > r.end then 0 else r.end - r.start + 1
  {
    hide Term, Rank;
    if r.start > r.end {
      forall n: nat
        ensures Term(r.start, r.step, n) >= r.start
      {
        TermGrows(r.start, r.step, n);
      }
    } else {
      var next := r.(start := r.start + r.step);
      StepIsNear(r.start, r.end, r.step);
      NoWrapVisits(next, x);
      DenotesNext(r, x);
    }
  }

  lemma WrapVisitsNegative(r: Range, min: int, max: int)
    requires 0 <= min && max <= 59 && InBounds(r, min, max) && Wraps(r)
    ensures r.start + r.step - 2 * TWO63 in Visited(r.start, r.end, r.step)
  {
    StepIsNear(r.start, r.end, r.step);
    assert Wrap(r.start + r.step) == r.start + r.step - 2 * TWO63;
  }

  // ---- one field -----------------------------------------------------------------------------

  predicate Bounded(ranges: seq<Range>, min: int, max: int) {
    0 <= min && max <= 59 && forall i :: 0 <= i < |ranges| ==> InBounds(ranges[i], min, max)
  }

  function VisitedAll(ranges: seq<Range>): set<int>
    requires Bounded(ranges, 0, 59)
  {
    if ranges == [] then {}
    else
      var last := ranges[|ranges| - 1];
      VisitedAll(ranges[..|ranges| - 1]) + Visited(last.start, last.end, last.step)
  }

  lemma {:induction false} VisitedAllMembers(ranges: seq<Range>, x: int)
    requires Bounded(ranges, 0, 59)
    ensures x in VisitedAll(ranges) <==>
            exists i :: 0 <= i < |ranges| && x in Visited(ranges[i].start, ranges[i].end, ranges[i].step)
  {
    hide Visited;
    if ranges != [] {
      VisitedAllMembers(ranges[..|ranges| - 1], x);
    }
  }

  /**
   * An accepted field is never empty, and it is exactly the union of its tokens' arithmetic progressions,
   * all of it in range, if and only if no token's first step leaves 64 bits.
   */
  lemma FieldDenotes(ranges: seq<Range>, min: int, max: int)
    requires ranges != [] && Bounded(ranges, min, max)
    ensures exists x :: x in VisitedAll(ranges) && min <= x <= max
    ensures (forall i :: 0 <= i < |ranges| ==> !Wraps(ranges[i])) <==>
            (forall x :: x in VisitedAll(ranges) <==> exists i :: 0 <= i < |ranges| && Denotes(ranges[i], x))
    ensures (forall i :: 0 <= i < |ranges| ==> !Wraps(ranges[i])) <==>
            (forall x :: x in VisitedAll(ranges) ==> min <= x <= max)
  {
    VisitedAllMembers(ranges, ranges[0].start);
    assert ranges[0].start in Visited(ranges[0].start, ranges[0].end, ranges[0].step);
    hide Visited, VisitedAll, Denotes;
    if forall i :: 0 <= i < |ranges| ==> !Wraps(ranges[i]) {
      forall x
        ensures x in VisitedAll(ranges) <==> exists i :: 0 <= i < |ranges| && Denotes(ranges[i], x)
        ensures x in VisitedAll(ranges) ==> min <= x <= max
      {
        ExactWithoutWrap(ranges, min, max, x);
      }
    } else {
      WrapLeavesRange(ranges, min, max);
    }
  }

  lemma WrapLeavesRange(ranges: seq<Range>, min: int, max: int)
    requires Bounded(ranges, min, max) && exists i :: 0 <= i < |ranges| && Wraps(ranges[i])
    ensures exists x :: x in VisitedAll(ranges) && x < min && !(exists i :: 0 <= i < |ranges| && Denotes(ranges[i], x))
  {
    hide Visited, VisitedAll, Denotes;
    var i :| 0 <= i < |ranges| && Wraps(ranges[i]);
    var x := ranges[i].start + ranges[i].step - 2 * TWO63;
    WrapVisitsNegative(ranges[i], min, max);
    VisitedAllMembers(ranges, x);
    assert x < min;
    forall j | 0 <= j < |ranges|
      ensures !Denotes(ranges[j], x)
    {
      if Denotes(ranges[j], x) {
        DenotesInRange(ranges[j], min, max, x);
      }
    }
  }

  lemma ExactWithoutWrap(ranges: seq<Range>, min: int, max: int, x: int)
    requires Bounded(ranges, min, max) && forall i :: 0 <= i < |ranges| ==> !Wraps(ranges[i])
    ensures x in VisitedAll(ranges) <==> exists i :: 0 <= i < |ranges| && Denotes(ranges[i], x)
    ensures x in VisitedAll(ranges) ==> min <= x <= max
  {
    hide Visited, VisitedAll, Denotes;
    VisitedAllMembers(ranges, x);
    forall i | 0 <= i < |ranges|
      ensures x in Visited(ranges[i].start, ranges[i].end, ranges[i].step) <==> Denotes(ranges[i], x)
      ensures Denotes(ranges[i], x) ==> min <= x <= max
    {
      NoWrapVisits(ranges[i], x);
      if Denotes(ranges[i], x) {
        DenotesInRange(ranges[i], min, max, x);
      }
    }
  }

  lemma DenotesInRange(r: Range, min: int, max: int, x: int)
    requires InBounds(r, min, max) && Denotes(r, x)
    ensures min <= x <= max
  {
    var n: nat :| x == Term(r.start, r.step, n);
    TermGrows(r.start, r.step, n);
  }

  // ---- reading particular strings ------------------------------------------------------------

  lemma {:induction false} SplitAt(a: string, c: char, b: string)
    requires c !in a
    ensures Split(a + [c] + b, c) == [a] + Split(b, c)
  {
    var s := a + [c] + b;
    if a == [] {
      assert s[1..] == b;
    } else {
      assert s[1..] == a[1..] + [c] + b;
      SplitAt(a[1..], c, b);
      assert [a[0]] + a[1..] == a;
    }
  }

  lemma {:induction false} SplitNone(a: string, c: char)
    requires c !in a
    ensures Split(a, c) == [a]
  {
    if a != [] {
      SplitNone(a[1..], c);
      assert [a[0]] + a[1..] == a;
    }
  }

  lemma SplitTwo(a: string, c: char, b: string)
    requires c !in a && c !in b
    ensures Split(a + [c] + b, c) == [a, b]
  {
    SplitAt(a, c, b);
    SplitNone(b, c);
  }

  /** One digit more of a number. */
  lemma DigitsNext(s: string, n: nat, v: nat)
    requires n < |s| && Digits(s[..n]) == Some(v) && '0' <= s[n] <= '9'
    ensures Digits(s[..n + 1]) == Some(10 * v + (s[n] as int - '0' as int))
  {
    assert s[..n + 1][..n] == s[..n];
  }

  lemma TrimNothing(s: string)
    requires s != [] && !IsSpace(s[0]) && !IsSpace(s[|s| - 1])
    ensures TrimSpace(s) == s
  {
  }

  lemma OneDigit(s: string)
    requires |s| == 1 && '0' <= s[0] <= '9'
    ensures Atoi(s) == Some(s[0] as int - '0' as int)
  {
    assert s[..0] == [] && s[..1] == s;
    DigitsNext(s, 0, 0);
  }

  predicate Plain(s: string) {
    s != [] && forall i :: 0 <= i < |s| ==> '0' <= s[i] <= '9'
  }

  /** A field that is a number within the limits selects that number. */
  lemma NumberField(part: string, n: int, min: int, max: int)
    requires Plain(part) && Atoi(part) == Some(n) && 0 <= min <= n <= max <= 59
    ensures ParseTokens(Split(part, ','), min, max) == Some([Range(n, n, 1)])
    ensures VisitedAll([Range(n, n, 1)]) == {n}
  {
    hide Atoi;
    TrimNothing(part);
    SplitNone(part, ',');
    assert part[0] != '*';
    assert ParseToken(part, min, max) == Some(Range(n, n, 1)) by {
      hide Split, TrimSpace;
    }
    OneToken(part, min, max);
    OneValue(n);
  }

  lemma OneValue(n: int)
    requires 0 <= n <= 59
    ensures VisitedAll([Range(n, n, 1)]) == {n}
  {
    var one := [Range(n, n, 1)];
    assert one[..|one| - 1] == [];
    StepIsNear(n, n, 1);
    assert Visited(n + 1, n, 1) == {};
  }

  /** A star selects the whole range. */
  lemma StarField(min: int, max: int)
    requires 0 <= min <= max <= 59
    ensures ParseTokens(Split("*", ','), min, max) == Some([Range(min, max, 1)])
  {
    TrimNothing("*");
    SplitNone("*", ',');
    assert ParseToken("*", min, max) == Some(Range(min, max, 1)) by {
      hide Split, TrimSpace;
    }
    OneToken("*", min, max);
  }

  // ---- which tokens are accepted -------------------------------------------------------------

  datatype Base = Star | Single(n: string) | Span(first: string, last: string)

  function BaseText(b: Base): string {
    match b
    case Star => "*"
    case Single(n) => n
    case Span(first, last) => first + ['-'] + last
  }

  predicate BaseSpelled(b: Base) {
    match b
    case Star => true
    case Single(n) => n != "*" && '/' !in n && '-' !in n
    case Span(first, last) => '/' !in first && '-' !in first && '/' !in last && '-' !in last
  }

  function BaseMeaning(b: Base, min: int, max: int): Option<(int, int)> {
    match b
    case Star => Some((min, max))
    case Single(n) => if Atoi(n).None? then None else Some((Atoi(n).value, Atoi(n).value))
    case Span(first, last) =>
      if Atoi(first).None? || Atoi(last).None? then None else Some((Atoi(first).value, Atoi(last).value))
  }

  /** A base, alone or with a step. */
  datatype Token = Plainly(base: Base) | Stepped(base: Base, step: string)

  function TokenText(t: Token): string {
    if t.Plainly? then BaseText(t.base) else BaseText(t.base) + ['/'] + t.step
  }

  predicate TokenSpelled(t: Token) {
    BaseSpelled(t.base) && (t.Stepped? ==> '/' !in t.step)
  }

  predicate TokenMeans(t: Token, min: int, max: int, r: Range) {
    && BaseMeaning(t.base, min, max) == Some((r.start, r.end)) && InBounds(r, min, max)
    && if t.Plainly? then r.step == 1 else Atoi(t.step) == Some(r.step)
  }

  lemma BaseTextPlain(b: Base)
    requires BaseSpelled(b)
    ensures '/' !in BaseText(b)
  {
  }

  lemma ReadBase(b: Base, min: int, max: int)
    requires BaseSpelled(b)
    ensures ParseBase(BaseText(b), min, max) == BaseMeaning(b, min, max)
  {
    hide Atoi, Split;
    match b
    case Star =>
    case Single(n) =>
    case Span(first, last) =>
      var s := BaseText(b);
      SplitTwo(first, '-', last);
      assert s[|first|] == '-';
      assert s != "*" && '-' in s;
  }

  lemma SpellBase(s: string, min: int, max: int) returns (b: Base)
    requires '/' !in s && ParseBase(s, min, max).Some?
    ensures BaseSpelled(b) && BaseText(b) == s
  {
    hide Atoi, Split;
    if s == "*" {
      b := Star;
    } else if '-' in s {
      SplitJoin(s, '-');
      var p := Split(s, '-');
      assert p[0] in p && p[1] in p;
      assert Join(p[1..], '-') == p[1];
      assert s == p[0] + ['-'] + p[1];
      b := Span(p[0], p[1]);
    } else {
      b := Single(s);
    }
  }

  lemma ReadToken(raw: string, t: Token, min: int, max: int, r: Range)
    requires TokenSpelled(t) && TokenText(t) == TrimSpace(raw) && TokenMeans(t, min, max, r)
    ensures ParseToken(raw, min, max) == Some(r)
  {
    hide Atoi, Split, TrimSpace, BaseText;
    BaseTextPlain(t.base);
    ReadBase(t.base, min, max);
    TextNotEmpty(t.base, min, max);
    if t.Stepped? {
      SplitTwo(BaseText(t.base), '/', t.step);
      assert TokenText(t)[|BaseText(t.base)|] == '/';
    }
    hide ParseBase, BaseMeaning;
  }

  lemma TextNotEmpty(b: Base, min: int, max: int)
    requires BaseMeaning(b, min, max).Some?
    ensures BaseText(b) != []
  {
  }

  /**
   * Exactly which tokens are accepted, and what for: a star, a number or two numbers with a dash, then
   * possibly a slash and a positive step, whose range is not empty and within the limits.
   */
  lemma TokenGrammar(raw: string, min: int, max: int, r: Range)
    ensures ParseToken(raw, min, max) == Some(r) <==>
      exists t :: TokenSpelled(t) && TokenText(t) == TrimSpace(raw) && TokenMeans(t, min, max, r)
  {
    hide Atoi, Split, TrimSpace, TokenText;
    forall t | TokenSpelled(t) && TokenText(t) == TrimSpace(raw) && TokenMeans(t, min, max, r)
      ensures ParseToken(raw, min, max) == Some(r)
    {
      ReadToken(raw, t, min, max, r);
    }
    if ParseToken(raw, min, max) == Some(r) {
      var t := SpellToken(raw, min, max, r);
    }
  }

  lemma SpellToken(raw: string, min: int, max: int, r: Range) returns (t: Token)
    requires ParseToken(raw, min, max) == Some(r)
    ensures TokenSpelled(t) && TokenText(t) == TrimSpace(raw) && TokenMeans(t, min, max, r)
  {
    hide Atoi, Split, TrimSpace, BaseText, BaseSpelled, BaseMeaning, ParseBase;
    var s := TrimSpace(raw);
    if '/' in s {
      SplitJoin(s, '/');
      var p := Split(s, '/');
      assert p[0] in p && p[1] in p;
      assert Join(p[1..], '/') == p[1];
      assert s == p[0] + ['/'] + p[1];
      var b := SpellBase(p[0], min, max);
      ReadBase(b, min, max);
      t := Stepped(b, p[1]);
      var ends := ParseBase(p[0], min, max).value;
      assert ends == (ends.0, ends.1);
    } else {
      var b := SpellBase(s, min, max);
      ReadBase(b, min, max);
      t := Plainly(b);
      var ends := ParseBase(s, min, max).value;
      assert ends == (ends.0, ends.1);
    }
  }

  lemma {:induction false} WordsFirst(w: string, rest: string)
    requires w != [] && forall i :: 0 <= i < |w| ==> !IsSpace(w[i])
    ensures Words(w + " " + rest) == [w] + Words(rest)
  {
    var s := w + " " + rest;
    if |w| == 1 {
      assert s[1..] == " " + rest && (" " + rest)[1..] == rest;
      assert [s[0]] == w;
    } else {
      assert s[1..] == w[1..] + " " + rest;
      WordsFirst(w[1..], rest);
      assert [w[0]] + w[1..] == w;
    }
  }

  lemma {:induction false} WordsLast(w: string)
    requires w != [] && forall i :: 0 <= i < |w| ==> !IsSpace(w[i])
    ensures Words(w) == [w]
  {
    if |w| > 1 {
      WordsLast(w[1..]);
      assert [w[0]] + w[1..] == w;
    } else {
      assert [w[0]] == w;
    }
  }

  const HUGE: string := "9223372036854775806"

  lemma NoDigits()
    ensures Digits([]) == Some(0)
  {
  }

  lemma HugeStart()
    ensures Digits(HUGE[..10]) == Some(9223372036)
  {
    hide Digits;
    NoDigits();
    assert HUGE[..0] == [];
    DigitsNext(HUGE, 0, 0);
    DigitsNext(HUGE, 1, 9);
    DigitsNext(HUGE, 2, 92);
    DigitsNext(HUGE, 3, 922);
    DigitsNext(HUGE, 4, 9223);
    DigitsNext(HUGE, 5, 92233);
    DigitsNext(HUGE, 6, 922337);
    DigitsNext(HUGE, 7, 9223372);
    DigitsNext(HUGE, 8, 92233720);
    DigitsNext(HUGE, 9, 922337203);
  }

  lemma HugeNumber()
    ensures Atoi(HUGE) == Some(TWO63 - 2)
  {
    hide Digits;
    HugeStart();
    DigitsNext(HUGE, 10, 9223372036);
    DigitsNext(HUGE, 11, 92233720368);
    DigitsNext(HUGE, 12, 922337203685);
    DigitsNext(HUGE, 13, 9223372036854);
    DigitsNext(HUGE, 14, 92233720368547);
    DigitsNext(HUGE, 15, 922337203685477);
    DigitsNext(HUGE, 16, 9223372036854775);
    DigitsNext(HUGE, 17, 92233720368547758);
    DigitsNext(HUGE, 18, 922337203685477580);
    assert HUGE[..19] == HUGE;
  }

  lemma SmallNumber(s: string)
    requires |s| == 2 && '0' <= s[0] <= '9' && '0' <= s[1] <= '9'
    ensures Atoi(s) == Some(10 * (s[0] as int - '0' as int) + (s[1] as int - '0' as int))
  {
    assert s[..0] == [] && s[..2] == s;
    DigitsNext(s, 0, 0);
    DigitsNext(s, 1, s[0] as int - '0' as int);
  }

  const WRAPPING: string := "31/" + HUGE

  lemma WrappingToken()
    ensures ParseToken(WRAPPING, 1, 31) == Some(Range(31, 31, TWO63 - 2))
  {
    hide Digits, Split, Atoi, TrimSpace;
    var day := "31";
    TrimNothing(WRAPPING);
    assert WRAPPING == day + ['/'] + HUGE;
    SplitTwo(day, '/', HUGE);
    HugeNumber();
    SmallNumber(day);
    assert WRAPPING[2] == '/';
    assert '/' in WRAPPING && '-' !in day && day != "*";
  }

  /** A day field that is accepted and selects too much: 27, and 23, and so on, beside 31. */
  lemma WrappedExample()
    ensures ParseTokens(Split(WRAPPING, ','), 1, 31) == Some([Range(31, 31, TWO63 - 2)])
    ensures 27 in VisitedAll([Range(31, 31, TWO63 - 2)]) && !Denotes(Range(31, 31, TWO63 - 2), 27)
  {
    var r := Range(31, 31, TWO63 - 2);
    WrappingToken();
    SplitNone(WRAPPING, ',');
    OneToken(WRAPPING, 1, 31);
    WrapReaches27();
    VisitedAllMembers([r], 27);
    assert 27 in Visited([r][0].start, [r][0].end, [r][0].step);
    if Denotes(r, 27) {
      DenotesInRange(r, 31, 31, 27);
    }
  }

  lemma OneToken(token: string, min: int, max: int)
    requires ParseToken(token, min, max).Some?
    ensures ParseTokens([token], min, max) == Some([ParseToken(token, min, max).value])
  {
    hide ParseToken;
    var one := [token];
    var r := ParseToken(token, min, max).value;
    assert one[..|one| - 1] == [] && one[|one| - 1] == token;
    assert ParseTokens(one[..|one| - 1], min, max) == Some([]);
    assert ParseTokens(one, min, max) == Some([] + [r]);
    assert [] + [r] == [r];
  }

  lemma WrapReaches27()
    ensures 27 in Visited(31, 31, TWO63 - 2)
  {
    StepIsNear(31, 31, TWO63 - 2);
    var w := Wrap(31 + TWO63 - 2);
    StepIsNear(w, 31, TWO63 - 2);
    assert Wrap(w + TWO63 - 2) == 27;
    assert 27 in Visited(27, 31, TWO63 - 2);
  }

  // ---- the methods ---------------------------------------------------------------------------

  method Mark(out: set<int>, r: Range) returns (marked: set<int>)
    requires InBounds(r, 0, 59)
    ensures marked == out + Visited(r.start, r.end, r.step)
  {
    marked := out;
    var v := r.start;
    while v <= r.end
      invariant Near(v, r.end, r.step)
      invariant marked + Visited(v, r.end, r.step) == out + Visited(r.start, r.end, r.step)
      decreases Rank(v, r.end, r.step)
    {
      StepIsNear(v, r.end, r.step);
      marked := marked + {v};
      v := Wrap(v + r.step);
    }
  }

  method ParseField(raw: string, min: int, max: int) returns (field: Option<set<int>>)
    requires 0 <= min && max <= 59
    ensures var ranges := ParseTokens(Split(raw, ','), min, max);
      if ranges.None? then field.None? else field == Some(VisitedAll(ranges.value))
  {
    hide ParseToken, Visited, Split;
    var tokens, out := Split(raw, ','), {};
    ghost var ranges: seq<Range> := [];
    for n := 0 to |tokens|
      invariant |ranges| == n && Bounded(ranges, min, max)
      invariant ParseTokens(tokens[..n], min, max) == Some(ranges) && out == VisitedAll(ranges)
    {
      assert tokens[..n + 1][..n] == tokens[..n];
      var r := ParseToken(tokens[n], min, max);
      if r.None? {
        Refused(tokens, n + 1, min, max);
        return None;
      }
      out := Mark(out, r.value);
      ghost var more := ranges + [r.value];
      assert more[..n] == ranges;
      ranges := more;
    }
    assert tokens[..|tokens|] == tokens;
    return Some(out);
  }

  lemma {:induction false} Refused(tokens: seq<string>, n: nat, min: int, max: int)
    requires n <= |tokens| && ParseTokens(tokens[..n], min, max).None?
    ensures ParseTokens(tokens, min, max).None?
    decreases |tokens|
  {
    hide ParseToken;
    if n < |tokens| {
      assert tokens[..|tokens| - 1][..n] == tokens[..n];
      Refused(tokens[..|tokens| - 1], n, min, max);
    } else {
      assert tokens[..n] == tokens;
    }
  }
}
