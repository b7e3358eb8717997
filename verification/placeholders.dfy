/**
 * The `${...}` placeholders of a configuration file: a scanner that skips
 * YAML comments and matches braces, and the splice that replaces what it
 * found. A text is a sequence of bytes; the scanner only looks at ASCII ones.
 */
module Placeholders {
  import opened Options

  datatype Result<T> = Ok(value: T) | Err(error: string)

  /** `[start, end)` covers the whole placeholder, braces included. */
  datatype Span = Span(start: nat, end: nat)

  datatype Flags = Flags(comment: bool, single: bool, double: bool)

  const PLAIN := Flags(false, false, false)

  // ------------------------------------------------------------- the lexer state

  /** How one character outside any placeholder changes the state. */
  function Advance(f: Flags, c: char): Flags {
    if c == '\n' then PLAIN
    else if f == PLAIN && c == '#' then f.(comment := true)
    else if f.comment then f
    else if !f.double && c == '\'' then f.(single := !f.single)
    else if !f.single && c == '\"' then f.(double := !f.double)
    else f
  }

  function Fold(f: Flags, text: string): Flags {
    if text == "" then f else Advance(Fold(f, text[..|text| - 1]), text[|text| - 1])
  }

  predicate OpensAt(text: string, i: nat) {
    i + 1 < |text| && text[i] == '$' && text[i + 1] == '{'
  }

  // ---------------------------------------------------------------- brace depth

  function Delta(c: char): int {
    if c == '{' then 1 else if c == '}' then -1 else 0
  }

  /** How many braces opened from `from` on are open before `end`. */
  function Depth(text: string, from: nat, end: nat): int
    requires end <= |text|
    decreases end
  {
    if from >= end then 0 else Depth(text, from, end - 1) + Delta(text[end - 1])
  }

  /** `[from, end)` starts with an opening brace that its last character closes, and no earlier one does. */
  ghost predicate Balanced(text: string, from: nat, end: nat) {
    && from + 2 <= end <= |text| && text[from] == '{' && text[end - 1] == '}'
    && Depth(text, from, end) == 0
    && forall k :: from < k < end ==> Depth(text, from, k) > 0
  }

  ghost predicate StaysOpen(text: string, from: nat) {
    forall k :: from < k <= |text| ==> Depth(text, from, k) > 0
  }

  /** The closing brace found from `j` on when `depth` braces are open. */
  function CloseFrom(text: string, j: nat, depth: nat): (close: Option<nat>)
    requires depth > 0
    ensures close.Some? ==> j <= close.value < |text|
    decreases |text| - j
  {
    if j >= |text| then None
    else if text[j] == '{' then CloseFrom(text, j + 1, depth + 1)
    else if text[j] == '}' then if depth == 1 then Some(j) else CloseFrom(text, j + 1, depth - 1)
    else CloseFrom(text, j + 1, depth)
  }

  function CloseOf(text: string, i: nat): (close: Option<nat>)
    ensures close.Some? ==> i + 2 <= close.value < |text|
  {
    CloseFrom(text, i + 2, 1)
  }

  /** The search stops at the first return to depth zero, and gives up only when there is none. */
  lemma {:induction false} CloseIsFirst(text: string, from: nat, j: nat, depth: nat)
    requires from < j <= |text| && depth > 0 && Depth(text, from, j) == depth
    requires forall k :: from < k <= j ==> Depth(text, from, k) > 0
    ensures var close := CloseFrom(text, j, depth);
            if close.Some? then
              && text[close.value] == '}' && Depth(text, from, close.value + 1) == 0
              && forall k :: from < k <= close.value ==> Depth(text, from, k) > 0
            else StaysOpen(text, from)
    decreases |text| - j
  {
    if j < |text| {
      if text[j] == '{' {
        CloseIsFirst(text, from, j + 1, depth + 1);
      } else if text[j] == '}' {
        if depth > 1 {
          CloseIsFirst(text, from, j + 1, depth - 1);
        }
      } else {
        CloseIsFirst(text, from, j + 1, depth);
      }
    }
  }

  lemma CloseOfIsFirst(text: string, i: nat)
    requires OpensAt(text, i)
    ensures CloseOf(text, i).Some? ==> Balanced(text, i + 1, CloseOf(text, i).value + 1)
    ensures CloseOf(text, i).None? ==> StaysOpen(text, i + 1)
  {
    assert Depth(text, i + 1, i + 2) == 1 + Depth(text, i + 1, i + 1);
    CloseIsFirst(text, i + 1, i + 2, 1);
  }

  // ------------------------------------------------------------------- the scan

  /** The spans found from `i` on, or None when the loop would stop advancing. */
  function Scan(text: string, i: nat, f: Flags): Option<seq<Span>>
    decreases |text| - i
  {
    if i + 1 >= |text| then Some([])
    else if !f.comment && OpensAt(text, i) then
      match CloseOf(text, i)
      case None => None
      case Some(close) =>
        (match Scan(text, close + 1, f)
         case None => None
         case Some(rest) => Some([Span(i, close + 1)] + rest))
    else Scan(text, i + 1, Advance(f, text[i]))
  }

  function Spans(text: string): Option<seq<Span>> {
    Scan(text, 0, PLAIN)
  }

  /** The loop with its three flags and its brace counter; it needs every `${` it reaches to be closed. */
  method FindPlaceholders(content: string) returns (matches: seq<Span>)
    requires Spans(content).Some?
    ensures matches == Spans(content).value
  {
    matches := [];
    var i := 0;
    var inComment, inSingleQuote, inDoubleQuote := false, false, false;
    while i + 1 < |content|
      invariant i <= |content|
      invariant Scan(content, i, Flags(inComment, inSingleQuote, inDoubleQuote)).Some?
      invariant matches + Scan(content, i, Flags(inComment, inSingleQuote, inDoubleQuote)).value == Spans(content).value
      decreases |content| - i
    {
      var c := content[i];
      if c == '\n' {
        inComment, inSingleQuote, inDoubleQuote := false, false, false;
        i := i + 1;
        continue;
      }
      if !inComment && !inSingleQuote && !inDoubleQuote && c == '#' {
        inComment := true;
        i := i + 1;
        continue;
      }
      if inComment {
        i := i + 1;
        continue;
      }
      if !inDoubleQuote && c == '\'' {
        inSingleQuote := !inSingleQuote;
        i := i + 1;
        continue;
      }
      if !inSingleQuote && c == '\"' {
        inDoubleQuote := !inDoubleQuote;
        i := i + 1;
        continue;
      }
      if c == '$' && content[i + 1] == '{' {
        var close := FindClose(content, i);
        matches := matches + [Span(i, close + 1)];
        i := close + 1;
      } else {
        i := i + 1;
      }
    }
  }

  /** The inner loop: `depth` counts the open braces. */
  method FindClose(content: string, i: nat) returns (close: nat)
    requires OpensAt(content, i) && CloseOf(content, i).Some?
    ensures close == CloseOf(content, i).value
  {
    var depth: nat := 1;
    close := i + 2;
    while close < |content|
      invariant i + 2 <= close <= |content| && depth > 0
      invariant CloseFrom(content, close, depth) == CloseOf(content, i)
    {
      if content[close] == '{' {
        depth := depth + 1;
      }
      if content[close] == '}' {
        depth := depth - 1;
        if depth == 0 {
          return;
        }
      }
      close := close + 1;
    }
  }

  // --------------------------------------------------------- when the scan stops

  /** Index and flags at the head of the outer loop. */
  datatype Head = Head(i: nat, f: Flags)

  /** One iteration; an opened placeholder that never closes leaves the index where it was. */
  function Iterate(text: string, h: Head): Head {
    if h.i + 1 >= |text| then h
    else if !h.f.comment && OpensAt(text, h.i) then
      match CloseOf(text, h.i)
      case None => h
      case Some(close) => Head(close + 1, h.f)
    else Head(h.i + 1, Advance(h.f, text[h.i]))
  }

  function Iterations(text: string, h: Head, n: nat): Head
    decreases n
  {
    if n == 0 then h else Iterations(text, Iterate(text, h), n - 1)
  }

  ghost predicate NeverEnds(text: string, h: Head) {
    forall n: nat :: Iterations(text, h, n).i + 1 < |text|
  }

  lemma {:induction false} StuckStays(text: string, h: Head, n: nat)
    requires Iterate(text, h) == h
    ensures Iterations(text, h, n) == h
  {
    if n > 0 {
      StuckStays(text, h, n - 1);
    }
  }

  lemma {:induction false} ScanDecidesTermination(text: string, h: Head)
    ensures NeverEnds(text, h) <==> Scan(text, h.i, h.f) == None
    decreases |text| - h.i
  {
    if h.i + 1 >= |text| {
      assert Iterations(text, h, 0) == h;
    } else if Iterate(text, h) == h {
      forall n: nat
        ensures Iterations(text, h, n).i + 1 < |text|
      {
        StuckStays(text, h, n);
      }
    } else {
      var next := Iterate(text, h);
      ScanDecidesTermination(text, next);
      if NeverEnds(text, next) {
        forall n: nat
          ensures Iterations(text, h, n).i + 1 < |text|
        {
          if n > 0 {
            assert Iterations(text, h, n) == Iterations(text, next, n - 1);
          }
        }
      } else {
        var n: nat :| Iterations(text, next, n).i + 1 >= |text|;
        assert Iterations(text, h, n + 1) == Iterations(text, next, n);
      }
    }
  }

  ghost predicate ReachesUnclosed(text: string, h: Head) {
    exists n: nat :: var g := Iterations(text, h, n);
                     OpensAt(text, g.i) && !g.f.comment && CloseOf(text, g.i) == None
  }

  lemma {:induction false} UnclosedIsReached(text: string, h: Head)
    ensures ReachesUnclosed(text, h) <==> Scan(text, h.i, h.f) == None
    decreases |text| - h.i
  {
    var next := Iterate(text, h);
    assert Iterations(text, h, 0) == h;
    if next == h {
      forall n: nat
        ensures Iterations(text, h, n) == h
      {
        StuckStays(text, h, n);
      }
    } else {
      UnclosedIsReached(text, next);
      if ReachesUnclosed(text, next) {
        var n: nat :| var g := Iterations(text, next, n);
                      OpensAt(text, g.i) && !g.f.comment && CloseOf(text, g.i) == None;
        assert Iterations(text, h, n + 1) == Iterations(text, next, n);
      }
      if ReachesUnclosed(text, h) {
        var n: nat :| var g := Iterations(text, h, n);
                      OpensAt(text, g.i) && !g.f.comment && CloseOf(text, g.i) == None;
        if n > 0 {
          assert Iterations(text, h, n) == Iterations(text, next, n - 1);
        }
      }
    }
  }

  /** The scanner runs forever exactly when it reaches a `${`, outside comments, that nothing closes. */
  lemma LoopsForeverExactlyWhenUnclosed(text: string)
    ensures NeverEnds(text, Head(0, PLAIN)) <==> ReachesUnclosed(text, Head(0, PLAIN))
    ensures Spans(text).Some? <==> !ReachesUnclosed(text, Head(0, PLAIN))
  {
    ScanDecidesTermination(text, Head(0, PLAIN));
    UnclosedIsReached(text, Head(0, PLAIN));
  }

  /** A guard on the text alone: it is enough that every `${` anywhere has a closing brace. */
  lemma {:induction false} ClosedTextIsScanned(text: string, i: nat, f: Flags)
    requires forall p :: OpensAt(text, p) ==> CloseOf(text, p).Some?
    ensures Scan(text, i, f).Some?
    decreases |text| - i
  {
    if i + 1 < |text| {
      if !f.comment && OpensAt(text, i) {
        ClosedTextIsScanned(text, CloseOf(text, i).value + 1, f);
      } else {
        ClosedTextIsScanned(text, i + 1, Advance(f, text[i]));
      }
    }
  }

  /** Two characters are enough: the scanner never returns on this text. */
  lemma OpenerAloneLoopsForever()
    ensures Spans("${") == None && NeverEnds("${", Head(0, PLAIN))
  {
    assert CloseOf("${", 0) == None;
    ScanDecidesTermination("${", Head(0, PLAIN));
  }

  // -------------------------------------------------------- what the spans are

  /** In bounds from `i` on, increasing and disjoint. */
  ghost predicate InOrder(text: string, spans: seq<Span>, i: nat) {
    && (forall k :: 0 <= k < |spans| ==> i <= spans[k].start && spans[k].start + 3 <= spans[k].end <= |text|)
    && (forall j, k :: 0 <= j < k < |spans| ==> spans[j].end <= spans[k].start)
  }

  /** A dollar sign and one balanced pair of braces. */
  ghost predicate IsPlaceholder(text: string, span: Span) {
    && span.start + 3 <= span.end <= |text|
    && text[span.start] == '$' && Balanced(text, span.start + 1, span.end)
  }

  predicate Inside(spans: seq<Span>, p: nat) {
    exists k :: 0 <= k < |spans| && spans[k].start <= p < spans[k].end
  }

  /** The text between `i` and `p` with the spans cut out. */
  function CutOut(text: string, spans: seq<Span>, i: nat, p: nat): string
    requires p <= |text|
    decreases p - i
  {
    if i >= p then ""
    else CutOut(text, spans, i, p - 1) + if Inside(spans, p - 1) then "" else [text[p - 1]]
  }

  /** Whether `p` lies in a comment of the text that remains when the placeholders are cut out. */
  predicate InComment(text: string, spans: seq<Span>, p: nat)
    requires p <= |text|
  {
    Fold(PLAIN, CutOut(text, spans, 0, p)).comment
  }

  lemma {:induction false} ScanIsInOrder(text: string, i: nat, f: Flags)
    requires Scan(text, i, f).Some?
    ensures InOrder(text, Scan(text, i, f).value, i)
    ensures forall span :: span in Scan(text, i, f).value ==> IsPlaceholder(text, span)
    decreases |text| - i
  {
    if i + 1 < |text| {
      if !f.comment && OpensAt(text, i) {
        CloseOfIsFirst(text, i);
        ScanIsInOrder(text, CloseOf(text, i).value + 1, f);
      } else {
        ScanIsInOrder(text, i + 1, Advance(f, text[i]));
      }
    }
  }

  /** The spans are in bounds, increasing, disjoint, and each one is a brace-balanced placeholder. */
  lemma SpansAreDisjointPlaceholders(text: string)
    requires Spans(text).Some?
    ensures InOrder(text, Spans(text).value, 0)
    ensures forall span :: span in Spans(text).value ==> IsPlaceholder(text, span)
  {
    ScanIsInOrder(text, 0, PLAIN);
  }

  // --------------------------------------------- placeholders and comments

  /** The scan at `i` has found `done` and stands outside of it, with the flags of the text cut so far. */
  ghost predicate Halfway(text: string, done: seq<Span>, i: nat, f: Flags) {
    && i <= |text|
    && (forall k :: 0 <= k < |done| ==> done[k].start < done[k].end <= i)
    && Fold(PLAIN, CutOut(text, done, 0, i)) == f
  }

  lemma InsideGrows(spans: seq<Span>, span: Span, p: nat)
    ensures Inside(spans + [span], p) <==> Inside(spans, p) || span.start <= p < span.end
  {
    var more := spans + [span];
    if Inside(spans, p) {
      var k :| 0 <= k < |spans| && spans[k].start <= p < spans[k].end;
      assert more[k] == spans[k];
    }
    if span.start <= p < span.end {
      assert more[|spans|] == span;
    }
  }

  /** Cutting up to `p` does not depend on spans that start at `p` or later. */
  lemma {:induction false} LaterSpansDoNotMatter(text: string, spans: seq<Span>, span: Span, p: nat)
    requires p <= span.start && p <= |text|
    ensures CutOut(text, spans + [span], 0, p) == CutOut(text, spans, 0, p)
  {
    if p > 0 {
      LaterSpansDoNotMatter(text, spans, span, p - 1);
      InsideGrows(spans, span, p - 1);
    }
  }

  /** A whole span adds nothing to the cut text. */
  lemma {:induction false} SpanIsCut(text: string, spans: seq<Span>, span: Span, p: nat)
    requires span.start <= p <= span.end <= |text|
    ensures CutOut(text, spans + [span], 0, p) == CutOut(text, spans, 0, span.start)
  {
    if p == span.start {
      LaterSpansDoNotMatter(text, spans, span, p);
    } else {
      SpanIsCut(text, spans, span, p - 1);
      InsideGrows(spans, span, p - 1);
      assert CutOut(text, spans + [span], 0, p) == CutOut(text, spans + [span], 0, p - 1) + "";
    }
  }

  lemma CutOneMore(text: string, done: seq<Span>, i: nat, f: Flags)
    requires Halfway(text, done, i, f) && i < |text|
    ensures Halfway(text, done, i + 1, Advance(f, text[i]))
  {
    assert !Inside(done, i);
    var cut := CutOut(text, done, 0, i);
    assert (cut + [text[i]])[..|cut|] == cut;
  }

  lemma CutOneSpan(text: string, done: seq<Span>, i: nat, f: Flags, span: Span)
    requires Halfway(text, done, i, f) && span.start == i < span.end <= |text|
    ensures Halfway(text, done + [span], span.end, f)
  {
    SpanIsCut(text, done, span, span.end);
  }

  /** Cutting up to `p` only depends on the spans that start before `p`. */
  lemma {:induction false} CutOfPrefix(text: string, done: seq<Span>, rest: seq<Span>, p: nat)
    requires p <= |text| && forall k :: 0 <= k < |rest| ==> p <= rest[k].start
    ensures CutOut(text, done + rest, 0, p) == CutOut(text, done, 0, p)
    decreases |rest|
  {
    if rest == [] {
      assert done + rest == done;
    } else {
      var front, last := rest[..|rest| - 1], rest[|rest| - 1];
      CutOfPrefix(text, done, front, p);
      assert done + rest == (done + front) + [last];
      LaterSpansDoNotMatter(text, done + front, last, p);
    }
  }

  /** The comment verdict at the scan's position is final: later spans do not change it. */
  lemma CommentIsFinal(text: string, done: seq<Span>, i: nat, f: Flags)
    requires Halfway(text, done, i, f) && Scan(text, i, f).Some?
    ensures var spans := done + Scan(text, i, f).value; InComment(text, spans, i) == f.comment
  {
    ScanIsInOrder(text, i, f);
    CutOfPrefix(text, done, Scan(text, i, f).value, i);
  }

  /** What the scan still has to say about positions from `i` on. */
  ghost predicate Faithful(text: string, spans: seq<Span>, i: nat) {
    && (forall k :: 0 <= k < |spans| && i <= spans[k].start < |text| ==> !InComment(text, spans, spans[k].start))
    && (forall p :: i <= p && OpensAt(text, p) && !Inside(spans, p) ==> InComment(text, spans, p))
  }

  lemma {:induction false} ScanIsFaithful(text: string, done: seq<Span>, i: nat, f: Flags)
    requires Halfway(text, done, i, f) && Scan(text, i, f).Some?
    ensures Faithful(text, done + Scan(text, i, f).value, i)
    decreases |text| - i
  {
    hide CutOut;
    hide Fold;
    hide Balanced;
    hide CloseFrom;
    var rest := Scan(text, i, f).value;
    var spans := done + rest;
    if i + 1 < |text| {
      CommentIsFinal(text, done, i, f);
      if !f.comment && OpensAt(text, i) {
        var span := Span(i, CloseOf(text, i).value + 1);
        CutOneSpan(text, done, i, f, span);
        assert spans == (done + [span]) + rest[1..];
        ScanIsFaithful(text, done + [span], span.end, f);
        ScanIsInOrder(text, span.end, f);
        FaithfulFromSpan(text, spans, |done|);
      } else {
        CutOneMore(text, done, i, f);
        ScanIsFaithful(text, done, i + 1, Advance(f, text[i]));
        ScanIsInOrder(text, i + 1, Advance(f, text[i]));
        assert forall k :: 0 <= k < |spans| ==> spans[k].start != i || spans[k].end <= i;
      }
    } else {
      assert spans == done;
    }
  }

  lemma FaithfulFromSpan(text: string, spans: seq<Span>, at: nat)
    requires at < |spans| && spans[at].start < spans[at].end
    requires forall k :: 0 <= k < at ==> spans[k].start < spans[at].start
    requires forall k :: at < k < |spans| ==> spans[k].start >= spans[at].end
    requires spans[at].start < |text| ==> !InComment(text, spans, spans[at].start)
    requires Faithful(text, spans, spans[at].end)
    ensures Faithful(text, spans, spans[at].start)
  {
    hide InComment;
  }

  /** A span never starts in a comment, and a `${` that is in no span is in a comment. */
  lemma SpansAreExactlyTheUncommentedOnes(text: string)
    requires Spans(text).Some?
    ensures Faithful(text, Spans(text).value, 0)
  {
    assert CutOut(text, [], 0, 0) == "";
    ScanIsFaithful(text, [], 0, PLAIN);
    assert [] + Spans(text).value == Spans(text).value;
  }

  // ------------------------------------------- what a comment is, by position

  /** The first position from `i` on that holds one of the characters, or the length. */
  function Next(s: string, i: nat, chars: set<char>): (j: nat)
    requires i <= |s|
    ensures i <= j <= |s|
    ensures j < |s| ==> s[j] in chars
    ensures forall k :: i <= k < j ==> s[k] !in chars
    decreases |s| - i
  {
    if i == |s| || s[i] in chars then i else Next(s, i + 1, chars)
  }

  /** Every quote that opens is closed by the next one of its own kind; the other kind in between is text. */
  predicate QuotesClosed(s: string)
    decreases |s|
  {
    var open := Next(s, 0, {'\'', '\"'});
    open == |s| ||
    (var close := Next(s, open + 1, {s[open]});
     close < |s| && QuotesClosed(s[close + 1..]))
  }

  /** The part of the text behind its last line break. */
  function LastLine(s: string): (line: string)
    ensures '\n' !in line
  {
    if s == "" || s[|s| - 1] == '\n' then "" else LastLine(s[..|s| - 1]) + [s[|s| - 1]]
  }

  /** The line holds a `#` with every quote before it closed. */
  predicate HoldsComment(line: string) {
    exists k :: 0 <= k < |line| && line[k] == '#' && QuotesClosed(line[..k])
  }

  /** Whether `p` lies in a comment, read off its own line with the spans cut out. */
  predicate Commented(text: string, spans: seq<Span>, p: nat)
    requires p <= |text|
  {
    HoldsComment(LastLine(CutOut(text, spans, 0, p)))
  }

  lemma {:induction false} FoldConcat(f: Flags, a: string, b: string)
    ensures Fold(f, a + b) == Fold(Fold(f, a), b)
  {
    if b == "" {
      assert a + b == a;
    } else {
      FoldConcat(f, a, b[..|b| - 1]);
      assert (a + b)[..|a + b| - 1] == a + b[..|b| - 1];
    }
  }

  lemma FoldSplit(f: Flags, s: string, n: nat)
    requires n <= |s|
    ensures Fold(f, s) == Fold(Fold(f, s[..n]), s[n..])
  {
    FoldConcat(f, s[..n], s[n..]);
    assert s[..n] + s[n..] == s;
  }

  lemma FoldNext(f: Flags, s: string, n: nat)
    requires n < |s|
    ensures Fold(f, s[..n + 1]) == Advance(Fold(f, s[..n]), s[n])
  {
    assert s[..n + 1][..n] == s[..n];
  }

  /** Without a line break a comment lasts. */
  lemma {:induction false} CommentsLast(f: Flags, s: string)
    requires f.comment && '\n' !in s
    ensures Fold(f, s).comment
  {
    if s != "" { CommentsLast(f, s[..|s| - 1]); }
  }

  /** A stretch without quotes, line breaks and (outside quotes) `#` leaves the state alone. */
  lemma {:induction false} QuietStretch(f: Flags, s: string)
    requires !f.comment && (f == PLAIN || f.single != f.double)
    requires forall k :: 0 <= k < |s| ==> s[k] != '\n'
    requires f == PLAIN ==> forall k :: 0 <= k < |s| ==> s[k] !in {'\'', '\"', '#'}
    requires f.single ==> forall k :: 0 <= k < |s| ==> s[k] != '\''
    requires f.double ==> forall k :: 0 <= k < |s| ==> s[k] != '\"'
    ensures Fold(f, s) == f
  {
    if s != "" { QuietStretch(f, s[..|s| - 1]); }
  }

  /** A `#` met outside quotes starts a comment. */
  lemma HashStartsComment(s: string, hash: nat)
    requires hash < |s| && s[hash] == '#' && '\n' !in s && Fold(PLAIN, s[..hash]) == PLAIN
    ensures Fold(PLAIN, s).comment
  {
    FoldNext(PLAIN, s, hash);
    CommentsLast(Fold(PLAIN, s[..hash + 1]), s[hash + 1..]);
    FoldSplit(PLAIN, s, hash + 1);
  }

  /** A plain stretch up to the first quote, when no comment starts. */
  lemma PlainStretch(s: string, n: nat)
    requires n <= |s| && '\n' !in s && !Fold(PLAIN, s).comment
    requires forall k :: 0 <= k < n ==> s[k] !in {'\'', '\"'}
    ensures Fold(PLAIN, s[..n]) == PLAIN
  {
    hide Fold;
    var hash := Next(s[..n], 0, {'#'});
    assert s[..n][..hash] == s[..hash];
    QuietStretch(PLAIN, s[..hash]);
    if hash < n {
      HashStartsComment(s, hash);
    }
  }

  /** From one quote to the next of its kind, or to the end. */
  lemma QuotedStretch(s: string, open: nat)
    requires open < |s| && '\n' !in s && s[open] in {'\'', '\"'} && Fold(PLAIN, s[..open]) == PLAIN
    ensures var close := Next(s, open + 1, {s[open]});
            if close < |s| then Fold(PLAIN, s[..close + 1]) == PLAIN else Fold(PLAIN, s) != PLAIN
  {
    hide Fold;
    var close, inside := Next(s, open + 1, {s[open]}), Advance(PLAIN, s[open]);
    FoldNext(PLAIN, s, open);
    QuietStretch(inside, s[open + 1..close]);
    FoldSplit(PLAIN, s[..close], open + 1);
    assert s[..close][..open + 1] == s[..open + 1] && s[..close][open + 1..] == s[open + 1..close];
    if close < |s| {
      FoldNext(PLAIN, s, close);
    } else {
      assert s[..close] == s;
    }
  }

  /** On a line where no comment has started, the lexer stands outside quotes exactly when they are all closed. */
  lemma {:induction false} PlainExactlyWhenClosed(s: string)
    requires '\n' !in s && !Fold(PLAIN, s).comment
    ensures Fold(PLAIN, s) == PLAIN <==> QuotesClosed(s)
    decreases |s|
  {
    hide Fold, Advance;
    var open := Next(s, 0, {'\'', '\"'});
    PlainStretch(s, open);
    if open == |s| {
      assert s[..open] == s;
    } else {
      QuotedStretch(s, open);
      var close := Next(s, open + 1, {s[open]});
      if close < |s| {
        FoldSplit(PLAIN, s, close + 1);
        PlainExactlyWhenClosed(s[close + 1..]);
      }
    }
  }

  /** A line one character longer holds a comment if it did before, or if a `#` comes with all quotes closed. */
  lemma HeldByOneMore(line: string)
    requires line != ""
    ensures var n := |line| - 1;
            HoldsComment(line) <==> HoldsComment(line[..n]) || (line[n] == '#' && QuotesClosed(line[..n]))
  {
    hide QuotesClosed;
    var n := |line| - 1;
    forall k | 0 <= k < n ensures line[..n][..k] == line[..k] {}
    if HoldsComment(line[..n]) {
      var k :| 0 <= k < n && line[..n][k] == '#' && QuotesClosed(line[..n][..k]);
      assert line[k] == '#' && QuotesClosed(line[..k]);
    }
    if HoldsComment(line) {
      var k :| 0 <= k < |line| && line[k] == '#' && QuotesClosed(line[..k]);
      assert k < n ==> line[..n][k] == '#' && QuotesClosed(line[..n][..k]);
    }
  }

  lemma {:induction false} CommentExactlyWhenHeld(line: string)
    requires '\n' !in line
    ensures Fold(PLAIN, line).comment <==> HoldsComment(line)
  {
    if line != "" {
      var n := |line| - 1;
      CommentExactlyWhenHeld(line[..n]);
      HeldByOneMore(line);
      hide HoldsComment;
      if !Fold(PLAIN, line[..n]).comment { PlainExactlyWhenClosed(line[..n]); }
    }
  }

  lemma {:induction false} OnlyTheLastLineCounts(s: string)
    ensures Fold(PLAIN, s) == Fold(PLAIN, LastLine(s))
  {
    if s != "" && s[|s| - 1] != '\n' {
      OnlyTheLastLineCounts(s[..|s| - 1]);
      var line := LastLine(s[..|s| - 1]);
      assert (line + [s[|s| - 1]])[..|line|] == line;
    }
  }

  /** The lexer's verdict is the one by position. */
  lemma InCommentIsCommented(text: string, spans: seq<Span>, p: nat)
    requires p <= |text|
    ensures InComment(text, spans, p) <==> Commented(text, spans, p)
  {
    var cut := CutOut(text, spans, 0, p);
    OnlyTheLastLineCounts(cut);
    CommentExactlyWhenHeld(LastLine(cut));
  }

  /** Main result: a span never starts in a comment, and every `${` outside the spans stands in one; a
      comment is a `#` earlier on the line, the placeholders cut out, with all quotes before it closed. */
  lemma PlaceholdersAreExactlyTheUncommented(text: string)
    requires Spans(text).Some?
    ensures var spans := Spans(text).value;
            && (forall span :: span in spans ==> span.start < |text| && !Commented(text, spans, span.start))
            && (forall p: nat :: p + 1 < |text| && text[p] == '$' && text[p + 1] == '{' && !Inside(spans, p) ==>
                  Commented(text, spans, p))
  {
    var spans := Spans(text).value;
    SpansAreExactlyTheUncommentedOnes(text);
    SpansAreDisjointPlaceholders(text);
    hide InComment;
    hide Commented;
    forall span | span in spans ensures span.start < |text| && !Commented(text, spans, span.start) {
      var k :| 0 <= k < |spans| && spans[k] == span;
      InCommentIsCommented(text, spans, span.start);
    }
    forall p: nat | p + 1 < |text| && text[p] == '$' && text[p + 1] == '{' && !Inside(spans, p)
      ensures Commented(text, spans, p)
    {
      InCommentIsCommented(text, spans, p);
      assert OpensAt(text, p);
    }
  }

  /** A `#` in quotes of either kind hides nothing; one outside hides the rest of its line. */
  lemma HashInQuotesHidesNothing()
    ensures Spans("\"#${X}\"") == Some([Span(2, 6)])
    ensures Spans("'#${X}'") == Some([Span(2, 6)])
    ensures Spans("# ${X}") == Some([])
    ensures Spans("#\n${X}") == Some([Span(2, 6)])
  {
    OneSpan("\"#${X}\"");
    OneSpan("'#${X}'");
    OneSpan("#\n${X}");
    var t, f := "# ${X}", Flags(true, false, false);
    assert Scan(t, 5, f) == Some([]);
    assert Scan(t, 4, f) == Some([]);
    assert Scan(t, 3, f) == Some([]);
    assert Scan(t, 2, f) == Some([]);
    assert Scan(t, 1, f) == Some([]);
  }

  lemma OneSpan(t: string)
    requires 6 <= |t| <= 7 && t[2..6] == "${X}" && !Advance(Advance(PLAIN, t[0]), t[1]).comment
    requires !OpensAt(t, 0) && !OpensAt(t, 1)
    ensures Spans(t) == Some([Span(2, 6)])
  {
    var f := Advance(Advance(PLAIN, t[0]), t[1]);
    assert t[2] == t[2..6][0] == '$' && t[3] == t[2..6][1] == '{' && t[4] == t[2..6][2] == 'X' && t[5] == t[2..6][3] == '}';
    assert CloseFrom(t, 5, 1) == Some(5);
    assert CloseOf(t, 2) == Some(5);
    hide CloseOf;
    assert Scan(t, 6, f) == Some([]);
    assert [Span(2, 6)] + [] == [Span(2, 6)];
    assert OpensAt(t, 2);
    assert Scan(t, 2, f) == Some([Span(2, 6)]);
    assert Scan(t, 1, Advance(PLAIN, t[0])) == Scan(t, 2, f);
  }

  // ------------------------------------------------------------------ the splice

  /** What the lookup is given: what stands between the `${` and its closing brace. */
  function Inner(text: string, span: Span): (inner: string)
    requires span.start + 3 <= span.end <= |text|
    ensures text[span.start] == '$' && text[span.start + 1] == '{' && text[span.end - 1] == '}' ==>
              text[span.start..span.end] == "${" + inner + "}"
  {
    text[span.start + 2..span.end - 1]
  }

  function Prefixed(front: string, r: Result<string>): Result<string> {
    if r.Ok? then Ok(front + r.value) else r
  }

  /** The text from `last` on with the given spans replaced; the first failing one decides the error. */
  function Resolved(text: string, spans: seq<Span>, last: nat, resolveOne: string -> Result<string>): Result<string>
    requires InOrder(text, spans, last) && last <= |text|
    decreases |spans|
  {
    if spans == [] then Ok(text[last..])
    else
      match resolveOne(Inner(text, spans[0]))
      case Err(error) => Err(error)
      case Ok(value) =>
        Prefixed(text[last..spans[0].start] + value, Resolved(text, spans[1..], spans[0].end, resolveOne))
  }

  lemma ResolvedOneMore(text: string, spans: seq<Span>, k: nat, last: nat, result: string,
                        resolveOne: string -> Result<string>)
    requires k < |spans| && last <= |text| && InOrder(text, spans[k..], last)
    ensures last <= spans[k].start && spans[k].start + 3 <= spans[k].end <= |text|
    ensures InOrder(text, spans[k + 1..], spans[k].end)
    ensures var rest := Resolved(text, spans[k..], last, resolveOne);
            match resolveOne(Inner(text, spans[k]))
            case Err(error) => rest == Err(error)
            case Ok(value) =>
              Prefixed(result, rest) == Prefixed(result + text[last..spans[k].start] + value,
                                                 Resolved(text, spans[k + 1..], spans[k].end, resolveOne))
  {
    var rest := spans[k..];
    assert rest[0] == spans[k] && rest[1..] == spans[k + 1..];
    assert InOrder(text, rest[1..], rest[0].end);
    var after := Resolved(text, rest[1..], rest[0].end, resolveOne);
    if after.Ok? && resolveOne(Inner(text, spans[k])).Ok? {
      var gap, value := text[last..spans[k].start], resolveOne(Inner(text, spans[k])).value;
      assert result + (gap + value + after.value) == result + gap + value + after.value;
    }
  }

  /** `resolveOne` stands for the environment and secret files: any function of the text in the braces. */
  method ResolvePlaceholders(content: string, resolveOne: string -> Result<string>) returns (r: Result<string>)
    requires Spans(content).Some?
    ensures InOrder(content, Spans(content).value, 0)
    ensures r == Resolved(content, Spans(content).value, 0, resolveOne)
  {
    SpansAreDisjointPlaceholders(content);
    hide InOrder;
    hide Inner;
    var result, last: nat := "", 0;
    var matches := FindPlaceholders(content);
    ghost var whole := Resolved(content, matches, 0, resolveOne);
    assert matches[0..] == matches && (whole.Ok? ==> "" + whole.value == whole.value);
    for k := 0 to |matches|
      invariant last <= |content| && InOrder(content, matches[k..], last)
      invariant Prefixed(result, Resolved(content, matches[k..], last, resolveOne)) == whole
    {
      ResolvedOneMore(content, matches, k, last, result, resolveOne);
      result := result + content[last..matches[k].start];
      var value := resolveOne(Inner(content, matches[k]));
      if value.Err? {
        return Err(value.error);
      }
      result := result + value.value;
      last := matches[k].end;
    }
    result := result + content[last..];
    return Ok(result);
  }

  /** The pieces of text around the spans, from `last` on: one more than there are spans. */
  function Around(text: string, spans: seq<Span>, last: nat): (pieces: seq<string>)
    requires InOrder(text, spans, last) && last <= |text|
    ensures |pieces| == |spans| + 1
    decreases |spans|
  {
    if spans == [] then [text[last..]]
    else [text[last..spans[0].start]] + Around(text, spans[1..], spans[0].end)
  }

  /** Pieces and fillings in turn. */
  function Weave(pieces: seq<string>, fillings: seq<string>): string
    requires |pieces| == |fillings| + 1
    decreases |fillings|
  {
    if fillings == [] then pieces[0] else pieces[0] + fillings[0] + Weave(pieces[1..], fillings[1..])
  }

  function Originals(text: string, spans: seq<Span>): seq<string>
    requires forall k :: 0 <= k < |spans| ==> spans[k].start <= spans[k].end <= |text|
  {
    seq(|spans|, k requires 0 <= k < |spans| => text[spans[k].start..spans[k].end])
  }

  /** What each span resolves to, when all of them do. */
  ghost predicate AllResolve(text: string, spans: seq<Span>, values: seq<string>, resolveOne: string -> Result<string>)
    requires forall k :: 0 <= k < |spans| ==> spans[k].start + 3 <= spans[k].end <= |text|
  {
    && |values| == |spans|
    && forall k :: 0 <= k < |spans| ==> resolveOne(Inner(text, spans[k])) == Ok(values[k])
  }

  lemma ThreePieces(text: string, last: nat, span: Span)
    requires last <= span.start <= span.end <= |text|
    ensures text[last..] == text[last..span.start] + text[span.start..span.end] + text[span.end..]
  {
  }

  lemma {:induction false} WeavingBack(text: string, spans: seq<Span>, last: nat)
    requires InOrder(text, spans, last) && last <= |text|
    ensures Weave(Around(text, spans, last), Originals(text, spans)) == text[last..]
    decreases |spans|
  {
    if spans != [] {
      var pieces, originals := Around(text, spans, last), Originals(text, spans);
      WeavingBack(text, spans[1..], spans[0].end);
      assert pieces[1..] == Around(text, spans[1..], spans[0].end);
      assert originals[1..] == Originals(text, spans[1..]);
      ThreePieces(text, last, spans[0]);
    }
  }

  lemma {:induction false} WeavingValues(text: string, spans: seq<Span>, last: nat, values: seq<string>,
                                         resolveOne: string -> Result<string>)
    requires InOrder(text, spans, last) && last <= |text|
    requires AllResolve(text, spans, values, resolveOne)
    ensures Resolved(text, spans, last, resolveOne) == Ok(Weave(Around(text, spans, last), values))
    decreases |spans|
  {
    if spans != [] {
      var pieces := Around(text, spans, last);
      assert resolveOne(Inner(text, spans[0])) == Ok(values[0]);
      WeavingValues(text, spans[1..], spans[0].end, values[1..], resolveOne);
      assert pieces[1..] == Around(text, spans[1..], spans[0].end);
    }
  }

  /** The result is the input with each span's text, and nothing else, exchanged for its value. */
  lemma ResolveReplacesExactlyTheSpans(text: string, values: seq<string>, resolveOne: string -> Result<string>)
    requires Spans(text).Some? && InOrder(text, Spans(text).value, 0)
    requires AllResolve(text, Spans(text).value, values, resolveOne)
    ensures var spans := Spans(text).value;
            var pieces := Around(text, spans, 0);
            && Weave(pieces, Originals(text, spans)) == text
            && Resolved(text, spans, 0, resolveOne) == Ok(Weave(pieces, values))
  {
    WeavingBack(text, Spans(text).value, 0);
    WeavingValues(text, Spans(text).value, 0, values, resolveOne);
    assert text[0..] == text;
  }

  /** It fails exactly when some span cannot be resolved, with the error of the first such span. */
  lemma {:induction false} ResolveFailsAtTheFirst(text: string, spans: seq<Span>, last: nat,
                                                  resolveOne: string -> Result<string>)
    requires InOrder(text, spans, last) && last <= |text|
    ensures Resolved(text, spans, last, resolveOne).Err? <==>
            exists k :: 0 <= k < |spans| && resolveOne(Inner(text, spans[k])).Err?
    ensures forall k :: 0 <= k < |spans| && resolveOne(Inner(text, spans[k])).Err?
                        && (forall j :: 0 <= j < k ==> resolveOne(Inner(text, spans[j])).Ok?) ==>
              Resolved(text, spans, last, resolveOne) == Err(resolveOne(Inner(text, spans[k])).error)
    decreases |spans|
  {
    if spans != [] && resolveOne(Inner(text, spans[0])).Ok? {
      var rest := spans[1..];
      ResolveFailsAtTheFirst(text, rest, spans[0].end, resolveOne);
      assert forall k :: 0 <= k < |rest| ==> rest[k] == spans[k + 1];
      forall k | 0 <= k < |spans| && resolveOne(Inner(text, spans[k])).Err?
                 && (forall j :: 0 <= j < k ==> resolveOne(Inner(text, spans[j])).Ok?)
        ensures Resolved(text, spans, last, resolveOne) == Err(resolveOne(Inner(text, spans[k])).error)
      {
        assert rest[k - 1] == spans[k];
      }
    }
  }
}
