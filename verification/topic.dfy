/**
 * Topic patterns and subjects: dotted strings whose tokens may be the
 * wildcards `*` (exactly one segment) and `>` (one or more remaining ones).
 *
 * The matcher is modelled as it is written, over tokens. The lemmas then say
 * what it accepts without recursion, and decide exactly when a pattern that
 * matches another pattern also matches everything the other one does.
 */
module Topic {

  const STAR: string := "*"
  const REST: string := ">"

  // ---------------------------------------------------------------- splitting

  function Split(s: string): (parts: seq<string>)
    ensures |parts| >= 1
  {
    if s == "" then [""]
    else
      var rest := Split(s[1..]);
      if s[0] == '.' then [""] + rest else [[s[0]] + rest[0]] + rest[1..]
  }

  function Join(parts: seq<string>): string
    requires |parts| >= 1
  {
    if |parts| == 1 then parts[0] else parts[0] + "." + Join(parts[1..])
  }

  lemma {:induction false} SegmentsHoldNoDot(s: string)
    ensures forall part :: part in Split(s) ==> '.' !in part
  {
    if s != "" {
      SegmentsHoldNoDot(s[1..]);
      assert Split(s[1..])[0] in Split(s[1..]);
    }
  }

  lemma {:induction false} JoinOfSplit(s: string)
    ensures Join(Split(s)) == s
  {
    if s != "" {
      var rest := Split(s[1..]);
      JoinOfSplit(s[1..]);
      if s[0] == '.' {
        assert ([""] + rest)[1..] == rest;
      } else {
        var parts := [[s[0]] + rest[0]] + rest[1..];
        assert parts[1..] == rest[1..];
        assert Join(parts) == [s[0]] + Join(rest);
      }
      assert s == [s[0]] + s[1..];
    }
  }

  lemma {:induction false} SplitOfToken(token: string, tail: string)
    requires '.' !in token
    ensures Split(token) == [token]
    ensures Split(token + "." + tail) == [token] + Split(tail)
  {
    if token == "" {
      assert (token + "." + tail)[1..] == tail;
    } else {
      SplitOfToken(token[1..], tail);
      assert (token + "." + tail)[1..] == token[1..] + "." + tail;
      assert [token[0]] + token[1..] == token;
    }
  }

  lemma {:induction false} SplitOfJoin(parts: seq<string>)
    requires |parts| >= 1
    requires forall part :: part in parts ==> '.' !in part
    ensures Split(Join(parts)) == parts
  {
    assert parts[0] in parts;
    if |parts| == 1 {
      SplitOfToken(parts[0], "");
    } else {
      SplitOfToken(parts[0], Join(parts[1..]));
      SplitOfJoin(parts[1..]);
      assert parts == [parts[0]] + parts[1..];
    }
  }

  // ----------------------------------------------------------------- matching

  predicate IsValidTopic(s: string) {
    s != "" && "" !in Split(s)
  }

  predicate MatchParts(pattern: seq<string>, subject: seq<string>) {
    if pattern == [] then subject == []
    else if pattern[0] == REST then subject != []
    else if subject == [] then false
    else if pattern[0] == STAR || pattern[0] == subject[0] then MatchParts(pattern[1..], subject[1..])
    else false
  }

  predicate TopicMatches(pattern: string, subject: string) {
    && IsValidTopic(pattern)
    && IsValidTopic(subject)
    && MatchParts(Split(pattern), Split(subject))
  }

  /** What is refused: the empty text, a leading or trailing dot, and two dots in a row. */
  lemma {:induction false} ValidMeans(s: string)
    ensures IsValidTopic(s) <==>
      && s != "" && s[0] != '.' && s[|s| - 1] != '.'
      && forall i :: 0 <= i < |s| - 1 ==> !(s[i] == '.' && s[i + 1] == '.')
  {
    EmptySegmentMeans(s);
  }

  /** An empty segment shows as a dot at an end, two in a row, or nothing at all. */
  lemma {:induction false} EmptySegmentMeans(s: string)
    ensures Split(s)[0] == "" <==> s == "" || s[0] == '.'
    ensures "" in Split(s) <==>
      s == "" || s[0] == '.' || s[|s| - 1] == '.' || exists i :: 0 <= i < |s| - 1 && s[i] == '.' && s[i + 1] == '.'
  {
    if s != "" {
      var tail, rest := s[1..], Split(s[1..]);
      EmptySegmentMeans(tail);
      if s[0] == '.' {
        assert Split(s)[0] == "";
      } else {
        assert "" in Split(s) <==> "" in rest[1..];
        EmptyBehindHead(s, rest);
      }
    }
  }

  lemma EmptyBehindHead(s: string, rest: seq<string>)
    requires s != "" && s[0] != '.' && rest == Split(s[1..])
    requires rest[0] == "" <==> s[1..] == "" || s[1] == '.'
    requires "" in rest <==>
      s[1..] == "" || s[1] == '.' || s[|s| - 1] == '.' || exists i :: 0 <= i < |s[1..]| - 1 && s[1..][i] == '.' && s[1..][i + 1] == '.'
    ensures "" in rest[1..] <==>
      s[|s| - 1] == '.' || exists i :: 0 <= i < |s| - 1 && s[i] == '.' && s[i + 1] == '.'
  {
    var tail := s[1..];
    if tail == "" {
      assert rest == [""];
    } else {
      assert tail[0] == s[1];
      if s[1] == '.' {
        EmptySegmentMeans(tail[1..]);
        assert rest == [""] + Split(tail[1..]);
        assert rest[1..] == Split(tail[1..]);
      }
    }
  }

  // ------------------------------------------------------- what a match means

  /** The position of the first `>` in a pattern, or its length. */
  function FirstRest(parts: seq<string>): (k: nat)
    ensures k <= |parts|
    ensures k < |parts| ==> parts[k] == ">"
    ensures forall i :: 0 <= i < k ==> parts[i] != ">"
  {
    if parts == [] || parts[0] == ">" then 0 else 1 + FirstRest(parts[1..])
  }

  /** The first `k` segments agree position by position. */
  predicate Agree(pattern: seq<string>, subject: seq<string>, k: nat)
    requires k <= |pattern| && k <= |subject|
  {
    forall i :: 0 <= i < k ==> pattern[i] == "*" || pattern[i] == subject[i]
  }

  /** What the matcher accepts, said without recursion. */
  predicate Accepts(pattern: seq<string>, subject: seq<string>) {
    var k := FirstRest(pattern);
    && (if k < |pattern| then |subject| > k else |subject| == k)
    && Agree(pattern, subject, k)
  }

  lemma {:induction false} MatchMeansAgreement(pattern: seq<string>, subject: seq<string>)
    ensures MatchParts(pattern, subject) <==> Accepts(pattern, subject)
  {
    if pattern != [] && pattern[0] != REST && subject != [] {
      MatchMeansAgreement(pattern[1..], subject[1..]);
      var k := FirstRest(pattern[1..]);
      if Accepts(pattern[1..], subject[1..]) && (pattern[0] == STAR || pattern[0] == subject[0]) {
        forall i | 0 <= i < k + 1
          ensures pattern[i] == STAR || pattern[i] == subject[i]
        {
          if i > 0 {
            assert pattern[i] == pattern[1..][i - 1] && subject[i] == subject[1..][i - 1];
          }
        }
      }
      if Accepts(pattern, subject) {
        forall i | 0 <= i < k
          ensures pattern[1..][i] == STAR || pattern[1..][i] == subject[1..][i]
        {
          assert pattern[1..][i] == pattern[i + 1] && subject[1..][i] == subject[i + 1];
        }
      }
    }
  }

  lemma SplitOfTwo(a: string, b: string)
    requires '.' !in a && '.' !in b
    ensures Split(a + "." + b) == [a, b] && Split(a) == [a] && Split(b) == [b]
    ensures [a, b][1..] == [b] && [a][1..] == [] && [b][1..] == []
  {
    SplitOfToken(b, "");
    SplitOfToken(a, b);
  }

  lemma SplitOfThree(a: string, b: string, c: string)
    requires '.' !in a && '.' !in b && '.' !in c
    ensures Split(a + "." + b + "." + c) == [a, b, c]
    ensures [a, b, c][1..] == [b, c]
  {
    hide Split;
    SplitOfTwo(b, c);
    SplitOfToken(a, b + "." + c);
    assert a + "." + (b + "." + c) == a + "." + b + "." + c;
    assert [a] + [b, c] == [a, b, c];
  }

  /** A `*` stands for exactly one segment, and a plain segment for itself. */
  lemma StarMeans(a: string, b: string, c: string)
    requires PlainPart(a) && PlainPart(b) && PlainPart(c)
    ensures TopicMatches(a + "." + "*", a + "." + b) && !TopicMatches(a + "." + "*", a + "." + b + "." + c)
    ensures !TopicMatches(a + "." + "*", a) && (TopicMatches(a, b) <==> a == b)
  {
    hide Split;
    SplitOfTwo(a, b);
    SplitOfTwo(a, "*");
    SplitOfTwo(b, c);
    SplitOfThree(a, b, c);
    assert !MatchParts([], [c]) && MatchParts([], []) && !MatchParts(["*"], []);
    assert MatchParts(["*"], [b]) && !MatchParts(["*"], [b, c]);
  }

  /** A `>` stands for one or more segments at the end. */
  lemma RestMeans(a: string, b: string, c: string)
    requires PlainPart(a) && PlainPart(b) && PlainPart(c)
    ensures TopicMatches(a + "." + ">", a + "." + b) && TopicMatches(a + "." + ">", a + "." + b + "." + c)
    ensures !TopicMatches(a + "." + ">", a) && TopicMatches(">", a) && TopicMatches(">", a + "." + b + "." + c)
  {
    hide Split;
    SplitOfTwo(a, b);
    SplitOfTwo(a, ">");
    SplitOfThree(a, b, c);
    assert MatchParts([">"], [b]) && MatchParts([">"], [b, c]) && !MatchParts([">"], []);
  }

  // ------------------------------------------------------------- transitivity

  /**
   * The guard a caller can evaluate on the two patterns: the middle one has
   * no `>`, or the outer one has a `>` no later than it.
   */
  predicate StopsInTime(outer: seq<string>, middle: seq<string>) {
    var k := FirstRest(middle);
    k < |middle| ==> FirstRest(outer) <= k && FirstRest(outer) < |outer|
  }

  lemma PartsAreTransitive(outer: seq<string>, middle: seq<string>, subject: seq<string>)
    requires MatchParts(outer, middle) && MatchParts(middle, subject)
    requires StopsInTime(outer, middle)
    ensures MatchParts(outer, subject)
  {
    MatchMeansAgreement(outer, middle);
    MatchMeansAgreement(middle, subject);
    MatchMeansAgreement(outer, subject);
    var j, k := FirstRest(outer), FirstRest(middle);
    assert j <= k;
    forall i | 0 <= i < j
      ensures outer[i] == STAR || outer[i] == subject[i]
    {
      assert outer[i] == STAR || outer[i] == middle[i];
      assert middle[i] == STAR || middle[i] == subject[i];
    }
  }

  lemma MatchIsTransitive(outer: string, middle: string, subject: string)
    requires TopicMatches(outer, middle) && TopicMatches(middle, subject)
    requires REST !in Split(middle)
    ensures TopicMatches(outer, subject)
  {
    assert StopsInTime(Split(outer), Split(middle));
    PartsAreTransitive(Split(outer), Split(middle), Split(subject));
  }

  /** A subject as a publisher would write it: valid, with no wildcard token. */
  predicate Literal(subject: string) {
    && IsValidTopic(subject)
    && STAR !in Split(subject)
    && REST !in Split(subject)
  }

  ghost predicate CoversEverySubject(outer: string, middle: string) {
    forall subject :: TopicMatches(middle, subject) ==> TopicMatches(outer, subject)
  }

  ghost predicate CoversEveryLiteral(outer: string, middle: string) {
    forall subject :: Literal(subject) && TopicMatches(middle, subject) ==> TopicMatches(outer, subject)
  }

  /** The wildcards of a pattern filled in with a plain segment. */
  function Filled(parts: seq<string>): (filled: seq<string>)
    ensures |filled| == |parts|
    ensures forall i :: 0 <= i < |parts| ==>
              filled[i] == if parts[i] == STAR || parts[i] == REST then "x" else parts[i]
  {
    seq(|parts|, i requires 0 <= i < |parts| => if parts[i] == STAR || parts[i] == REST then "x" else parts[i])
  }

  predicate PlainPart(part: string) {
    part != "" && part != STAR && part != REST && '.' !in part
  }

  lemma FilledIsPlain(parts: seq<string>)
    requires forall part :: part in parts ==> part != "" && '.' !in part
    ensures forall part :: part in Filled(parts) ==> PlainPart(part)
  {
    forall i | 0 <= i < |parts|
      ensures PlainPart(Filled(parts)[i])
    {
      assert parts[i] in parts;
    }
  }

  /**
   * Segments that the middle pattern takes and the outer one does not, for
   * every pair that fails the guard.
   */
  function EscapingParts(outer: seq<string>, middle: seq<string>): seq<string> {
    if FirstRest(outer) < |outer| then Filled(middle[..FirstRest(middle)]) + ["x"]
    else Filled(middle) + ["x"]
  }

  lemma EscapingPartsEscape(outer: seq<string>, middle: seq<string>)
    requires MatchParts(outer, middle)
    requires !StopsInTime(outer, middle)
    ensures MatchParts(middle, EscapingParts(outer, middle))
    ensures !MatchParts(outer, EscapingParts(outer, middle))
  {
    var parts := EscapingParts(outer, middle);
    MatchMeansAgreement(outer, middle);
    MatchMeansAgreement(middle, parts);
    MatchMeansAgreement(outer, parts);
    var k := FirstRest(middle);
    assert forall i :: 0 <= i < k ==> parts[i] == if middle[i] == STAR then "x" else middle[i];
  }

  lemma {:induction false} PlainPartsMakeALiteral(parts: seq<string>)
    requires |parts| >= 1
    requires forall part :: part in parts ==> PlainPart(part)
    ensures Literal(Join(parts)) && Split(Join(parts)) == parts
  {
    SplitOfJoin(parts);
    assert parts[0] in parts;
    assert parts != [""];
  }

  /** A literal subject that escapes the outer pattern. */
  lemma EscapingSubject(outer: string, middle: string) returns (subject: string)
    requires TopicMatches(outer, middle)
    requires !StopsInTime(Split(outer), Split(middle))
    ensures Literal(subject) && TopicMatches(middle, subject) && !TopicMatches(outer, subject)
  {
    var p, q := Split(outer), Split(middle);
    EscapingPartsEscape(p, q);
    SegmentsHoldNoDot(middle);
    FilledIsPlain(q);
    var head := q[..FirstRest(q)];
    assert forall part :: part in head ==> part in q;
    FilledIsPlain(head);
    PlainPartsMakeALiteral(EscapingParts(p, q));
    subject := Join(EscapingParts(p, q));
  }

  /**
   * When one pattern matches another, it matches everything the other one
   * matches exactly when the guard holds; literal subjects alone decide it.
   */
  lemma MatchIsTransitiveExactlyWhen(outer: string, middle: string)
    requires TopicMatches(outer, middle)
    ensures CoversEverySubject(outer, middle) <==> StopsInTime(Split(outer), Split(middle))
    ensures CoversEveryLiteral(outer, middle) <==> StopsInTime(Split(outer), Split(middle))
  {
    if StopsInTime(Split(outer), Split(middle)) {
      forall subject | TopicMatches(middle, subject)
        ensures TopicMatches(outer, subject)
      {
        PartsAreTransitive(Split(outer), Split(middle), Split(subject));
      }
    } else {
      var subject := EscapingSubject(outer, middle);
    }
  }

  /** Transitivity does fail: `*` matches the pattern `>`, which matches `a.b`, which `*` does not. */
  lemma StarDoesNotCoverRest()
    ensures TopicMatches("*", ">") && !StopsInTime(Split("*"), Split(">"))
    ensures TopicMatches(">", "a.b") && !TopicMatches("*", "a.b")
  {
    SplitOfToken(STAR, "");
    SplitOfToken(REST, "");
    SplitOfToken("b", "");
    SplitOfToken("a", "b");
    assert "a.b" == "a" + "." + "b";
    assert Split("a.b") == ["a", "b"];
  }
}
