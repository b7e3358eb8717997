/**
 * The anti-loop detector: a sliding window over normalised message bodies,
 * after a list of auto-reply signatures has been ruled out.
 *
 * How Unicode lowercases a character and which characters are white space
 * are inputs; all that is used is that a blank is white space.
 */
module AntiLoop {

  type Instant = int

  datatype LoopVerdict = Clear | Repetition(count: nat) | AutoReplySignature(phrase: string)

  datatype Entry = Entry(at: Instant, body: string)

  /** `lower` may yield several characters for one. */
  datatype Alphabet = Alphabet(lower: char -> string, isSpace: char -> bool)

  ghost predicate BlankIsSpace(abc: Alphabet) {
    abc.isSpace(' ')
  }

  // --------------------------------------------------------------- normal forms

  function Lowered(abc: Alphabet, body: string): string {
    if body == "" then "" else Lowered(abc, body[..|body| - 1]) + abc.lower(body[|body| - 1])
  }

  /** The maximal runs of characters that are not white space. */
  function Words(abc: Alphabet, text: string): (words: seq<string>)
    ensures text != "" && !abc.isSpace(text[|text| - 1]) ==> words != []
  {
    if text == "" then []
    else
      var front, c := text[..|text| - 1], text[|text| - 1];
      var words := Words(abc, front);
      if abc.isSpace(c) then words
      else if front == "" || abc.isSpace(front[|front| - 1]) then words + [[c]]
      else words[..|words| - 1] + [words[|words| - 1] + [c]]
  }

  function Join(words: seq<string>): string {
    if words == [] then ""
    else if |words| == 1 then words[0]
    else words[0] + " " + Join(words[1..])
  }

  function TrimStart(abc: Alphabet, s: string): string {
    if s != "" && abc.isSpace(s[0]) then TrimStart(abc, s[1..]) else s
  }

  function TrimEnd(abc: Alphabet, s: string): string {
    if s != "" && abc.isSpace(s[|s| - 1]) then TrimEnd(abc, s[..|s| - 1]) else s
  }

  function NormalForm(abc: Alphabet, body: string): string {
    Join(Words(abc, Lowered(abc, body)))
  }

  /** Non-empty and free of white space. */
  ghost predicate IsWord(abc: Alphabet, word: string) {
    word != "" && forall k :: 0 <= k < |word| ==> !abc.isSpace(word[k])
  }

  ghost predicate AreWords(abc: Alphabet, words: seq<string>) {
    forall k :: 0 <= k < |words| ==> IsWord(abc, words[k])
  }

  lemma {:induction false} WordsAreWords(abc: Alphabet, text: string)
    ensures AreWords(abc, Words(abc, text))
  {
    if text != "" {
      WordsAreWords(abc, text[..|text| - 1]);
    }
  }

  lemma {:induction false} JoinGrowsByWord(words: seq<string>, word: string)
    ensures Join(words + [word]) == if words == [] then word else Join(words) + " " + word
  {
    if |words| > 1 {
      JoinGrowsByWord(words[1..], word);
      assert (words + [word])[1..] == words[1..] + [word];
    } else if |words| == 1 {
      assert (words + [word])[1..] == [word];
    }
  }

  lemma {:induction false} JoinGrowsByChar(words: seq<string>, c: char)
    requires words != []
    ensures Join(words[..|words| - 1] + [words[|words| - 1] + [c]]) == Join(words) + [c]
  {
    var grown := words[..|words| - 1] + [words[|words| - 1] + [c]];
    if |words| > 1 {
      JoinGrowsByChar(words[1..], c);
      assert grown[1..] == words[1..][..|words| - 2] + [words[1..][|words| - 2] + [c]];
    }
  }

  /** What the loop has written after a prefix: its words, and a blank when white space follows one. */
  function Written(abc: Alphabet, text: string): string {
    Join(Words(abc, text))
    + if text != "" && abc.isSpace(text[|text| - 1]) && Words(abc, text) != [] then " " else ""
  }

  predicate EndsInSpace(abc: Alphabet, text: string) {
    text == "" || abc.isSpace(text[|text| - 1])
  }

  lemma WriteOne(abc: Alphabet, text: string, c: char)
    ensures Written(abc, text + [c]) ==
            if !abc.isSpace(c) then Written(abc, text) + [c]
            else if EndsInSpace(abc, text) then Written(abc, text)
            else Written(abc, text) + " "
  {
    var words, longer := Words(abc, text), text + [c];
    assert longer[..|text|] == text;
    if !abc.isSpace(c) {
      if EndsInSpace(abc, text) {
        JoinGrowsByWord(words, [c]);
        NoWordsYet(abc, text);
      } else {
        JoinGrowsByChar(words, c);
      }
    }
  }

  lemma NoWordsYet(abc: Alphabet, text: string)
    ensures text == "" ==> Words(abc, text) == []
  {
  }

  lemma JoinHasNoOuterSpace(abc: Alphabet, words: seq<string>)
    requires AreWords(abc, words) && words != []
    ensures Join(words) != ""
    ensures !abc.isSpace(Join(words)[0]) && !abc.isSpace(Join(words)[|Join(words)| - 1])
  {
    assert IsWord(abc, words[0]);
    var front, last := words[..|words| - 1], words[|words| - 1];
    assert words == front + [last] && IsWord(abc, last);
    JoinGrowsByWord(front, last);
  }

  /** `normalise`: lowercases, collapses white space and trims; the result is the words joined by blanks. */
  method Normalise(abc: Alphabet, body: string) returns (normal: string)
    requires BlankIsSpace(abc)
    ensures normal == NormalForm(abc, body)
  {
    var out, lastWasSpace := "", true;
    for k := 0 to |body|
      invariant out == Written(abc, Lowered(abc, body[..k]))
      invariant lastWasSpace == EndsInSpace(abc, Lowered(abc, body[..k]))
    {
      assert body[..k + 1][..k] == body[..k];
      out, lastWasSpace := NormaliseChars(abc, abc.lower(body[k]), out, lastWasSpace, Lowered(abc, body[..k]));
    }
    assert body[..|body|] == body;
    normal := TrimEnd(abc, TrimStart(abc, out));
    TrimmedIsJoined(abc, Lowered(abc, body));
  }

  /** The loop body, for the characters that one character lowercases to; `done` is what came before. */
  method NormaliseChars(abc: Alphabet, chars: string, out0: string, lastWasSpace0: bool, ghost done: string)
    returns (out: string, lastWasSpace: bool)
    requires out0 == Written(abc, done) && lastWasSpace0 == EndsInSpace(abc, done)
    ensures out == Written(abc, done + chars)
    ensures lastWasSpace == EndsInSpace(abc, done + chars)
  {
    hide Written;
    out, lastWasSpace := out0, lastWasSpace0;
    assert done + chars[..0] == done;
    for k := 0 to |chars|
      invariant out == Written(abc, done + chars[..k]) && lastWasSpace == EndsInSpace(abc, done + chars[..k])
    {
      WriteOne(abc, done + chars[..k], chars[k]);
      if abc.isSpace(chars[k]) {
        if !lastWasSpace {
          out := out + " ";
          lastWasSpace := true;
        }
      } else {
        out := out + [chars[k]];
        lastWasSpace := false;
      }
      assert done + chars[..k + 1] == done + chars[..k] + [chars[k]];
    }
    assert chars[..|chars|] == chars;
  }

  lemma TrimmedIsJoined(abc: Alphabet, text: string)
    requires BlankIsSpace(abc)
    ensures TrimEnd(abc, TrimStart(abc, Written(abc, text))) == Join(Words(abc, text))
  {
    var words := Words(abc, text);
    WordsAreWords(abc, text);
    if words != [] {
      JoinHasNoOuterSpace(abc, words);
      var joined := Join(words);
      assert (joined + " ")[..|joined|] == joined;
      assert TrimEnd(abc, joined + " ") == TrimEnd(abc, joined);
    }
  }

  /** The first word of a joined list ends where the first white space is. */
  lemma FirstWordEndsAtSpace(abc: Alphabet, words: seq<string>)
    requires BlankIsSpace(abc) && AreWords(abc, words) && words != []
    ensures |words[0]| <= |Join(words)| && Join(words)[..|words[0]|] == words[0]
    ensures forall k :: 0 <= k < |words[0]| ==> !abc.isSpace(Join(words)[k])
    ensures |words[0]| == |Join(words)| || abc.isSpace(Join(words)[|words[0]|])
  {
    var joined := Join(words);
    assert IsWord(abc, words[0]);
    if |words| > 1 {
      assert joined == (words[0] + " ") + Join(words[1..]);
    }
    assert forall k :: 0 <= k < |words[0]| ==> joined[k] == words[0][k];
  }

  lemma {:induction false} JoinIsInjective(abc: Alphabet, a: seq<string>, b: seq<string>)
    requires BlankIsSpace(abc) && AreWords(abc, a) && AreWords(abc, b)
    requires Join(a) == Join(b)
    ensures a == b
  {
    if a == [] || b == [] {
      if a != [] {
        JoinHasNoOuterSpace(abc, a);
      }
      if b != [] {
        JoinHasNoOuterSpace(abc, b);
      }
    } else {
      FirstWordEndsAtSpace(abc, a);
      FirstWordEndsAtSpace(abc, b);
      var n := |a[0]|;
      assert |b[0]| == n;
      if |a| > 1 && |b| > 1 {
        assert Join(a[1..]) == Join(a)[n + 1..] && Join(b[1..]) == Join(b)[n + 1..];
        JoinIsInjective(abc, a[1..], b[1..]);
        assert a == [a[0]] + a[1..] && b == [b[0]] + b[1..];
      }
    }
  }

  /** Two bodies are the same message to the detector exactly when their lowercased word lists agree. */
  lemma SameNormalFormExactlyWhenSameWords(abc: Alphabet, a: string, b: string)
    requires BlankIsSpace(abc)
    ensures NormalForm(abc, a) == NormalForm(abc, b) <==> Words(abc, Lowered(abc, a)) == Words(abc, Lowered(abc, b))
  {
    if NormalForm(abc, a) == NormalForm(abc, b) {
      WordsAreWords(abc, Lowered(abc, a));
      WordsAreWords(abc, Lowered(abc, b));
      JoinIsInjective(abc, Words(abc, Lowered(abc, a)), Words(abc, Lowered(abc, b)));
    }
  }

  // ------------------------------------------------------------- what words are

  lemma {:induction false} LoweredConcat(abc: Alphabet, a: string, b: string)
    ensures Lowered(abc, a + b) == Lowered(abc, a) + Lowered(abc, b)
  {
    if b == "" {
      assert a + b == a;
    } else {
      LoweredConcat(abc, a, b[..|b| - 1]);
      assert (a + b)[..|a + b| - 1] == a + b[..|b| - 1];
    }
  }

  lemma LoweredOne(abc: Alphabet, c: char)
    ensures Lowered(abc, [c]) == abc.lower(c)
  {
    assert [c][..0] == "";
  }

  /** Letter case makes no difference: characters that lowercase alike give the same normal form. */
  lemma {:induction false} CaseIsIgnored(abc: Alphabet, a: string, b: string)
    requires |a| == |b| && forall k :: 0 <= k < |a| ==> abc.lower(a[k]) == abc.lower(b[k])
    ensures Lowered(abc, a) == Lowered(abc, b) && NormalForm(abc, a) == NormalForm(abc, b)
  {
    if a != "" {
      CaseIsIgnored(abc, a[..|a| - 1], b[..|b| - 1]);
    }
  }

  ghost predicate IsGap(abc: Alphabet, gap: string) {
    forall k :: 0 <= k < |gap| ==> abc.isSpace(gap[k])
  }

  function Grown(words: seq<string>, c: char): seq<string> {
    if words == [] then [[c]] else words[..|words| - 1] + [words[|words| - 1] + [c]]
  }

  lemma WordsOneMore(abc: Alphabet, text: string, c: char)
    ensures Words(abc, text + [c]) ==
            if abc.isSpace(c) then Words(abc, text)
            else if EndsInSpace(abc, text) then Words(abc, text) + [[c]]
            else Grown(Words(abc, text), c)
    ensures !EndsInSpace(abc, text) ==> Words(abc, text) != []
  {
    assert (text + [c])[..|text|] == text;
  }

  lemma GrownBehind(words: seq<string>, back: seq<string>, c: char)
    requires back != []
    ensures Grown(words + back, c) == words + Grown(back, c)
  {
    assert (words + back)[..|words + back| - 1] == words + back[..|back| - 1];
  }

  /** Words on the two sides of white space have nothing to do with each other. */
  lemma {:induction false} WordsAfterSpace(abc: Alphabet, a: string, b: string)
    requires EndsInSpace(abc, a)
    ensures Words(abc, a + b) == Words(abc, a) + Words(abc, b)
  {
    if b == "" {
      assert a + b == a;
    } else {
      hide Words;
      hide Grown;
      var front, c := b[..|b| - 1], b[|b| - 1];
      WordsAfterSpace(abc, a, front);
      assert a + b == (a + front) + [c] && b == front + [c];
      WordsOneMore(abc, a + front, c);
      WordsOneMore(abc, front, c);
      var words, back := Words(abc, a), Words(abc, front);
      if EndsInSpace(abc, front) {
        assert EndsInSpace(abc, a + front);
        NoWordsYet(abc, front);
        assert words + back + [[c]] == words + (back + [[c]]);
      } else {
        assert !EndsInSpace(abc, a + front);
        GrownBehind(words, back, c);
      }
    }
  }

  lemma {:induction false} WordsOfGap(abc: Alphabet, gap: string)
    requires IsGap(abc, gap)
    ensures Words(abc, gap) == []
  {
    if gap != "" { WordsOfGap(abc, gap[..|gap| - 1]); }
  }

  lemma {:induction false} WordsOfWord(abc: Alphabet, word: string)
    requires IsWord(abc, word)
    ensures Words(abc, word) == [word]
  {
    var front := word[..|word| - 1];
    assert word == front + [word[|word| - 1]];
    if front != "" { WordsOfWord(abc, front); }
  }

  /** Main result: a word, the white space around it and what follows give that word and the words of the
      rest; with texts of white space alone giving none, this is what the words of every text are. */
  lemma WordsMean(abc: Alphabet, lead: string, word: string, gap: string, rest: string)
    requires IsGap(abc, lead) && IsWord(abc, word) && IsGap(abc, gap) && (gap == "" ==> rest == "")
    ensures Words(abc, lead) == []
    ensures Words(abc, lead + word + gap + rest) == [word] + Words(abc, rest)
  {
    WordsOfGap(abc, lead);
    WordsOfGap(abc, gap);
    WordsOfWord(abc, word);
    WordsAfterSpace(abc, lead, word);
    WordsBeforeGap(abc, lead + word, gap);
    if rest == "" {
      assert lead + word + gap + rest == lead + word + gap;
    } else {
      WordsAfterSpace(abc, lead + word + gap, rest);
    }
  }

  lemma {:induction false} WordsBeforeGap(abc: Alphabet, a: string, gap: string)
    requires IsGap(abc, gap)
    ensures Words(abc, a + gap) == Words(abc, a)
  {
    if gap == "" {
      assert a + gap == a;
    } else {
      WordsBeforeGap(abc, a, gap[..|gap| - 1]);
      assert (a + gap)[..|a + gap| - 1] == a + gap[..|gap| - 1];
    }
  }

  // ----------------------------------------------------------------- signatures

  function AsciiLower(s: string): (r: string)
    ensures |r| == |s|
  {
    seq(|s|, k requires 0 <= k < |s| => if 'A' <= s[k] <= 'Z' then (s[k] as int + 32) as char else s[k])
  }

  predicate OccursAt(text: string, part: string, i: nat) {
    i + |part| <= |text| && text[i..i + |part|] == part
  }

  predicate Contains(text: string, part: string) {
    exists i: nat :: i <= |text| && OccursAt(text, part, i)
  }

  const DEFAULT_SIGNATURES: seq<string> := [
    "recibido", "mensaje automatico", "mensaje autom\U{00E1}tico", "auto-reply", "out of office",
    "respuesta automatica", "respuesta autom\U{00E1}tica"]

  /** The position of the first signature the text contains, or their number. */
  function FirstSignature(signatures: seq<string>, text: string): (k: nat)
    ensures k <= |signatures|
    ensures k < |signatures| ==> Contains(text, signatures[k])
    ensures forall j :: 0 <= j < k ==> !Contains(text, signatures[j])
  {
    if signatures == [] || Contains(text, signatures[0]) then 0 else 1 + FirstSignature(signatures[1..], text)
  }

  // ----------------------------------------------------------------- the window

  /** Time since `ts`; a clock that went backwards counts as no time. */
  function Age(now: Instant, ts: Instant): nat {
    if now >= ts then now - ts else 0
  }

  /** Popping from the front while it is too old. */
  function DropOld(history: seq<Entry>, now: Instant, window: nat): seq<Entry> {
    if history != [] && Age(now, history[0].at) > window then DropOld(history[1..], now, window) else history
  }

  function CountOf(history: seq<Entry>, body: string): nat {
    if history == [] then 0
    else CountOf(history[..|history| - 1], body) + if history[|history| - 1].body == body then 1 else 0
  }

  datatype Detector = Detector(abc: Alphabet, threshold: nat, window: nat, signatures: seq<string>)

  predicate Announces(d: Detector, body: string) {
    FirstSignature(d.signatures, AsciiLower(NormalForm(d.abc, body))) < |d.signatures|
  }

  function HistoryAfter(d: Detector, history: seq<Entry>, body: string, now: Instant): seq<Entry> {
    if Announces(d, body) then history
    else DropOld(history, now, d.window) + [Entry(now, NormalForm(d.abc, body))]
  }

  function VerdictOn(d: Detector, history: seq<Entry>, body: string, now: Instant): LoopVerdict {
    if Announces(d, body)
    then AutoReplySignature(d.signatures[FirstSignature(d.signatures, AsciiLower(NormalForm(d.abc, body)))])
    else
      var count := CountOf(HistoryAfter(d, history, body, now), NormalForm(d.abc, body));
      if count >= d.threshold then Repetition(count) else Clear
  }

  class AntiLoopDetector {
    const abc: Alphabet
    const threshold: nat
    const window: nat
    var history: seq<Entry>
    var signatures: seq<string>

    function Settings(): Detector
      reads this
    {
      Detector(abc, threshold, window, signatures)
    }

    constructor (abc: Alphabet, threshold: nat, window: nat)
      ensures history == [] && Settings() == Detector(abc, threshold, window, DEFAULT_SIGNATURES)
    {
      this.abc, this.threshold, this.window := abc, threshold, window;
      this.history, this.signatures := [], DEFAULT_SIGNATURES;
    }

    /** Replaces the list; each phrase is kept in lower case. */
    method WithSignatures(phrases: seq<string>)
      modifies this`signatures
      ensures |signatures| == |phrases|
      ensures forall k :: 0 <= k < |phrases| ==> signatures[k] == AsciiLower(phrases[k])
    {
      var lowered := [];
      for k := 0 to |phrases|
        invariant |lowered| == k && forall j :: 0 <= j < k ==> lowered[j] == AsciiLower(phrases[j])
      {
        lowered := lowered + [AsciiLower(phrases[k])];
      }
      signatures := lowered;
    }

    /** Signatures first: one that matches leaves no trace. Otherwise trim, record and count. */
    method EvaluateAt(body: string, now: Instant) returns (verdict: LoopVerdict)
      requires BlankIsSpace(abc)
      modifies this`history
      ensures history == HistoryAfter(Settings(), old(history), body, now)
      ensures verdict == VerdictOn(Settings(), old(history), body, now)
    {
      hide NormalForm;
      hide Contains;
      var normalised := Normalise(abc, body);
      var lowered := AsciiLower(normalised);
      ghost var first := FirstSignature(signatures, lowered);
      for k := 0 to |signatures|
        invariant k <= first
        invariant history == old(history)
      {
        if Contains(lowered, signatures[k]) {
          return AutoReplySignature(signatures[k]);
        }
      }
      while history != [] && Age(now, history[0].at) > window
        invariant DropOld(history, now, window) == DropOld(old(history), now, window)
        decreases |history|
      {
        history := history[1..];
      }
      history := history + [Entry(now, normalised)];
      var count := Tally(normalised);
      if count >= threshold {
        return Repetition(count);
      }
      verdict := Clear;
    }

    method Tally(body: string) returns (count: nat)
      ensures count == CountOf(history, body)
    {
      count := 0;
      for k := 0 to |history|
        invariant count == CountOf(history[..k], body)
      {
        assert history[..k + 1][..k] == history[..k];
        if history[k].body == body {
          count := count + 1;
        }
      }
      assert history[..|history|] == history;
    }
  }

  // --------------------------------------------------------------- the full log

  datatype Call = Call(body: string, at: Instant)

  /** The detector's deque after a sequence of calls. */
  function Run(d: Detector, calls: seq<Call>): seq<Entry> {
    if calls == [] then []
    else
      var last := calls[|calls| - 1];
      HistoryAfter(d, Run(d, calls[..|calls| - 1]), last.body, last.at)
  }

  /** Every call that announced nothing, ever. */
  function Log(d: Detector, calls: seq<Call>): seq<Entry> {
    if calls == [] then []
    else
      var last := calls[|calls| - 1];
      Log(d, calls[..|calls| - 1])
      + if Announces(d, last.body) then [] else [Entry(last.at, NormalForm(d.abc, last.body))]
  }

  /** The entries no older than the window. */
  function Recent(log: seq<Entry>, now: Instant, window: nat): seq<Entry> {
    if log == [] then []
    else (if Age(now, log[0].at) <= window then [log[0]] else []) + Recent(log[1..], now, window)
  }

  ghost predicate Chronological(log: seq<Entry>) {
    forall i, j :: 0 <= i < j < |log| ==> log[i].at <= log[j].at
  }

  ghost predicate InTimeOrder(calls: seq<Call>) {
    forall i, j :: 0 <= i < j < |calls| ==> calls[i].at <= calls[j].at
  }

  lemma {:induction false} AllRecent(log: seq<Entry>, now: Instant, window: nat)
    requires forall k :: 0 <= k < |log| ==> Age(now, log[k].at) <= window
    ensures Recent(log, now, window) == log
  {
    if log != [] {
      AllRecent(log[1..], now, window);
      assert log == [log[0]] + log[1..];
    }
  }

  /** In a chronological log, popping the old front is filtering by age. */
  lemma {:induction false} DropOldFilters(log: seq<Entry>, now: Instant, window: nat)
    requires Chronological(log)
    ensures DropOld(log, now, window) == Recent(log, now, window)
  {
    if log != [] {
      if Age(now, log[0].at) > window {
        DropOldFilters(log[1..], now, window);
      } else {
        AllRecent(log, now, window);
      }
    }
  }

  /** Trimming at an earlier time loses nothing a later trim would keep. */
  lemma {:induction false} TrimsCompose(log: seq<Entry>, earlier: Instant, later: Instant, window: nat)
    requires earlier <= later
    ensures DropOld(DropOld(log, earlier, window), later, window) == DropOld(log, later, window)
  {
    if log != [] && Age(earlier, log[0].at) > window {
      TrimsCompose(log[1..], earlier, later, window);
    }
  }

  lemma {:induction false} RecentGrows(log: seq<Entry>, e: Entry, window: nat)
    ensures Recent(log + [e], e.at, window) == Recent(log, e.at, window) + [e]
  {
    if log == [] {
      assert [e][1..] == [];
    } else {
      RecentGrows(log[1..], e, window);
      assert (log + [e])[1..] == log[1..] + [e];
    }
  }

  lemma {:induction false} LogInOrder(d: Detector, calls: seq<Call>)
    requires InTimeOrder(calls)
    ensures Chronological(Log(d, calls))
    ensures calls != [] ==> forall k :: 0 <= k < |Log(d, calls)| ==> Log(d, calls)[k].at <= calls[|calls| - 1].at
  {
    hide Announces;
    if calls != [] {
      LogInOrder(d, calls[..|calls| - 1]);
    }
  }

  /** The deque is the log trimmed at the last time it was trimmed. */
  lemma {:induction false} DequeIsTrimmedLog(d: Detector, calls: seq<Call>)
    requires InTimeOrder(calls)
    ensures var log := Log(d, calls);
            Run(d, calls) == if log == [] then [] else DropOld(log, log[|log| - 1].at, d.window)
  {
    hide Announces;
    if calls != [] {
      var front, last := calls[..|calls| - 1], calls[|calls| - 1];
      DequeIsTrimmedLog(d, front);
      LogInOrder(d, front);
      LogInOrder(d, calls);
      var log := Log(d, front);
      if !Announces(d, last.body) {
        var e := Entry(last.at, NormalForm(d.abc, last.body));
        if log != [] {
          TrimsCompose(log, log[|log| - 1].at, last.at, d.window);
        }
        DropOldFilters(log, last.at, d.window);
        DropOldFilters(log + [e], last.at, d.window);
        RecentGrows(log, e, d.window);
        assert Log(d, calls) == log + [e];
        assert Run(d, calls) == DropOld(Run(d, front), last.at, d.window) + [e];
      } else {
        assert Log(d, calls) == log;
      }
    }
  }

  /**
   * Right after a call that announced nothing, the deque is the whole log
   * filtered to the window, and the verdict is a repetition exactly when the
   * log holds this message often enough within it.
   */
  lemma {:induction false} WindowRefinesTheLog(d: Detector, calls: seq<Call>, body: string, now: Instant)
    requires InTimeOrder(calls + [Call(body, now)]) && !Announces(d, body)
    ensures var all := calls + [Call(body, now)];
            var recent := Recent(Log(d, all), now, d.window);
            var count := CountOf(recent, NormalForm(d.abc, body));
            && Run(d, all) == recent
            && VerdictOn(d, Run(d, calls), body, now) == if count >= d.threshold then Repetition(count) else Clear
  {
    var all := calls + [Call(body, now)];
    assert all[..|all| - 1] == calls;
    DequeIsTrimmedLog(d, all);
    LogInOrder(d, all);
    DropOldFilters(Log(d, all), now, d.window);
  }

  // ------------------------------------------- signatures, counts and ages, literally

  const UPPER := "ABCDEFGHIJKLMNOPQRSTUVWXYZ"
  const LOWER := "abcdefghijklmnopqrstuvwxyz"

  /** Each of the 26 capital letters becomes its small one, and every other character stays. */
  lemma AsciiLowerMeans(s: string, k: nat)
    requires k < |s|
    ensures forall j :: 0 <= j < 26 && s[k] == UPPER[j] ==> AsciiLower(s)[k] == LOWER[j]
    ensures s[k] !in UPPER ==> AsciiLower(s)[k] == s[k]
  {
    assert forall j :: 0 <= j < 26 ==> UPPER[j] as int == 65 + j && LOWER[j] as int == 97 + j;
    if 'A' <= s[k] <= 'Z' {
      assert UPPER[s[k] as int - 65] == s[k];
    }
  }

  /** A text contains a part exactly when it reads something, the part, something. */
  lemma ContainsMeans(text: string, part: string)
    ensures Contains(text, part) <==> exists front: string, back: string :: text == front + part + back
  {
    if Contains(text, part) {
      var i: nat :| i <= |text| && OccursAt(text, part, i);
      assert text == text[..i] + part + text[i + |part|..];
    }
    if front: string, back: string :| text == front + part + back {
      assert OccursAt(text, part, |front|);
    }
  }

  lemma AsciiLowerConcat(a: string, b: string)
    ensures AsciiLower(a + b) == AsciiLower(a) + AsciiLower(b)
  {
  }

  /** Main result: a phrase from the list is found in the middle of a text, in whatever letter case either is
      written; the verdict names the first phrase of the list that the text contains, and only then. */
  lemma PhraseInMidTextIsFound(d: Detector, history: seq<Entry>, body: string, now: Instant,
                               front: string, phrase: string, back: string, k: nat)
    requires NormalForm(d.abc, body) == front + phrase + back
    requires k < |d.signatures| && d.signatures[k] == AsciiLower(phrase)
    ensures VerdictOn(d, history, body, now).AutoReplySignature?
    ensures exists j :: (0 <= j <= k && VerdictOn(d, history, body, now).phrase == d.signatures[j]
              && forall i :: 0 <= i < j ==> !Contains(AsciiLower(NormalForm(d.abc, body)), d.signatures[i]))
  {
    AsciiLowerConcat(front + phrase, back);
    AsciiLowerConcat(front, phrase);
    var text := AsciiLower(NormalForm(d.abc, body));
    assert text == AsciiLower(front) + d.signatures[k] + AsciiLower(back);
    ContainsMeans(text, d.signatures[k]);
    hide Contains;
    hide NormalForm;
    var j := FirstSignature(d.signatures, text);
    assert j <= k && VerdictOn(d, history, body, now).phrase == d.signatures[j];
  }

  function Positions(history: seq<Entry>, body: string): set<nat> {
    set k: nat | k < |history| && history[k].body == body
  }

  lemma PositionsGrow(history: seq<Entry>, body: string)
    requires history != []
    ensures var n := |history| - 1;
            n !in Positions(history[..n], body)
            && Positions(history, body) == Positions(history[..n], body) + if history[n].body == body then {n} else {}
  {
  }

  /** The count is the number of positions that hold the body. */
  lemma {:induction false} CountMeans(history: seq<Entry>, body: string)
    ensures CountOf(history, body) == |Positions(history, body)|
  {
    if history != [] {
      PositionsGrow(history, body);
      hide Positions;
      CountMeans(history[..|history| - 1], body);
    }
  }

  lemma CountOfTwo(e: Entry, e': Entry)
    requires e.body == e'.body
    ensures CountOf([e'], e'.body) == 1 && CountOf([e, e'], e'.body) == 2
  {
    assert [e'][..0] == [] && [e][..0] == [] && [e, e'][..1] == [e];
    assert CountOf([], e'.body) == 0 && CountOf([e], e'.body) == 1;
  }

  lemma DropOldOfOne(e: Entry, now: Instant, window: nat)
    requires e.at <= now
    ensures DropOld([e], now, window) == if now - e.at <= window then [e] else []
  {
    assert [e][1..] == [];
  }

  lemma OneCallRecords(d: Detector, body: string, at: Instant)
    requires !Announces(d, body)
    ensures Run(d, [Call(body, at)]) == [Entry(at, NormalForm(d.abc, body))]
  {
    hide Announces;
    assert [Call(body, at)][..0] == [];
    assert Run(d, []) == [] && DropOld([], at, d.window) == [];
  }

  /** Nothing is dropped while the front is no older than the window; a front stamped later counts as new. */
  lemma FrontDecides(history: seq<Entry>, now: Instant, window: nat)
    requires history != []
    ensures DropOld(history, now, window) == history <==> now - history[0].at <= window
  {
    if now - history[0].at > window {
      DropOldShortens(history[1..], now, window);
    }
  }

  lemma {:induction false} DropOldShortens(history: seq<Entry>, now: Instant, window: nat)
    ensures |DropOld(history, now, window)| <= |history|
  {
    if history != [] { DropOldShortens(history[1..], now, window); }
  }

  /** Main result: the second of two like messages is a repetition exactly when no more than the window
      has passed: a message exactly as old as the window still counts. */
  lemma SecondAlikeIsCountedWithinTheWindow(d: Detector, first: string, second: string, t: Instant, u: Instant)
    requires t <= u && d.threshold == 2 && !Announces(d, first) && NormalForm(d.abc, first) == NormalForm(d.abc, second)
    ensures VerdictOn(d, Run(d, [Call(first, t)]), second, u) == if u - t <= d.window then Repetition(2) else Clear
  {
    assert !Announces(d, second);
    hide NormalForm, Announces, Run, DropOld, CountOf;
    var e, e' := Entry(t, NormalForm(d.abc, first)), Entry(u, NormalForm(d.abc, second));
    OneCallRecords(d, first, t);
    DropOldOfOne(e, u, d.window);
    CountOfTwo(e, e');
    assert [e] + [e'] == [e, e'] && [] + [e'] == [e'];
  }

  lemma RunGrows(d: Detector, calls: seq<Call>, call: Call)
    ensures Run(d, calls + [call]) == HistoryAfter(d, Run(d, calls), call.body, call.at)
  {
    assert (calls + [call])[..|calls|] == calls;
  }

  /** A call that announced an auto-reply changes no later verdict: it may be deleted from the run. */
  lemma {:induction false} AnnouncementsLeaveNoTrace(d: Detector, before: seq<Call>, call: Call, later: seq<Call>)
    requires Announces(d, call.body)
    ensures Run(d, before + [call] + later) == Run(d, before + later)
  {
    hide Announces;
    hide Run;
    if later == [] {
      RunGrows(d, before, call);
      assert before + [call] + later == before + [call] && before + later == before;
    } else {
      var front, last := later[..|later| - 1], later[|later| - 1];
      AnnouncementsLeaveNoTrace(d, before, call, front);
      RunGrows(d, before + [call] + front, last);
      RunGrows(d, before + front, last);
      assert before + [call] + later == (before + [call] + front) + [last];
      assert before + later == (before + front) + [last];
    }
  }
}
