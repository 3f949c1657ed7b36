/** The word scanner (base/src/scanner.c). */
module Scanner {
  import opened Bytes

  predicate IsSeparator(c: byte) { c == 32 || c == 13 || c == 10 }

  /** Where the next word starts, seen from p. */
  function NextStart(src: seq<byte>, p: nat): (a: nat)
    requires p <= |src|
    ensures p <= a <= |src|
    decreases |src| - p
  {
    if p < |src| && IsSeparator(src[p]) then NextStart(src, p + 1) else p
  }

  /** Where the word ends that starts at a. */
  function NextEnd(src: seq<byte>, a: nat): (b: nat)
    requires a <= |src|
    ensures a <= b <= |src|
    decreases |src| - a
  {
    if a < |src| && !IsSeparator(src[a]) then NextEnd(src, a + 1) else a
  }

  lemma {:induction false} StartMeaning(src: seq<byte>, p: nat)
    requires p <= |src|
    ensures forall q | p <= q < NextStart(src, p) :: IsSeparator(src[q])
    ensures NextStart(src, p) < |src| ==> !IsSeparator(src[NextStart(src, p)])
    decreases |src| - p
  {
    if p < |src| && IsSeparator(src[p]) {
      StartMeaning(src, p + 1);
    }
  }

  lemma {:induction false} EndMeaning(src: seq<byte>, a: nat)
    requires a <= |src|
    ensures forall q | a <= q < NextEnd(src, a) :: !IsSeparator(src[q])
    ensures NextEnd(src, a) < |src| ==> IsSeparator(src[NextEnd(src, a)])
    decreases |src| - a
  {
    if a < |src| && !IsSeparator(src[a]) {
      EndMeaning(src, a + 1);
    }
  }

  /** The first word of src; empty when src holds only separators. */
  function FirstWord(src: seq<byte>): seq<byte>
  {
    var a := NextStart(src, 0);
    src[a..NextEnd(src, a)]
  }

  /** What a call leaves behind: everything from the separator that ended the word. */
  function AfterWord(src: seq<byte>): (rest: seq<byte>)
    ensures FirstWord(src) != [] ==> |rest| < |src|
  {
    src[NextEnd(src, NextStart(src, 0))..]
  }

  /** The loop of scanner_next_token() with its three indices. */
  method NextToken(src: seq<byte>) returns (next: seq<byte>, rest: seq<byte>)
    ensures next == FirstWord(src) && rest == AfterWord(src)
  {
    var i, tokenStart, trimAt := 0, -1, -1;
    while i < |src|
      invariant 0 <= i <= |src| && trimAt == -1
      invariant tokenStart == -1 ==> NextStart(src, 0) == NextStart(src, i)
      invariant tokenStart != -1 ==> 0 <= tokenStart < i && NextStart(src, 0) == tokenStart
      invariant tokenStart != -1 ==> NextEnd(src, tokenStart) == NextEnd(src, i)
    {
      if IsSeparator(src[i]) {
        if tokenStart != -1 {
          trimAt := i;
          break;
        }
      } else {
        tokenStart := if tokenStart < 0 then i else tokenStart;
      }
      i := i + 1;
    }
    if tokenStart >= 0 {
      next := src;
      if trimAt >= 0 {
        next := next[..trimAt];
      }
      next := next[tokenStart..];
    } else {
      next := [];
    }
    rest := src[i..];
  }

  /** All the words repeated calls deliver, until one comes back empty. */
  function Words(src: seq<byte>): (words: seq<seq<byte>>)
    decreases |src|
  {
    if FirstWord(src) == [] then [] else [FirstWord(src)] + Words(AfterWord(src))
  }

  /** The caller's loop: call, stop at the first empty token (apps/chat/src/room_master.c:69-76). */
  method Tokenize(text: seq<byte>) returns (words: seq<seq<byte>>)
    ensures words == Words(text)
  {
    words := [];
    var src := text;
    while true
      invariant words + Words(src) == Words(text)
      decreases |src|
    {
      var next, rest := NextToken(src);
      if |next| == 0 {
        return;
      }
      assert |src| > 0;
      words := words + [next];
      src := rest;
    }
  }

  /** What isspace() accepts. */
  predicate IsSpace(c: byte) { c == 32 || 9 <= c <= 13 }

  /** scanner_trim(): the text up to its last byte that is not white space. */
  method Trim(src: seq<byte>) returns (trimmed: seq<byte>, length: nat)
    ensures length == |trimmed| && trimmed <= src
    ensures trimmed == [] || !IsSpace(trimmed[length - 1])
    ensures forall k | length <= k < |src| :: IsSpace(src[k])
  {
    var len := |src|;
    while len > 0
      invariant 0 <= len <= |src|
      invariant forall k | len <= k < |src| :: IsSpace(src[k])
    {
      len := len - 1;
      if !IsSpace(src[len]) {
        return src[..len + 1], len + 1;
      }
    }
    return [], 0;
  }

  // ---------------------------------------------------------------- what the words are

  ghost predicate IsWord(w: seq<byte>)
  {
    |w| > 0 && forall c | c in w :: !IsSeparator(c)
  }

  /** src[a..b] is a maximal separator-free run. */
  ghost predicate MaximalRun(src: seq<byte>, a: nat, b: nat)
  {
    && a < b <= |src|
    && (forall k | a <= k < b :: !IsSeparator(src[k]))
    && (a == 0 || IsSeparator(src[a - 1]))
    && (b == |src| || IsSeparator(src[b]))
  }

  /** runs lists every maximal run of src from position p on, in order, and nothing else. */
  ghost predicate ListsRuns(src: seq<byte>, p: nat, runs: seq<(nat, nat)>)
  {
    && (forall k | 0 <= k < |runs| :: p <= runs[k].0 && MaximalRun(src, runs[k].0, runs[k].1))
    && (forall j, k | 0 <= j < k < |runs| :: runs[j].1 < runs[k].0)
    && (forall q | p <= q < |src| && !IsSeparator(src[q]) :: exists k :: 0 <= k < |runs| && runs[k].0 <= q < runs[k].1)
  }

  function Runs(src: seq<byte>, p: nat): seq<(nat, nat)>
    requires p <= |src|
    decreases |src| - p
  {
    var a := NextStart(src, p);
    if a == |src| then [] else [(a, NextEnd(src, a))] + Runs(src, NextEnd(src, a))
  }

  lemma PrependRun(src: seq<byte>, p: nat, a: nat, b: nat, more: seq<(nat, nat)>)
    requires p <= a && MaximalRun(src, a, b) && ListsRuns(src, b, more)
    requires forall q | p <= q < a :: IsSeparator(src[q])
    ensures ListsRuns(src, p, [(a, b)] + more)
  {
    var runs := [(a, b)] + more;
    forall k | 0 <= k < |more|
      ensures b < more[k].0
    {
      assert !IsSeparator(src[more[k].0]);
    }
    assert forall k | 0 < k < |runs| :: runs[k] == more[k - 1];
    forall q | p <= q < |src| && !IsSeparator(src[q])
      ensures exists k :: 0 <= k < |runs| && runs[k].0 <= q < runs[k].1
    {
      if q < b {
        assert runs[0].0 <= q < runs[0].1;
      } else {
        var k :| 0 <= k < |more| && more[k].0 <= q < more[k].1;
        assert runs[k + 1] == more[k];
      }
    }
  }

  lemma {:induction false} RunsAreListed(src: seq<byte>, p: nat)
    requires p <= |src| && (p == 0 || p == |src| || IsSeparator(src[p]))
    ensures ListsRuns(src, p, Runs(src, p))
    decreases |src| - p
  {
    var a := NextStart(src, p);
    StartMeaning(src, p);
    if a < |src| {
      var b := NextEnd(src, a);
      EndMeaning(src, a);
      assert a < b && MaximalRun(src, a, b);
      RunsAreListed(src, b);
      PrependRun(src, p, a, b, Runs(src, b));
    }
  }

  /** Positions in a suffix are positions in the whole, moved. */
  lemma {:induction false} StartInSuffix(src: seq<byte>, p: nat, i: nat)
    requires p + i <= |src|
    ensures p + NextStart(src[p..], i) == NextStart(src, p + i)
    decreases |src| - i
  {
    if p + i < |src| && IsSeparator(src[p + i]) {
      assert src[p..][i] == src[p + i];
      StartInSuffix(src, p, i + 1);
    }
  }

  lemma {:induction false} EndInSuffix(src: seq<byte>, p: nat, i: nat)
    requires p + i <= |src|
    ensures p + NextEnd(src[p..], i) == NextEnd(src, p + i)
    decreases |src| - i
  {
    if p + i < |src| && !IsSeparator(src[p + i]) {
      assert src[p..][i] == src[p + i];
      EndInSuffix(src, p, i + 1);
    }
  }

  lemma FirstWordIsNextRun(src: seq<byte>, p: nat)
    requires p <= |src|
    ensures var a := NextStart(src, p);
      FirstWord(src[p..]) == src[a..NextEnd(src, a)] && AfterWord(src[p..]) == src[NextEnd(src, a)..]
  {
    var s := src[p..];
    var a := NextStart(s, 0);
    StartInSuffix(src, p, 0);
    EndInSuffix(src, p, a);
    SliceOfSuffix(src, p, a, NextEnd(s, a));
  }

  lemma SliceOfSuffix(src: seq<byte>, p: nat, a: nat, b: nat)
    requires a <= b && p + b <= |src|
    ensures src[p..][a..b] == src[p + a..p + b] && src[p..][b..] == src[p + b..]
  {
  }

  /** The texts of the runs, in order. */
  function RunTexts(src: seq<byte>, runs: seq<(nat, nat)>): (texts: seq<seq<byte>>)
    requires forall r | r in runs :: r.0 <= r.1 <= |src|
    ensures |texts| == |runs|
  {
    seq(|runs|, k requires 0 <= k < |runs| => assert runs[k] in runs; src[runs[k].0..runs[k].1])
  }

  lemma {:induction false} WordsAreRuns(src: seq<byte>, p: nat)
    requires p <= |src|
    ensures forall r | r in Runs(src, p) :: r.0 <= r.1 <= |src|
    ensures Words(src[p..]) == RunTexts(src, Runs(src, p))
    decreases |src| - p
  {
    var a := NextStart(src, p);
    var b := NextEnd(src, a);
    assert Words(src[p..]) == if a == |src| then [] else [src[a..b]] + Words(src[b..]) by {
      StartMeaning(src, p);
      FirstWordIsNextRun(src, p);
    }
    if a < |src| {
      WordsAreRuns(src, b);
      assert Runs(src, p) == [(a, b)] + Runs(src, b);
      RunTextsCons(src, (a, b), Runs(src, b));
    }
  }

  lemma RunTextsCons(src: seq<byte>, r: (nat, nat), runs: seq<(nat, nat)>)
    requires r.0 <= r.1 <= |src| && forall q | q in runs :: q.0 <= q.1 <= |src|
    ensures forall q | q in [r] + runs :: q.0 <= q.1 <= |src|
    ensures RunTexts(src, [r] + runs) == [src[r.0..r.1]] + RunTexts(src, runs)
  {
  }

  /** Repeated calls return exactly the maximal separator-free runs of the text, in order. */
  lemma WordsAreMaximalRuns(src: seq<byte>)
    ensures ListsRuns(src, 0, Runs(src, 0))
    ensures forall r | r in Runs(src, 0) :: r.0 <= r.1 <= |src|
    ensures Words(src) == RunTexts(src, Runs(src, 0))
  {
    RunsAreListed(src, 0);
    WordsAreRuns(src, 0);
    assert src[0..] == src;
  }

  // ---------------------------------------------------------------- round trip

  /** Words written one after another with one space between them. */
  function Joined(words: seq<seq<byte>>): seq<byte>
  {
    if |words| == 0 then []
    else if |words| == 1 then words[0]
    else words[0] + [32] + Joined(words[1..])
  }

  /** A word followed by a separator or by the end comes off whole. */
  lemma WordComesOff(w: seq<byte>, rest: seq<byte>)
    requires IsWord(w) && (rest == [] || IsSeparator(rest[0]))
    ensures FirstWord(w + rest) == w && AfterWord(w + rest) == rest
    ensures Words(w + rest) == [w] + Words(rest)
  {
    var s := w + rest;
    assert forall k | 0 <= k < |w| :: s[k] == w[k] && w[k] in w;
    EndOfWord(s, 0, |w|);
    assert s[..|w|] == w && s[|w|..] == rest;
  }

  lemma {:induction false} EndOfWord(s: seq<byte>, a: nat, b: nat)
    requires a <= b <= |s| && (b < |s| ==> IsSeparator(s[b]))
    requires forall k | a <= k < b :: !IsSeparator(s[k])
    ensures NextEnd(s, a) == b
    decreases b - a
  {
    if a < b {
      EndOfWord(s, a + 1, b);
    }
  }

  lemma SeparatorIsSkipped(c: byte, rest: seq<byte>)
    requires IsSeparator(c)
    ensures FirstWord([c] + rest) == FirstWord(rest) && AfterWord([c] + rest) == AfterWord(rest)
    ensures Words([c] + rest) == Words(rest)
  {
    var s := [c] + rest;
    assert s[0..] == s && s[1..] == rest;
    assert NextStart(s, 0) == NextStart(s, 1);
    FirstWordIsNextRun(s, 0);
    FirstWordIsNextRun(s, 1);
  }

  /** Tokenizing a space-joined list gives the list back. */
  lemma {:induction false} JoinedWordsComeBack(words: seq<seq<byte>>)
    requires forall w | w in words :: IsWord(w)
    ensures Words(Joined(words)) == words
  {
    if |words| == 1 {
      WordComesOff(words[0], []);
      assert words[0] + [] == words[0];
    } else if |words| > 1 {
      var tail := words[1..];
      JoinedWordsComeBack(tail);
      assert words[0] + [32] + Joined(tail) == words[0] + ([32] + Joined(tail));
      WordComesOff(words[0], [32] + Joined(tail));
      SeparatorIsSkipped(32, Joined(tail));
      assert words == [words[0]] + tail;
    }
  }
}
