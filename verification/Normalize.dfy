/** Message normalisation on ASCII text: numbers and addresses become "N", the ends are
    stripped and the result is cut at 160 characters. */
module Normalize {

  const LIMIT: nat := 160

  predicate IsDigit(c: char) {
    '0' <= c <= '9'
  }

  predicate IsHex(c: char) {
    IsDigit(c) || 'a' <= c <= 'f' || 'A' <= c <= 'F'
  }

  /** `\w` on ASCII. */
  predicate IsWord(c: char) {
    IsDigit(c) || 'a' <= c <= 'z' || 'A' <= c <= 'Z' || c == '_'
  }

  /** The ASCII characters that `str.strip` removes. */
  predicate IsSpace(c: char) {
    ('\t' <= c <= '\r') || ('\U{1c}' <= c <= '\U{1f}') || c == ' '
  }

  // ---------------------------------------------------------------------------
  // The regular expression \b0x[0-9a-fA-F]+\b|\b\d+\b, as a scan

  function HexRun(s: string): (n: nat)
    ensures n <= |s|
  {
    if s != [] && IsHex(s[0]) then 1 + HexRun(s[1..]) else 0
  }

  function DigitRun(s: string): (n: nat)
    ensures n <= |s|
  {
    if s != [] && IsDigit(s[0]) then 1 + DigitRun(s[1..]) else 0
  }

  /** A boundary after a word character: the end, or a non-word character. */
  predicate EndsWord(rest: string) {
    rest == [] || !IsWord(rest[0])
  }

  /** Length of the match starting here, given that a word may start here; 0 if none.
      A greedy run of digits cannot be shortened to end at a boundary. */
  function MatchLen(s: string): (n: nat)
    ensures n <= |s|
  {
    if |s| >= 3 && s[0] == '0' && s[1] == 'x' && HexRun(s[2..]) > 0 && EndsWord(s[2 + HexRun(s[2..])..])
    then 2 + HexRun(s[2..])
    else if DigitRun(s) > 0 && EndsWord(s[DigitRun(s)..]) then DigitRun(s)
    else 0
  }

  /** `re.sub` from a position; `inWord` says whether the character before it is a word
      character. */
  function Substitute(inWord: bool, s: string): string
    decreases |s|
  {
    if s == [] then []
    else if !inWord && MatchLen(s) > 0 then ['N'] + Substitute(true, s[MatchLen(s)..])
    else [s[0]] + Substitute(IsWord(s[0]), s[1..])
  }

  function LStrip(s: string): string {
    if s != [] && IsSpace(s[0]) then LStrip(s[1..]) else s
  }

  function RStrip(s: string): string {
    if s != [] && IsSpace(s[|s| - 1]) then RStrip(s[..|s| - 1]) else s
  }

  function Strip(s: string): string {
    RStrip(LStrip(s))
  }

  function Cut(s: string): string {
    if |s| <= LIMIT then s else s[..LIMIT]
  }

  function Normalize(s: string): string {
    Cut(Strip(Substitute(false, s)))
  }

  // ---------------------------------------------------------------------------
  // A match is a whole word

  /** Length of the word starting here. */
  function WordLen(s: string): (n: nat)
    ensures n <= |s|
    ensures forall i :: 0 <= i < n ==> IsWord(s[i])
    ensures EndsWord(s[n..])
  {
    if s != [] && IsWord(s[0]) then 1 + WordLen(s[1..]) else 0
  }

  /** A decimal or 0x-hexadecimal number. */
  predicate IsNumber(w: string) {
    || (w != [] && forall i :: 0 <= i < |w| ==> IsDigit(w[i]))
    || (|w| >= 3 && w[0] == '0' && w[1] == 'x' && forall i :: 2 <= i < |w| ==> IsHex(w[i]))
  }

  lemma {:induction false} HexRunIs(s: string, n: nat)
    requires n <= |s| && (forall i :: 0 <= i < n ==> IsHex(s[i])) && (n == |s| || !IsHex(s[n]))
    ensures HexRun(s) == n
  {
    if n > 0 {
      HexRunIs(s[1..], n - 1);
    }
  }

  lemma {:induction false} DigitRunIs(s: string, n: nat)
    requires n <= |s| && (forall i :: 0 <= i < n ==> IsDigit(s[i])) && (n == |s| || !IsDigit(s[n]))
    ensures DigitRun(s) == n
  {
    if n > 0 {
      DigitRunIs(s[1..], n - 1);
    }
  }

  lemma {:induction false} RunsAreDigits(s: string)
    ensures forall i :: 0 <= i < HexRun(s) ==> IsHex(s[i])
    ensures forall i :: 0 <= i < DigitRun(s) ==> IsDigit(s[i])
  {
    if s != [] {
      RunsAreDigits(s[1..]);
    }
  }

  lemma {:induction false} WordLenIs(s: string, n: nat)
    requires n <= |s| && (forall i :: 0 <= i < n ==> IsWord(s[i])) && EndsWord(s[n..])
    ensures WordLen(s) == n
  {
    if n > 0 {
      assert s[n..] == s[1..][n - 1..];
      WordLenIs(s[1..], n - 1);
    }
  }

  /** A number followed by a word boundary is matched in full. */
  lemma NumberMatches(s: string, n: nat)
    requires n <= |s| && IsNumber(s[..n]) && EndsWord(s[n..]) && n == WordLen(s)
    ensures MatchLen(s) == n
  {
    var w := s[..n];
    assert forall i :: 0 <= i < n ==> s[i] == w[i];
    if forall i :: 0 <= i < n ==> IsDigit(w[i]) {
      DigitRunIs(s, n);
    } else {
      HexRunIs(s[2..], n - 2);
      assert s[2..][n - 2..] == s[n..];
    }
  }

  /** The scan matches exactly the whole words that are numbers. */
  lemma MatchIsWholeNumber(s: string)
    ensures MatchLen(s) == if IsNumber(s[..WordLen(s)]) then WordLen(s) else 0
  {
    var n := WordLen(s);
    var w := s[..n];
    if IsNumber(w) {
      NumberMatches(s, n);
    } else if MatchLen(s) > 0 {
      MatchIsNumber(s);
      WordLenIs(s, MatchLen(s));
    }
  }

  /** Whatever matches is a number ending at a word boundary. */
  lemma MatchIsNumber(s: string)
    requires MatchLen(s) > 0
    ensures IsNumber(s[..MatchLen(s)]) && EndsWord(s[MatchLen(s)..])
    ensures forall i :: 0 <= i < MatchLen(s) ==> IsWord(s[i])
  {
    var n := MatchLen(s);
    if |s| >= 3 && s[0] == '0' && s[1] == 'x' && HexRun(s[2..]) > 0 && EndsWord(s[2 + HexRun(s[2..])..]) {
      RunsAreDigits(s[2..]);
      forall i | 2 <= i < n ensures IsHex(s[i]) {
        assert s[i] == s[2..][i - 2];
      }
    } else {
      RunsAreDigits(s);
    }
  }

  // ---------------------------------------------------------------------------
  // Splitting at a boundary

  predicate AllWord(w: string) {
    forall i :: 0 <= i < |w| ==> IsWord(w[i])
  }

  lemma NumbersAreWords(w: string)
    requires IsNumber(w)
    ensures AllWord(w)
  {
  }

  /** What the scan does at the start of a given word. */
  lemma MatchLenIs(s: string, w: string, rest: string)
    requires s == w + rest && EndsWord(rest)
    requires AllWord(w)
    ensures MatchLen(s) == if IsNumber(w) then |w| else 0
  {
    assert s[|w|..] == rest && s[..|w|] == w;
    WordLenIs(s, |w|);
    MatchIsWholeNumber(s);
  }

  /** Every text is a first word, possibly empty, and a rest. */
  lemma FirstWord(s: string) returns (w: string, rest: string)
    ensures s == w + rest && AllWord(w) && EndsWord(rest)
  {
    w, rest := s[..WordLen(s)], s[WordLen(s)..];
  }

  /** Text after the end of the first word does not influence the match. */
  lemma MatchIgnoresRest(pre: string, rest: string)
    requires EndsWord(rest) || (pre != [] && !IsWord(pre[|pre| - 1]))
    ensures MatchLen(pre + rest) == MatchLen(pre)
  {
    var w, tail := FirstWord(pre);
    MatchLenIs(pre, w, tail);
    assert pre + rest == w + (tail + rest);
    if tail == [] {
      assert tail + rest == rest;
      assert pre == w;
    }
    MatchLenIs(pre + rest, w, tail + rest);
  }

  lemma MatchStopsShort(pre: string)
    requires MatchLen(pre) > 0 && !IsWord(pre[|pre| - 1])
    ensures MatchLen(pre) < |pre|
  {
    MatchIsNumber(pre);
  }

  lemma SubstituteSkips(inWord: bool, c: char, rest: string)
    requires inWord || MatchLen([c] + rest) == 0
    ensures Substitute(inWord, [c] + rest) == [c] + Substitute(IsWord(c), rest)
  {
    assert ([c] + rest)[1..] == rest;
  }

  lemma Assoc(a: string, b: string, c: string)
    ensures a + (b + c) == (a + b) + c
  {
  }

  lemma SubstituteHits(s: string, n: nat, rest: string)
    requires n > 0 && n == MatchLen(s) && rest == s[n..]
    ensures Substitute(false, s) == ['N'] + Substitute(true, rest)
  {
  }

  /** Substitution can be done separately on both sides of a boundary. */
  lemma {:induction false} SubstituteSplits(inWord: bool, pre: string, rest: string)
    requires pre != [] && !IsWord(pre[|pre| - 1])
    ensures Substitute(inWord, pre + rest) == Substitute(inWord, pre) + Substitute(false, rest)
    decreases |pre|, 1
  {
    MatchIgnoresRest(pre, rest);
    if !inWord && MatchLen(pre) > 0 {
      SplitAfterMatch(pre, MatchLen(pre), rest);
    } else {
      SplitAfterChar(inWord, pre, rest);
    }
  }

  lemma {:induction false} SplitAfterMatch(pre: string, n: nat, rest: string)
    requires pre != [] && !IsWord(pre[|pre| - 1]) && n > 0 && n == MatchLen(pre) == MatchLen(pre + rest)
    ensures Substitute(false, pre + rest) == Substitute(false, pre) + Substitute(false, rest)
    decreases |pre|, 0
  {
    MatchStopsShort(pre);
    var tail := pre[n..];
    assert (pre + rest)[n..] == tail + rest;
    SubstituteHits(pre + rest, n, tail + rest);
    SubstituteHits(pre, n, tail);
    SubstituteSplits(true, tail, rest);
  }

  lemma {:induction false} SplitAfterChar(inWord: bool, pre: string, rest: string)
    requires pre != [] && !IsWord(pre[|pre| - 1])
    requires inWord || (MatchLen(pre) == 0 && MatchLen(pre + rest) == 0)
    ensures Substitute(inWord, pre + rest) == Substitute(inWord, pre) + Substitute(false, rest)
    decreases |pre|, 0
  {
    var c, tail := pre[0], pre[1..];
    assert pre == [c] + tail && pre + rest == [c] + (tail + rest);
    SubstituteSkips(inWord, c, tail + rest);
    SubstituteSkips(inWord, c, tail);
    if tail == [] {
      assert tail + rest == rest;
      assert Substitute(IsWord(c), tail) == [];
    } else {
      SubstituteSplits(IsWord(c), tail, rest);
      Assoc([c], Substitute(IsWord(c), tail), Substitute(false, rest));
    }
  }

  lemma {:induction false} InWordCopiesAll(w: string)
    requires AllWord(w)
    ensures Substitute(true, w) == w
  {
    if w != [] {
      InWordCopiesAll(w[1..]);
    }
  }

  /** A single word is replaced when it is a number and kept otherwise. */
  lemma SubstituteWord(w: string)
    requires AllWord(w)
    ensures Substitute(false, w) == if IsNumber(w) then "N" else w
  {
    assert w == w + [];
    MatchLenIs(w, w, []);
    if w != [] {
      InWordCopiesAll(w[1..]);
    }
  }

  lemma {:induction false} SubstituteShrinks(inWord: bool, s: string)
    ensures |Substitute(inWord, s)| <= |s|
    decreases |s|
  {
    if s != [] {
      if !inWord && MatchLen(s) > 0 {
        SubstituteShrinks(true, s[MatchLen(s)..]);
      } else {
        SubstituteShrinks(IsWord(s[0]), s[1..]);
      }
    }
  }

  // ---------------------------------------------------------------------------
  // Signature stability

  predicate Boundary(pre: string) {
    pre == [] || !IsWord(pre[|pre| - 1])
  }

  lemma SubstituteJoins(pre: string, rest: string)
    requires Boundary(pre)
    ensures Substitute(false, pre + rest) == Substitute(false, pre) + Substitute(false, rest)
  {
    if pre == [] {
      assert pre + rest == rest;
    } else {
      SubstituteSplits(false, pre, rest);
    }
  }

  lemma SubstituteNumberFirst(token: string, post: string)
    requires IsNumber(token) && EndsWord(post)
    ensures Substitute(false, token + post) == "N" + Substitute(true, post)
  {
    NumbersAreWords(token);
    MatchLenIs(token + post, token, post);
    assert (token + post)[|token|..] == post;
  }

  lemma SubstituteAround(pre: string, token: string, post: string)
    requires IsNumber(token) && Boundary(pre) && EndsWord(post)
    ensures Substitute(false, pre + (token + post)) == Substitute(false, pre) + ("N" + Substitute(true, post))
  {
    SubstituteNumberFirst(token, post);
    SubstituteJoins(pre, token + post);
  }

  lemma NormalizeAround(pre: string, token: string, post: string)
    requires IsNumber(token) && Boundary(pre) && EndsWord(post)
    ensures Normalize(pre + token + post) == Cut(Strip(Substitute(false, pre) + ("N" + Substitute(true, post))))
  {
    SubstituteAround(pre, token, post);
    assert pre + token + post == pre + (token + post);
  }

  /** Replacing a whole-word number anywhere in the text by any other number leaves the
      normalised message, and so the signature, unchanged. */
  lemma NumbersAreInterchangeable(pre: string, token: string, other: string, post: string)
    requires IsNumber(token) && IsNumber(other) && Boundary(pre) && EndsWord(post)
    ensures Normalize(pre + token + post) == Normalize(pre + other + post)
  {
    NormalizeAround(pre, token, post);
    NormalizeAround(pre, other, post);
  }

  // ---------------------------------------------------------------------------
  // Idempotence

  /** After substitution the first word is not a number. */
  lemma NothingLeftFirst(s: string)
    ensures MatchLen(Substitute(false, s)) == 0
  {
    var w, rest := FirstWord(s);
    if IsNumber(w) {
      SubstituteNumberFirst(w, rest);
      SubstituteKeepsEnd(true, rest);
      MatchLenIs("N" + Substitute(true, rest), "N", Substitute(true, rest));
    } else {
      SubstituteOtherFirst(w, rest);
      SubstituteKeepsEnd(w != [], rest);
      MatchLenIs(w + Substitute(w != [], rest), w, Substitute(w != [], rest));
    }
  }

  lemma SubstituteOtherFirst(w: string, rest: string)
    requires AllWord(w) && !IsNumber(w) && EndsWord(rest)
    ensures Substitute(false, w + rest) == w + Substitute(w != [], rest)
  {
    if w == [] {
      assert w + rest == rest;
    } else {
      var c, tail := w[0], w[1..];
      assert w == [c] + tail;
      MatchLenIs(w + rest, w, rest);
      Assoc([c], tail, rest);
      CopiesAfterFirst(c, tail, rest);
      Assoc([c], tail, Substitute(true, rest));
    }
  }

  lemma CopiesAfterFirst(c: char, tail: string, rest: string)
    requires IsWord(c) && AllWord(tail) && MatchLen([c] + (tail + rest)) == 0
    ensures Substitute(false, [c] + (tail + rest)) == [c] + (tail + Substitute(true, rest))
  {
    SubstituteSkips(false, c, tail + rest);
    InWordCopiesThen(tail, rest);
  }

  lemma {:induction false} InWordCopiesThen(w: string, rest: string)
    requires AllWord(w)
    ensures Substitute(true, w + rest) == w + Substitute(true, rest)
  {
    if w == [] {
      assert w + rest == rest;
    } else {
      assert (w + rest)[1..] == w[1..] + rest;
      InWordCopiesThen(w[1..], rest);
    }
  }

  lemma SubstituteKeepsEnd(inWord: bool, s: string)
    requires EndsWord(s)
    ensures EndsWord(Substitute(inWord, s))
  {
    assert s == [] + s;
    MatchLenIs(s, [], s);
  }

  lemma {:induction false} SubstituteTwice(inWord: bool, s: string)
    ensures Substitute(inWord, Substitute(inWord, s)) == Substitute(inWord, s)
    decreases |s|
  {
    if s != [] {
      NothingLeftFirst(s);
      var out := Substitute(inWord, s);
      if !inWord && MatchLen(s) > 0 {
        var rest := s[MatchLen(s)..];
        assert out[1..] == Substitute(true, rest);
        SubstituteTwice(true, rest);
      } else {
        assert out[1..] == Substitute(IsWord(s[0]), s[1..]);
        SubstituteTwice(IsWord(s[0]), s[1..]);
      }
    }
  }

  /** No number is left to replace. */
  predicate Clean(s: string) {
    Substitute(false, s) == s
  }

  lemma CleanPrefix(pre: string, rest: string)
    requires Boundary(pre) && Clean(pre + rest)
    ensures Clean(pre) && Clean(rest)
  {
    SubstituteJoins(pre, rest);
    SubstituteShrinks(false, pre);
    SubstituteShrinks(false, rest);
    assert (pre + rest)[..|pre|] == pre && (pre + rest)[|pre|..] == rest;
  }

  lemma {:induction false} LStripKeepsClean(s: string)
    requires Clean(s)
    ensures Clean(LStrip(s)) && (LStrip(s) != [] ==> !IsSpace(LStrip(s)[0]))
  {
    if s != [] && IsSpace(s[0]) {
      assert s == s[..1] + s[1..];
      CleanPrefix(s[..1], s[1..]);
      LStripKeepsClean(s[1..]);
    }
  }

  lemma {:induction false} RStripKeepsClean(s: string)
    requires Clean(s)
    ensures Clean(RStrip(s)) && RStrip(s) <= s
    ensures RStrip(s) != [] ==> !IsSpace(RStrip(s)[|RStrip(s)| - 1])
  {
    if s != [] && IsSpace(s[|s| - 1]) {
      var init, last := s[..|s| - 1], s[|s| - 1..];
      assert s == init + last;
      CleanBefore(init, last);
      RStripKeepsClean(init);
    }
  }

  /** Cutting a clean text before a space leaves it clean. */
  lemma {:induction false} SubstituteAppendSpace(inWord: bool, s: string, last: string)
    requires |last| == 1 && !IsWord(last[0])
    ensures Substitute(inWord, s + last) == Substitute(inWord, s) + last
    decreases |s|, 1
  {
    if s == [] {
      assert s + last == last && last[1..] == [];
      assert last == [] + last;
      MatchLenIs(last, [], last);
    } else {
      MatchIgnoresRest(s, last);
      if !inWord && MatchLen(s) > 0 {
        AppendAfterMatch(s, MatchLen(s), last);
      } else {
        AppendAfterChar(inWord, s, last);
      }
    }
  }

  lemma {:induction false} AppendAfterMatch(s: string, n: nat, last: string)
    requires |last| == 1 && !IsWord(last[0]) && 0 < n == MatchLen(s) == MatchLen(s + last)
    ensures Substitute(false, s + last) == Substitute(false, s) + last
    decreases |s|, 0
  {
    var tail := s[n..];
    assert (s + last)[n..] == tail + last;
    SubstituteHits(s + last, n, tail + last);
    SubstituteHits(s, n, tail);
    SubstituteAppendSpace(true, tail, last);
  }

  lemma {:induction false} AppendAfterChar(inWord: bool, s: string, last: string)
    requires |last| == 1 && !IsWord(last[0]) && s != []
    requires inWord || (MatchLen(s) == 0 && MatchLen(s + last) == 0)
    ensures Substitute(inWord, s + last) == Substitute(inWord, s) + last
    decreases |s|, 0
  {
    var c, tail := s[0], s[1..];
    assert s == [c] + tail && s + last == [c] + (tail + last);
    SubstituteSkips(inWord, c, tail + last);
    SubstituteSkips(inWord, c, tail);
    SubstituteAppendSpace(IsWord(c), tail, last);
    Assoc([c], Substitute(IsWord(c), tail), last);
  }

  lemma CleanBefore(s: string, last: string)
    requires |last| == 1 && !IsWord(last[0]) && Clean(s + last)
    ensures Clean(s)
  {
    SubstituteAppendSpace(false, s, last);
    assert (s + last)[..|s|] == s;
    assert (Substitute(false, s) + last)[..|s|] == Substitute(false, s);
  }

  /** A text with no space at either end. */
  predicate Trimmed(s: string) {
    s == [] || (!IsSpace(s[0]) && !IsSpace(s[|s| - 1]))
  }

  /** The stripped, substituted text before it is cut. */
  function Core(m: string): string {
    Strip(Substitute(false, m))
  }

  lemma CoreIsCleanAndTrimmed(m: string)
    ensures Clean(Core(m)) && Trimmed(Core(m))
  {
    var s := Substitute(false, m);
    SubstituteTwice(false, m);
    LStripKeepsClean(s);
    RStripKeepsClean(LStrip(s));
  }

  /** Where the word at the very end of the text starts. */
  function LastWordAt(s: string): (n: nat)
    ensures n <= |s| && (n == 0 || !IsWord(s[n - 1]))
    ensures forall i :: n <= i < |s| ==> IsWord(s[i])
  {
    if s != [] && IsWord(s[|s| - 1]) then LastWordAt(s[..|s| - 1]) else |s|
  }

  function LastWord(s: string): (w: string)
    ensures AllWord(w)
  {
    s[LastWordAt(s)..]
  }

  lemma LastWordIs(pre: string, w: string)
    requires Boundary(pre) && AllWord(w)
    ensures LastWord(pre + w) == w
  {
    var s := pre + w;
    assert pre != [] ==> s[|pre| - 1] == pre[|pre| - 1];
    assert forall i :: |pre| <= i < |s| ==> s[i] == w[i - |pre|];
    assert LastWordAt(s) == |pre|;
    assert s[|pre|..] == w;
  }

  /** Where the cut leaves a text that normalises to itself. */
  predicate CutsCleanly(core: string) {
    |core| <= LIMIT || (!IsSpace(core[LIMIT - 1]) && !IsNumber(LastWord(core[..LIMIT])))
  }

  /** Normalising a prefix of a clean, trimmed text. */
  lemma SubstitutePrefix(core: string, n: nat)
    requires Clean(core) && n <= |core|
    ensures var u := core[..n];
            Substitute(false, u) == if IsNumber(LastWord(u)) then u[..LastWordAt(u)] + "N" else u
  {
    var u := core[..n];
    var k := LastWordAt(u);
    assert u[..k] == core[..k] && u == u[..k] + u[k..];
    CleanCut(core, k);
    SubstituteLast(u[..k], u[k..]);
  }

  lemma CleanCut(core: string, k: nat)
    requires Clean(core) && k <= |core| && Boundary(core[..k])
    ensures Clean(core[..k])
  {
    assert core == core[..k] + core[k..];
    CleanPrefix(core[..k], core[k..]);
  }

  lemma SubstituteLast(pre: string, w: string)
    requires Clean(pre) && Boundary(pre) && AllWord(w)
    ensures Substitute(false, pre + w) == pre + if IsNumber(w) then "N" else w
  {
    SubstituteWord(w);
    SubstituteJoins(pre, w);
  }

  lemma TrimmedIsStripped(s: string)
    ensures Trimmed(s) <==> Strip(s) == s
  {
    StripShrinks(s);
    if !Trimmed(s) && !IsSpace(s[0]) {
      StripShrinks(s[..|s| - 1]);
    } else if !Trimmed(s) {
      StripShrinks(s[1..]);
    }
  }

  lemma {:induction false} StripShrinks(s: string)
    ensures |LStrip(s)| <= |s| && |RStrip(s)| <= |s| && |Strip(s)| <= |s|
    decreases |s|
  {
    if s != [] {
      StripShrinks(s[1..]);
      StripShrinks(s[..|s| - 1]);
      if IsSpace(s[0]) {
        assert Strip(s) == Strip(s[1..]);
      }
    }
  }

  /** Normalisation is idempotent exactly when the cut neither ends in a space nor leaves a
      number as the last word; in particular whenever nothing is cut off. */
  lemma NormalizeTwiceIff(m: string)
    ensures Normalize(Normalize(m)) == Normalize(m) <==> CutsCleanly(Core(m))
  {
    var t := Core(m);
    var u := Cut(t);
    CoreIsCleanAndTrimmed(m);
    if |t| <= LIMIT {
      TrimmedIsStripped(t);
    } else {
      var w := LastWord(u);
      SubstitutePrefix(t, LIMIT);
      if IsNumber(w) {
        var v := u[..LastWordAt(u)] + "N";
        NumbersAreWords(w);
        assert Trimmed(v);
        TrimmedIsStripped(v);
        assert v[|v| - 1] == 'N' && u[LIMIT - 1] == w[|w| - 1] != 'N';
      } else {
        TrimmedIsStripped(u);
        StripShrinks(u);
      }
    }
  }

  /** The text `letters 1x` is its own core. */
  lemma SpacedWordsAreCore(letters: string)
    requires letters != [] && forall i :: 0 <= i < |letters| ==> letters[i] == 'a'
    ensures Core(letters + " " + "1x") == letters + " " + "1x"
  {
    SubstituteWord(letters);
    SubstituteAppendSpace(false, letters, " ");
    SubstituteWord("1x");
    SubstituteSplits(false, letters + " ", "1x");
    TrimmedIsStripped(letters + " " + "1x");
  }

  /** A text that the cut breaks: 158 letters, a space and the word "1x". */
  lemma CutCanBreakIdempotence()
    ensures exists m :: |Core(m)| == LIMIT + 1 && Normalize(Normalize(m)) != Normalize(m)
  {
    var letters := seq(LIMIT - 2, _ => 'a');
    var m := letters + " " + "1x";
    SpacedWordsAreCore(letters);
    var u := m[..LIMIT];
    assert u == letters + " " + "1";
    LastWordIs(letters + " ", "1");
    assert IsNumber("1");
    NormalizeTwiceIff(m);
  }
}
