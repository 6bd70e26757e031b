/** What normalisation does to a text, without the scan: numbers become N and nothing else is
    touched, the ends are stripped, and 160 characters are kept. */
module NormalForm {
  import opened Base
  import opened Text = Normalize

  /** The character classes by code: digits, hexadecimal digits, word characters, white space. */
  lemma CharacterClasses(c: char)
    ensures var n := c as int;
            && (IsDigit(c) <==> 48 <= n <= 57)
            && (IsHex(c) <==> 48 <= n <= 57 || 65 <= n <= 70 || 97 <= n <= 102)
            && (IsWord(c) <==> 48 <= n <= 57 || 65 <= n <= 90 || n == 95 || 97 <= n <= 122)
            && (IsSpace(c) <==> 9 <= n <= 13 || 28 <= n <= 32)
  {
  }

  /** A number as the source's pattern has it: decimal digits, or 0x and hexadecimal ones. */
  lemma NumberIs(w: string)
    ensures IsNumber(w) <==>
            || (|w| >= 1 && forall i :: 0 <= i < |w| ==> w[i] in "0123456789")
            || (|w| >= 3 && w[..2] == "0x" && forall i :: 2 <= i < |w| ==> w[i] in "0123456789abcdefABCDEF")
  {
    forall c: char ensures IsDigit(c) <==> c in "0123456789" {
      DigitIs(c);
    }
    forall c: char ensures IsHex(c) <==> c in "0123456789abcdefABCDEF" {
      HexIs(c);
    }
    assert |w| >= 3 ==> (w[..2] == "0x" <==> w[0] == '0' && w[1] == 'x');
  }

  lemma DigitIs(c: char)
    ensures IsDigit(c) <==> c in "0123456789"
  {
    if IsDigit(c) {
      assert "0123456789"[c as int - 48] == c;
    }
  }

  lemma HexIs(c: char)
    ensures IsHex(c) <==> c in "0123456789abcdefABCDEF"
  {
    if IsDigit(c) {
      assert "0123456789abcdefABCDEF"[c as int - 48] == c;
    } else if 'a' <= c <= 'f' {
      assert "0123456789abcdefABCDEF"[10 + c as int - 97] == c;
    } else if 'A' <= c <= 'F' {
      assert "0123456789abcdefABCDEF"[16 + c as int - 65] == c;
    }
  }

  /** Where no word goes on, it does not matter whether one came before. */
  lemma StateForgets(rest: string)
    requires EndsWord(rest)
    ensures Substitute(true, rest) == Substitute(false, rest)
  {
    assert rest == [] + rest;
    MatchLenIs(rest, [], rest);
  }

  /** A whole-word number becomes N, and what stands on either side of it is substituted on its
      own. */
  lemma NumberBecomesN(pre: string, token: string, post: string)
    requires IsNumber(token) && Boundary(pre) && EndsWord(post)
    ensures Substitute(false, pre + (token + post)) == Substitute(false, pre) + ("N" + Substitute(false, post))
  {
    SubstituteAround(pre, token, post);
    StateForgets(post);
  }

  /** The characters from `i` up to `j` are a whole word that is a number. */
  predicate NumberAt(s: string, i: nat, j: nat) {
    i < j <= |s| && Boundary(s[..i]) && EndsWord(s[j..]) && IsNumber(s[i..j])
  }

  predicate NumberFree(s: string) {
    forall i: nat, j: nat {:trigger NumberAt(s, i, j)} :: i < j <= |s| ==> !NumberAt(s, i, j)
  }

  lemma NumberShifts(w: string, rest: string, i: nat, j: nat)
    requires NumberAt(rest, i, j) && (w == [] || Boundary(w) || EndsWord(rest))
    ensures NumberAt(w + rest, |w| + i, |w| + j)
  {
    var s := w + rest;
    NumbersAreWords(rest[i..j]);
    assert IsWord(rest[i..j][0]);
    assert s[|w| + j..] == rest[j..];
    assert s[|w| + i..|w| + j] == rest[i..j];
    assert i > 0 ==> s[|w| + i - 1] == rest[i - 1] == rest[..i][i - 1];
    assert i == 0 && w != [] ==> s[|w| - 1] == w[|w| - 1];
  }

  lemma RestIsNumberFree(w: string, rest: string)
    requires NumberFree(w + rest) && (w == [] || Boundary(w) || EndsWord(rest))
    ensures NumberFree(rest)
  {
    forall i: nat, j: nat | i < j <= |rest| ensures NumberAt(rest, i, j) ==> NumberAt(w + rest, |w| + i, |w| + j) {
      if NumberAt(rest, i, j) {
        NumberShifts(w, rest, i, j);
      }
    }
  }

  lemma {:induction false} NumberFreeIsKept(s: string)
    requires NumberFree(s)
    ensures Substitute(false, s) == s
    decreases |s|
  {
    var w, rest := FirstWord(s);
    assert s == w + rest;
    if w != [] {
      assert s[..0] == [] && s[|w|..] == rest && s[0..|w|] == w;
      assert !NumberAt(s, 0, |w|);
      RestIsNumberFree(w, rest);
      NumberFreeIsKept(rest);
      SubstituteOtherFirst(w, rest);
      StateForgets(rest);
    } else if rest != [] {
      var c, tail := rest[0], rest[1..];
      assert s == [c] + tail;
      RestIsNumberFree([c], tail);
      NumberFreeIsKept(tail);
      MatchLenIs(s, [], s);
      SubstituteSkips(false, c, tail);
    }
  }

  /** Substitution leaves exactly the texts alone that hold no whole-word number. */
  lemma SubstituteChangesIff(s: string)
    ensures Substitute(false, s) == s <==> NumberFree(s)
  {
    if NumberFree(s) {
      NumberFreeIsKept(s);
    } else {
      var i: nat, j: nat :| i < j <= |s| && NumberAt(s, i, j);
      var pre, token, post := s[..i], s[i..j], s[j..];
      assert s == pre + (token + post);
      NumberBecomesN(pre, token, post);
      SubstituteShrinks(false, pre);
      SubstituteShrinks(false, post);
      NumbersAreWords(token);
      if Substitute(false, s) == s {
        NeverN(pre, token, post, Substitute(false, pre), Substitute(false, post));
      }
    }
  }

  lemma NeverN(pre: string, token: string, post: string, left: string, right: string)
    requires IsNumber(token) && |left| <= |pre| && |right| <= |post|
    ensures left + ("N" + right) != pre + (token + post)
  {
    if |left| == |pre| && |token| == 1 && |right| == |post| {
      assert (left + ("N" + right))[|pre|] == 'N' && (pre + (token + post))[|pre|] == token[0];
    }
  }

  /** Stripping takes exactly the white space at the ends. */
  lemma StripIs(s: string) returns (i: nat, j: nat)
    ensures i <= j <= |s| && Strip(s) == s[i..j] && Trimmed(s[i..j])
    ensures forall k :: 0 <= k < i || j <= k < |s| ==> IsSpace(s[k])
  {
    i := LeadingSpace(s);
    var t := s[i..];
    var n := TrailingSpace(t);
    j := i + n;
    assert s[i..j] == t[..n];
    assert forall k :: j <= k < |s| ==> s[k] == t[k - i];
  }

  lemma {:induction false} LeadingSpace(s: string) returns (i: nat)
    ensures i <= |s| && LStrip(s) == s[i..] && (i < |s| ==> !IsSpace(s[i]))
    ensures forall k :: 0 <= k < i ==> IsSpace(s[k])
  {
    i := 0;
    if s != [] && IsSpace(s[0]) {
      var k := LeadingSpace(s[1..]);
      i := k + 1;
      assert s[1..][k..] == s[i..];
    }
  }

  lemma {:induction false} TrailingSpace(s: string) returns (n: nat)
    ensures n <= |s| && RStrip(s) == s[..n] && (n > 0 ==> !IsSpace(s[n - 1]))
    ensures forall k :: n <= k < |s| ==> IsSpace(s[k])
    decreases |s|
  {
    n := |s|;
    if s != [] && IsSpace(s[|s| - 1]) {
      n := TrailingSpace(s[..|s| - 1]);
      assert s[..|s| - 1][..n] == s[..n];
    } else {
      assert s[..n] == s;
    }
  }

  /** The normalised text is the first 160 characters of the substituted and stripped one. */
  lemma NormalizeIs(m: string)
    ensures Text.Normalize(m) <= Core(m) && |Text.Normalize(m)| == if |Core(m)| <= 160 then |Core(m)| else 160
  {
  }
}
