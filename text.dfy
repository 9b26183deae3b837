/**
 * The Python string operations the scripts rely on, over ASCII.
 * `str.split()`, `str.strip()`, `str.split(sep)`, `str.startswith`, `str.endswith`,
 * `in` on strings, `str.replace`, slicing with a clamped start, `str(n)`, `int(s)`,
 * `str.isupper()` and `str.istitle()`.
 */
module Text {
  import opened Wrappers

  /** The characters `str.split()` and `str.strip()` treat as whitespace, within ASCII:
      space, \t \n \v \f \r, and the separators \x1c to \x1f. */
  predicate IsSpace(c: char) {
    var n := c as int;
    n == 32 || 9 <= n <= 13 || 28 <= n <= 31
  }

  predicate IsDigit(c: char) { '0' <= c <= '9' }
  predicate IsUpperChar(c: char) { 'A' <= c <= 'Z' }
  predicate IsLowerChar(c: char) { 'a' <= c <= 'z' }

  predicate AllDigits(s: string) { forall i :: 0 <= i < |s| ==> IsDigit(s[i]) }
  predicate AllSpace(s: string) { forall i :: 0 <= i < |s| ==> IsSpace(s[i]) }

  /** A field of `str.split()`: non-empty and free of whitespace. */
  predicate IsWord(w: string) { w != [] && forall i :: 0 <= i < |w| ==> !IsSpace(w[i]) }

  // ---------------------------------------------------------------- prefixes, suffixes

  predicate StartsWith(s: string, p: string) { |p| <= |s| && s[..|p|] == p }
  predicate EndsWith(s: string, p: string) { |p| <= |s| && s[|s| - |p|..] == p }

  /** `p in s`: `p` occurs as a contiguous substring of `s`. */
  predicate Contains(s: string, p: string)
    decreases |s|
  {
    StartsWith(s, p) || (s != [] && Contains(s[1..], p))
  }

  lemma {:induction false} ContainsAt(s: string, p: string, i: nat)
    requires i + |p| <= |s| && s[i..i + |p|] == p
    ensures Contains(s, p)
    decreases i
  {
    if i > 0 {
      assert s[1..][i - 1..i - 1 + |p|] == s[i..i + |p|];
      ContainsAt(s[1..], p, i - 1);
    }
  }

  /** Python's `s[k:]`: the slice clamps at the end instead of failing. */
  function Drop(s: string, k: nat): (r: string)
    ensures k <= |s| ==> r == s[k..]
    ensures k >= |s| ==> r == []
  {
    if k <= |s| then s[k..] else []
  }

  // ---------------------------------------------------------------- split() and strip()

  /** Length of the leading run of non-whitespace characters. */
  function WordLen(s: string): (n: nat)
    ensures n <= |s|
    ensures forall i :: 0 <= i < n ==> !IsSpace(s[i])
    ensures n < |s| ==> IsSpace(s[n])
  {
    if s == [] || IsSpace(s[0]) then 0 else 1 + WordLen(s[1..])
  }

  /** `s.split()` with no argument: the maximal runs of non-whitespace, in order.
      Leading and trailing whitespace yield nothing, so `s.strip().split()` is the same. */
  function Fields(s: string): (r: seq<string>)
    ensures forall i :: 0 <= i < |r| ==> IsWord(r[i])
    decreases |s|
  {
    if s == [] then []
    else if IsSpace(s[0]) then Fields(s[1..])
    else
      var n := WordLen(s);
      [s[..n]] + Fields(s[n..])
  }

  lemma {:induction false} FieldsOfSpace(s: string)
    requires AllSpace(s)
    ensures Fields(s) == []
    decreases |s|
  {
    if s != [] { FieldsOfSpace(s[1..]); }
  }

  lemma {:induction false} WordLenOfWord(w: string, rest: string)
    requires IsWord(w)
    requires rest == [] || IsSpace(rest[0])
    ensures WordLen(w + rest) == |w|
    decreases |w|
  {
    if |w| > 1 {
      assert (w + rest)[1..] == w[1..] + rest;
      WordLenOfWord(w[1..], rest);
    } else {
      assert (w + rest)[1..] == rest;
    }
  }

  /** A word followed by whitespace (or nothing) is the first field. */
  lemma FieldsOfWord(w: string, rest: string)
    requires IsWord(w)
    requires rest == [] || IsSpace(rest[0])
    ensures Fields(w + rest) == [w] + Fields(rest)
  {
    WordLenOfWord(w, rest);
    assert (w + rest)[..|w|] == w;
    assert (w + rest)[|w|..] == rest;
  }

  /** The line `token\tlabel\n` written by the augmenter reads back as the two fields. */
  lemma FieldsOfTabLine(tok: string, lab: string)
    requires IsWord(tok) && IsWord(lab)
    ensures Fields(tok + "\t" + lab + "\n") == [tok, lab]
  {
    assert tok + "\t" + lab + "\n" == tok + ("\t" + lab + "\n");
    FieldsOfWord(tok, "\t" + lab + "\n");
    assert ("\t" + lab + "\n")[1..] == lab + "\n";
    FieldsOfWord(lab, "\n");
    assert Fields("\n"[1..]) == [];
  }

  function TrimLeft(s: string): (r: string)
    ensures |r| <= |s| && r == s[|s| - |r|..]
    ensures r == [] || !IsSpace(r[0])
    ensures AllSpace(s[..|s| - |r|])
  {
    if s != [] && IsSpace(s[0]) then
      var r := TrimLeft(s[1..]);
      assert s[..|s| - |r|] == [s[0]] + s[1..][..|s[1..]| - |r|];
      r
    else s
  }

  function TrimRight(s: string): (r: string)
    ensures |r| <= |s| && r == s[..|r|]
    ensures r == [] || !IsSpace(r[|r| - 1])
    ensures AllSpace(s[|r|..])
  {
    if s != [] && IsSpace(s[|s| - 1]) then
      var r := TrimRight(s[..|s| - 1]);
      assert s[|r|..] == s[..|s| - 1][|r|..] + [s[|s| - 1]];
      r
    else s
  }

  /** `s.strip()`. */
  function Strip(s: string): (r: string)
    ensures r == [] || (!IsSpace(r[0]) && !IsSpace(r[|r| - 1]))
  {
    TrimRight(TrimLeft(s))
  }

  /** `s.strip() == ""` holds exactly for the lines made only of whitespace. */
  lemma StripEmpty(s: string)
    ensures Strip(s) == [] <==> AllSpace(s)
  {
    var l := TrimLeft(s);
    assert s == s[..|s| - |l|] + l;
    if Strip(s) == [] {
      assert AllSpace(l[0..]);
    }
  }

  // ---------------------------------------------------------------- split(sep) and join

  /** `s.split(sep)` for a one-character separator: always at least one piece. */
  function SplitOn(s: string, sep: char): (r: seq<string>)
    ensures |r| >= 1
    ensures forall i :: 0 <= i < |r| ==> sep !in r[i]
  {
    if s == [] then [""]
    else
      var rest := SplitOn(s[1..], sep);
      if s[0] == sep then [""] + rest else [[s[0]] + rest[0]] + rest[1..]
  }

  /** `sep.join(pieces)`. */
  function Join(pieces: seq<string>, sep: char): string
    requires |pieces| >= 1
  {
    if |pieces| == 1 then pieces[0] else pieces[0] + [sep] + Join(pieces[1..], sep)
  }

  /** Splitting and joining on the same separator gives back the string. */
  lemma {:induction false} JoinSplitOn(s: string, sep: char)
    ensures Join(SplitOn(s, sep), sep) == s
  {
    if s != [] {
      var rest := SplitOn(s[1..], sep);
      JoinSplitOn(s[1..], sep);
      if s[0] == sep {
        assert ([""] + rest)[1..] == rest;
      } else if |rest| == 1 {
      } else {
        var r := [[s[0]] + rest[0]] + rest[1..];
        assert r[1..] == rest[1..];
      }
    }
  }

  /** A string with `sep` at index 1 (and not at 0) has a second piece: what follows up to the next `sep`. */
  lemma SplitSecondPiece(s: string, sep: char)
    requires |s| >= 2 && s[0] != sep && s[1] == sep
    ensures |SplitOn(s, sep)| >= 2
  {
    assert SplitOn(s[1..], sep) == [""] + SplitOn(s[2..], sep);
  }

  /** A string without the separator is one piece. */
  lemma {:induction false} SplitOnFree(s: string, sep: char)
    requires sep !in s
    ensures SplitOn(s, sep) == [s]
    decreases |s|
  {
    if s != [] {
      SplitOnFree(s[1..], sep);
      assert [s[0]] + s[1..] == s;
    }
  }

  /** The first piece ends at the first separator. */
  lemma {:induction false} SplitOnFirst(a: string, sep: char, b: string)
    requires sep !in a
    ensures SplitOn(a + [sep] + b, sep) == [a] + SplitOn(b, sep)
    decreases |a|
  {
    var s := a + [sep] + b;
    if a == [] {
      assert s[1..] == b;
    } else {
      assert s[1..] == a[1..] + [sep] + b;
      SplitOnFirst(a[1..], sep, b);
      assert [s[0]] + a[1..] == a;
    }
  }

  /** The whitespace around two words and a tab goes, the tab stays. */
  lemma StripTabLine(tok: string, tag: string)
    requires IsWord(tok) && IsWord(tag)
    ensures Strip(tok + "\t" + tag + "\n") == tok + "\t" + tag
  {
    var s := tok + "\t" + tag + "\n";
    assert s[0] == tok[0];
    assert TrimLeft(s) == s;
    assert s[..|s| - 1] == tok + "\t" + tag;
    assert (tok + "\t" + tag)[|tok + "\t" + tag| - 1] == tag[|tag| - 1];
  }

  /** A `token<TAB>tag` line splits on the tab into the two words. */
  lemma SplitTabLine(tok: string, tag: string)
    requires IsWord(tok) && IsWord(tag)
    ensures SplitOn(tok + "\t" + tag, '\t') == [tok, tag]
  {
    assert '\t' !in tok && '\t' !in tag by {
      assert IsSpace('\t');
    }
    SplitOnFirst(tok, '\t', tag);
    SplitOnFree(tag, '\t');
    assert tok + "\t" + tag == tok + ['\t'] + tag;
  }

  // ---------------------------------------------------------------- replace

  /** `s.replace(pat, rep)`: every non-overlapping occurrence, scanning left to right. */
  function ReplaceAll(s: string, pat: string, rep: string): (r: string)
    requires pat != []
    decreases |s|
  {
    if |s| < |pat| then s
    else if s[..|pat|] == pat then rep + ReplaceAll(s[|pat|..], pat, rep)
    else [s[0]] + ReplaceAll(s[1..], pat, rep)
  }

  lemma ReplaceAllHead(s: string, pat: string, rep: string)
    requires pat != [] && StartsWith(s, pat)
    ensures StartsWith(ReplaceAll(s, pat, rep), rep)
  {
    var rest := ReplaceAll(s[|pat|..], pat, rep);
    assert (rep + rest)[..|rep|] == rep;
  }

  // ---------------------------------------------------------------- numbers

  function DigitChar(d: nat): (c: char)
    requires d < 10
    ensures IsDigit(c)
  {
    ['0', '1', '2', '3', '4', '5', '6', '7', '8', '9'][d]
  }

  function DigitValue(c: char): nat
    requires IsDigit(c)
  {
    (c as int) - ('0' as int)
  }

  /** `str(n)` for a natural number: its decimal digits, no leading zeros. */
  function NatToString(n: nat): (r: string)
    ensures r != [] && AllDigits(r)
  {
    if n < 10 then [DigitChar(n)] else NatToString(n / 10) + [DigitChar(n % 10)]
  }

  /** `str(i)` for an integer. */
  function IntToString(i: int): string {
    if i < 0 then "-" + NatToString(-i) else NatToString(i)
  }

  /** The value of a non-empty run of decimal digits. */
  function DigitsValue(s: string): nat
    requires AllDigits(s)
  {
    if s == [] then 0 else DigitsValue(s[..|s| - 1]) * 10 + DigitValue(s[|s| - 1])
  }

  lemma DigitRoundTrip(d: nat)
    requires d < 10
    ensures DigitValue(DigitChar(d)) == d
  {
  }

  /** Reading back what `NatToString` wrote gives the number. */
  lemma {:induction false} NatToStringRoundTrip(n: nat)
    ensures DigitsValue(NatToString(n)) == n
  {
    if n < 10 {
      DigitRoundTrip(n);
    } else {
      var r := NatToString(n);
      NatToStringRoundTrip(n / 10);
      assert r[..|r| - 1] == NatToString(n / 10);
      DigitRoundTrip(n % 10);
    }
  }

  /** `int(s)` for ASCII input: surrounding whitespace, an optional sign, then one or more
      digits; anything else makes Python raise ValueError, here `None`. */
  function ParseInt(s: string): (r: Option<int>)
  {
    var t := Strip(s);
    if t != [] && (t[0] == '+' || t[0] == '-') then
      var d := t[1..];
      if d != [] && AllDigits(d) then
        var v: int := DigitsValue(d);
        Some(if t[0] == '-' then -v else v)
      else None
    else if t != [] && AllDigits(t) then Some(DigitsValue(t))
    else None
  }

  lemma StripDigits(s: string)
    requires s != [] && AllDigits(s)
    ensures Strip(s) == s
  {
    assert !IsSpace(s[0]);
    assert TrimLeft(s) == s;
    assert !IsSpace(s[|s| - 1]);
    assert TrimRight(s) == s;
  }

  lemma ParseDigits(s: string)
    requires s != [] && AllDigits(s)
    ensures ParseInt(s) == Some(DigitsValue(s) as int)
  {
    StripDigits(s);
    assert IsDigit(s[0]);
  }

  lemma ParseNatToString(n: nat)
    ensures ParseInt(NatToString(n)) == Some(n)
  {
    ParseDigits(NatToString(n));
    NatToStringRoundTrip(n);
  }

  // ---------------------------------------------------------------- case predicates

  predicate IsCased(c: char) { IsUpperChar(c) || IsLowerChar(c) }

  /** `s.isupper()`: some cased character, and none of them lower-case. */
  predicate IsUpper(s: string) {
    (exists i :: 0 <= i < |s| && IsCased(s[i])) && forall i :: 0 <= i < |s| ==> !IsLowerChar(s[i])
  }

  /** `s.istitle()`, scanning with the flag "the previous character is cased":
      an upper-case letter must not follow a cased one, a lower-case letter must,
      and at least one cased character must occur. */
  predicate IsTitleFrom(s: string, prevCased: bool, seenCased: bool)
    decreases |s|
  {
    if s == [] then seenCased
    else if IsUpperChar(s[0]) then !prevCased && IsTitleFrom(s[1..], true, true)
    else if IsLowerChar(s[0]) then prevCased && IsTitleFrom(s[1..], true, true)
    else IsTitleFrom(s[1..], false, seenCased)
  }

  predicate IsTitle(s: string) { IsTitleFrom(s, false, false) }

  /** A single upper-case letter is both upper-case and a title. */
  lemma SingleUpper(c: char)
    requires IsUpperChar(c)
    ensures IsUpper([c]) && IsTitle([c])
  {
    assert IsCased([c][0]);
  }

  // ---------------------------------------------------------------- concatenation

  function Concat(ws: seq<string>): string {
    if ws == [] then [] else Concat(ws[..|ws| - 1]) + ws[|ws| - 1]
  }

  /** One more word adds its characters at the end. */
  lemma ConcatSnoc(ws: seq<string>, w: string)
    ensures Concat(ws + [w]) == Concat(ws) + w
  {
    assert (ws + [w])[..|ws|] == ws;
  }

  lemma {:induction false} ConcatAppend(a: seq<string>, b: seq<string>)
    ensures Concat(a + b) == Concat(a) + Concat(b)
    decreases |b|
  {
    if b == [] {
      assert a + b == a;
    } else {
      var init, w := b[..|b| - 1], b[|b| - 1];
      assert b == init + [w];
      assert a + b == (a + init) + [w];
      ConcatAppend(a, init);
      ConcatSnoc(a + init, w);
      ConcatSnoc(init, w);
    }
  }
}
