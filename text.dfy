/**
 * The string primitives the label code relies on, stated as Python defines
 * them: `str.strip()`, `str.split()` with no separator, `int(token)`,
 * `str(n)`, `"\n".join(lines)` and the line-by-line iteration of a text file.
 */
module Text {
  import opened Wrappers

  /** Python's `str.isspace()`: the characters `strip()` and `split()` treat as blanks. */
  predicate IsSpace(c: char) {
    c == ' ' || ('\t' <= c <= '\r') || ('\U{1C}' <= c <= '\U{1F}')
    || c == '\U{85}' || c == '\U{A0}' || c == '\U{1680}'
    || ('\U{2000}' <= c <= '\U{200A}') || c == '\U{2028}' || c == '\U{2029}'
    || c == '\U{202F}' || c == '\U{205F}' || c == '\U{3000}'
  }

  predicate AllSpace(s: string) {
    forall i :: 0 <= i < |s| ==> IsSpace(s[i])
  }

  /** What `str.split()` can return as one element: non-empty, no blanks. */
  predicate IsToken(w: string) {
    |w| > 0 && forall i :: 0 <= i < |w| ==> !IsSpace(w[i])
  }

  /** `s.lstrip()` */
  function TrimLeft(s: string): (r: string)
    ensures |r| <= |s| && r == s[|s| - |r|..]
    ensures AllSpace(s[..|s| - |r|])
    ensures r == [] || !IsSpace(r[0])
  {
    if s != [] && IsSpace(s[0]) then
      var r := TrimLeft(s[1..]);
      assert s[..|s| - |r|] == [s[0]] + s[1..][..|s| - 1 - |r|];
      AllSpaceCons(s[0], s[1..][..|s| - 1 - |r|]);
      r
    else s
  }

  lemma AllSpaceCons(c: char, w: string)
    requires IsSpace(c) && AllSpace(w)
    ensures AllSpace([c] + w)
  {
  }

  lemma AllSpaceSnoc(w: string, c: char)
    requires AllSpace(w) && IsSpace(c)
    ensures AllSpace(w + [c])
  {
  }

  /** `s.rstrip()` */
  function TrimRight(s: string): (r: string)
    ensures |r| <= |s| && r == s[..|r|]
    ensures AllSpace(s[|r|..])
    ensures r == [] || !IsSpace(r[|r| - 1])
  {
    if s != [] && IsSpace(s[|s| - 1]) then
      var r := TrimRight(s[..|s| - 1]);
      assert s[|r|..] == s[..|s| - 1][|r|..] + [s[|s| - 1]];
      AllSpaceSnoc(s[..|s| - 1][|r|..], s[|s| - 1]);
      assert r == s[..|r|];
      r
    else s
  }

  /** `s.strip()` */
  function Strip(s: string): string {
    TrimRight(TrimLeft(s))
  }

  /** Length of the run of non-blank characters that starts `s`. */
  function WordLength(s: string): (n: nat)
    ensures n <= |s|
    ensures forall i :: 0 <= i < n ==> !IsSpace(s[i])
    ensures n == |s| || IsSpace(s[n])
  {
    if s == [] || IsSpace(s[0]) then 0 else 1 + WordLength(s[1..])
  }

  /** `s.split()`: the maximal runs of non-blank characters, in order. */
  function Split(s: string): (r: seq<string>)
    ensures forall k :: 0 <= k < |r| ==> IsToken(r[k])
    decreases |s|
  {
    var t := TrimLeft(s);
    if t == [] then []
    else
      var n := WordLength(t);
      assert n > 0 && IsToken(t[..n]);
      var rest := Split(t[n..]);
      ConsTokens(t[..n], rest);
      [t[..n]] + rest
  }

  lemma ConsTokens(w: string, ws: seq<string>)
    requires IsToken(w) && forall k :: 0 <= k < |ws| ==> IsToken(ws[k])
    ensures forall k :: 0 <= k < |[w] + ws| ==> IsToken(([w] + ws)[k])
  {
    forall k | 0 <= k < |[w] + ws|
      ensures IsToken(([w] + ws)[k])
    {
      if k > 0 {
        assert ([w] + ws)[k] == ws[k - 1];
      }
    }
  }

  /** `line.strip().split()`, the way every label reader in the program tokenises a line. */
  function Tokens(line: string): seq<string> {
    Split(Strip(line))
  }

  /** The line `f"{a} {b} {c}"`. */
  function Line3(a: string, b: string, c: string): (r: string)
    ensures |r| == |a| + |b| + |c| + 2
  {
    a + " " + b + " " + c
  }

  lemma TrimLeftIdempotent(s: string)
    ensures TrimLeft(TrimLeft(s)) == TrimLeft(s)
  {
  }

  lemma StripIdempotent(s: string)
    ensures Strip(Strip(s)) == Strip(s)
  {
    var r := Strip(s);
    if r != [] {
      assert TrimLeft(r) == r;
    }
  }

  lemma SplitAllSpace(w: string)
    requires AllSpace(w)
    ensures Split(w) == []
  {
    var t := TrimLeft(w);
    if t != [] {
      assert t[0] == w[|w| - |t|];
    }
  }

  /** A blank in front of a line does not change its tokens. */
  lemma SplitSpaceFront(c: char, s: string)
    requires IsSpace(c)
    ensures Split([c] + s) == Split(s)
  {
    assert ([c] + s)[1..] == s;
  }

  /** A token followed by a blank (or by nothing) splits off as the first element. */
  lemma SplitToken(w: string, rest: string)
    requires IsToken(w)
    requires rest == [] || IsSpace(rest[0])
    ensures Split(w + rest) == [w] + Split(rest)
  {
    var s := w + rest;
    assert TrimLeft(s) == s;
    var n := WordLength(s);
    assert forall i :: 0 <= i < |w| ==> s[i] == w[i];
    assert |w| == |s| || s[|w|] == rest[0];
    assert n == |w|;
    assert s[..n] == w && s[n..] == rest;
  }

  /** Trailing blanks (the `"\n"` a file line ends with, say) do not change the tokens. */
  lemma {:induction false} SplitTrailingSpace(s: string, w: string)
    requires AllSpace(w)
    ensures Split(s + w) == Split(s)
    decreases |s|
  {
    if s == [] {
      assert s + w == w;
      SplitAllSpace(w);
      SplitAllSpace(s);
    } else if IsSpace(s[0]) {
      assert s + w == [s[0]] + (s[1..] + w);
      assert s == [s[0]] + s[1..];
      SplitSpaceFront(s[0], s[1..] + w);
      SplitTrailingSpace(s[1..], w);
      SplitSpaceFront(s[0], s[1..]);
    } else {
      var n := WordLength(s);
      var tok, rest := s[..n], s[n..];
      assert s == tok + rest;
      assert IsToken(tok);
      assert s + w == tok + (rest + w);
      SplitToken(tok, rest + w);
      SplitTrailingSpace(rest, w);
      SplitToken(tok, rest);
    }
  }

  /** `line.strip().split()` has the same tokens as `line.split()`. */
  lemma TokensIgnoreStrip(s: string)
    ensures Tokens(s) == Split(s)
  {
    var l := TrimLeft(s);
    var r := TrimRight(l);
    assert l == r + l[|r|..];
    SplitTrailingSpace(r, l[|r|..]);
    TrimLeftIdempotent(s);
  }

  /** A token, a blank, then more: the token comes first, then the tokens of the rest. */
  lemma SplitTokenSpace(w: string, rest: string)
    requires IsToken(w)
    ensures Split(w + (" " + rest)) == [w] + Split(rest)
  {
    SplitToken(w, " " + rest);
    SplitSpaceFront(' ', rest);
  }

  lemma Line3Regroup(a: string, b: string, c: string, tail: string)
    ensures Line3(a, b, c) + tail == a + (" " + (b + (" " + (c + tail))))
  {
    calc {
      Line3(a, b, c) + tail;
      (((a + " ") + b) + " ") + c + tail;
      { assert (((a + " ") + b) + " ") + c == a + (" " + (b + (" " + c))); }
      a + (" " + (b + (" " + c))) + tail;
      a + (" " + (b + (" " + (c + tail))));
    }
  }

  lemma SplitTwoTokens(b: string, c: string, tail: string)
    requires IsToken(b) && IsToken(c)
    requires AllSpace(tail)
    ensures Split(b + (" " + (c + tail))) == [b, c]
  {
    assert Split(c + tail) == [c] by {
      SplitToken(c, tail);
      SplitAllSpace(tail);
    }
    SplitTokenSpace(b, c + tail);
  }

  lemma SplitThreeTokens(a: string, b: string, c: string, tail: string)
    requires IsToken(a) && IsToken(b) && IsToken(c)
    requires AllSpace(tail)
    ensures Split(a + (" " + (b + (" " + (c + tail))))) == [a, b, c]
  {
    SplitTwoTokens(b, c, tail);
    SplitTokenSpace(a, b + (" " + (c + tail)));
  }

  lemma SplitLine3Raw(a: string, b: string, c: string, tail: string)
    requires IsToken(a) && IsToken(b) && IsToken(c)
    requires AllSpace(tail)
    ensures Split(Line3(a, b, c) + tail) == [a, b, c]
  {
    SplitThreeTokens(a, b, c, tail);
    Line3Regroup(a, b, c, tail);
  }

  /** A line built from three tokens splits back into exactly those tokens. */
  lemma SplitLine3(a: string, b: string, c: string, tail: string)
    requires IsToken(a) && IsToken(b) && IsToken(c)
    requires AllSpace(tail)
    ensures Tokens(Line3(a, b, c) + tail) == [a, b, c]
  {
    SplitLine3Raw(a, b, c, tail);
    TokensIgnoreStrip(Line3(a, b, c) + tail);
  }

  // ---------------------------------------------------------------------
  // Integers as Python writes and reads them
  // ---------------------------------------------------------------------

  predicate IsDigit(c: char) {
    '0' <= c <= '9'
  }

  function DigitValue(c: char): nat
    requires IsDigit(c)
  {
    (c as int) - ('0' as int)
  }

  function DigitChar(d: nat): (c: char)
    requires d < 10
    ensures IsDigit(c) && DigitValue(c) == d
  {
    (('0' as int) + d) as char
  }

  /**
   * The body Python's `int()` accepts after an optional sign: decimal digits,
   * with single underscores allowed between two digits.
   */
  predicate IsDigitString(s: string) {
    && |s| > 0 && IsDigit(s[0]) && IsDigit(s[|s| - 1])
    && forall i :: 0 <= i < |s| ==>
         IsDigit(s[i]) || (s[i] == '_' && i + 1 < |s| && IsDigit(s[i + 1]))
  }

  /** The number the digits of `s` spell, underscores ignored. */
  function DigitsValue(s: string): nat {
    if s == [] then 0
    else if IsDigit(s[|s| - 1]) then DigitsValue(s[..|s| - 1]) * 10 + DigitValue(s[|s| - 1])
    else DigitsValue(s[..|s| - 1])
  }

  /** Python's `int(token)`: `None` where Python raises `ValueError`. */
  function ParseInt(s: string): (r: Option<int>)
    ensures r.Some? ==> |s| > 0 && (IsDigit(s[0]) || s[0] == '+' || s[0] == '-')
  {
    if |s| > 0 && (s[0] == '+' || s[0] == '-') then
      if IsDigitString(s[1..]) then
        Some(if s[0] == '-' then 0 - DigitsValue(s[1..]) as int else DigitsValue(s[1..]) as int)
      else None
    else if IsDigitString(s) then Some(DigitsValue(s))
    else None
  }

  /** `str(n)` for a natural number: no sign, no leading zero. */
  function NatToString(n: nat): string {
    if n < 10 then [DigitChar(n)] else NatToString(n / 10) + [DigitChar(n % 10)]
  }

  /** `str(n)`, and so also `f"{n}"`. */
  function IntToString(n: int): string {
    if n < 0 then "-" + NatToString(-n) else NatToString(n)
  }

  lemma {:induction false} NatToStringDigits(n: nat)
    ensures |NatToString(n)| > 0
    ensures forall i :: 0 <= i < |NatToString(n)| ==> IsDigit(NatToString(n)[i])
    ensures DigitsValue(NatToString(n)) == n
  {
    if n >= 10 {
      NatToStringDigits(n / 10);
      var s := NatToString(n);
      assert s[..|s| - 1] == NatToString(n / 10);
    }
  }

  lemma NatToStringRoundTrip(m: nat)
    ensures IsDigitString(NatToString(m)) && IsToken(NatToString(m))
    ensures ParseInt(NatToString(m)) == Some(m)
  {
    NatToStringDigits(m);
    var d := NatToString(m);
    assert forall i :: 0 <= i < |d| ==> !IsSpace(d[i]);
  }

  /** A minus sign before a digit string reads back as the negated number. */
  lemma NegativeParse(d: string)
    requires IsDigitString(d)
    ensures ParseInt("-" + d) == Some(0 - DigitsValue(d) as int)
  {
    var s := "-" + d;
    assert s[0] == '-' && s[1..] == d;
  }

  lemma SignedToken(c: char, w: string)
    requires !IsSpace(c) && IsToken(w)
    ensures IsToken([c] + w)
  {
    forall i | 0 <= i < |[c] + w|
      ensures !IsSpace(([c] + w)[i])
    {
      if i > 0 {
        assert ([c] + w)[i] == w[i - 1];
      }
    }
  }

  /** Reading back what `str` wrote gives the same integer. */
  lemma IntToStringRoundTrip(n: int)
    ensures ParseInt(IntToString(n)) == Some(n)
    ensures IsToken(IntToString(n))
  {
    if n < 0 {
      var d := NatToString(-n);
      NatToStringRoundTrip(-n);
      NatToStringDigits(-n);
      NegativeParse(d);
      SignedToken('-', d);
    } else {
      NatToStringRoundTrip(n);
    }
  }

  // ---------------------------------------------------------------------
  // Lines of a text file
  // ---------------------------------------------------------------------

  /** Length of the first line of `s`, its `'\n'` included. */
  function LineLength(s: string): (n: nat)
    requires s != []
    ensures 0 < n <= |s|
  {
    if s[0] == '\n' || |s| == 1 then 1 else 1 + LineLength(s[1..])
  }

  /**
   * What `for line in f` yields over a file holding `text`: every line keeps
   * its `'\n'`, and a last line without one is yielded if it is not empty.
   */
  function FileLines(text: string): seq<string>
    decreases |text|
  {
    if text == [] then []
    else
      var n := LineLength(text);
      [text[..n]] + FileLines(text[n..])
  }

  /** `"\n".join(lines)` */
  function JoinLines(lines: seq<string>): string {
    if lines == [] then ""
    else if |lines| == 1 then lines[0]
    else lines[0] + "\n" + JoinLines(lines[1..])
  }

  predicate NoNewline(s: string) {
    forall i :: 0 <= i < |s| ==> s[i] != '\n'
  }

  lemma {:induction false} LineLengthNoNewline(s: string, rest: string)
    requires s != [] || rest != []
    requires NoNewline(s)
    requires rest == [] || rest[0] == '\n'
    ensures LineLength(s + rest) == if rest == [] then |s| else |s| + 1
    decreases |s|
  {
    if s != [] {
      assert (s + rest)[0] == s[0];
      if |s + rest| > 1 {
        assert (s + rest)[1..] == s[1..] + rest;
        LineLengthNoNewline(s[1..], rest);
      }
    }
  }

  /** The first line of `l + "\n" + rest` is `l + "\n"`, the others are those of `rest`. */
  lemma FileLinesCons(l: string, rest: string)
    requires NoNewline(l)
    ensures FileLines(l + "\n" + rest) == [l + "\n"] + FileLines(rest)
  {
    var text := l + "\n" + rest;
    assert text == l + ("\n" + rest);
    LineLengthNoNewline(l, "\n" + rest);
    assert text[..|l| + 1] == l + "\n";
    assert text[|l| + 1..] == rest;
  }

  lemma EmptyTail(s: string)
    ensures s + "" == s
  {
  }

  /** A file holding one line without `'\n'` reads back as that line, if it is not empty. */
  lemma FileLinesSingle(l: string)
    requires NoNewline(l)
    ensures FileLines(l) == if l == "" then [] else [l]
  {
    if l != "" {
      assert l + "" == l;
      LineLengthNoNewline(l, "");
      assert l[..|l|] == l && l[|l|..] == [];
    }
  }

  /** The lines written with their `'\n'`, all but the last. */
  function Terminated(lines: seq<string>): (r: seq<string>)
    requires |lines| > 0
    ensures |r| == |lines| - 1
    ensures forall k :: 0 <= k < |r| ==> r[k] == lines[k] + "\n"
  {
    seq(|lines| - 1, k requires 0 <= k < |lines| - 1 => lines[k] + "\n")
  }

  lemma TerminatedCons(lines: seq<string>)
    requires |lines| > 1
    ensures Terminated(lines) == [lines[0] + "\n"] + Terminated(lines[1..])
  {
    var r := [lines[0] + "\n"] + Terminated(lines[1..]);
    forall k | 0 <= k < |r|
      ensures r[k] == Terminated(lines)[k]
    {
      if k > 0 {
        assert r[k] == Terminated(lines[1..])[k - 1];
      }
    }
  }

  /**
   * Writing lines with `"\n".join` and reading the file back yields the same
   * lines, each but the last with its `'\n'`, and an empty last line dropped.
   */
  lemma {:induction false} FileLinesOfJoin(lines: seq<string>)
    requires |lines| > 0
    requires forall k :: 0 <= k < |lines| ==> NoNewline(lines[k])
    ensures FileLines(JoinLines(lines))
         == Terminated(lines) + (if lines[|lines| - 1] == "" then [] else [lines[|lines| - 1]])
  {
    if |lines| == 1 {
      FileLinesSingle(lines[0]);
    } else {
      FileLinesCons(lines[0], JoinLines(lines[1..]));
      FileLinesOfJoin(lines[1..]);
      TerminatedCons(lines);
    }
  }

  /** The same round trip when the last line is not empty: every line comes back. */
  lemma FileLinesOfJoinFull(lines: seq<string>)
    requires |lines| > 0 && lines[|lines| - 1] != ""
    requires forall k :: 0 <= k < |lines| ==> NoNewline(lines[k])
    ensures |FileLines(JoinLines(lines))| == |lines|
    ensures forall k :: 0 <= k < |lines| - 1 ==> FileLines(JoinLines(lines))[k] == lines[k] + "\n"
    ensures FileLines(JoinLines(lines))[|lines| - 1] == lines[|lines| - 1]
  {
    FileLinesOfJoin(lines);
  }

  // ---------------------------------------------------------------------
  // Case folding of file suffixes
  // ---------------------------------------------------------------------

  /** `s.lower()` on ASCII letters. */
  function Lower(s: string): (r: string)
    ensures |r| == |s|
  {
    seq(|s|, i requires 0 <= i < |s| =>
      if 'A' <= s[i] <= 'Z' then ((s[i] as int) + 32) as char else s[i])
  }
}
