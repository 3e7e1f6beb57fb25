/**
 * The handful of Ruby String and Integer operations the presenter relies on,
 * written out with Ruby's semantics: String#split on the pattern [ ,]+,
 * String#to_i, Integer#to_s, String#lines, String#chomp and Array#join.
 */
module RubyText {

  predicate IsDigit(c: char) { '0' <= c <= '9' }

  /** A character of the separator class [ ,] */
  predicate IsSeparator(c: char) { c == ' ' || c == ',' }

  /** Whitespace skipped by String#to_i */
  predicate IsSpace(c: char) {
    c == ' ' || c == '\t' || c == '\n' || c == '\U{B}' || c == '\U{C}' || c == '\r'
  }

  predicate AllDigits(s: string) { forall i :: 0 <= i < |s| ==> IsDigit(s[i]) }

  predicate NoSeparator(s: string) { forall i :: 0 <= i < |s| ==> !IsSeparator(s[i]) }

  predicate AllSeparators(s: string) { forall i :: 0 <= i < |s| ==> IsSeparator(s[i]) }

  // ---------------------------------------------------------------------------
  // String#split(/[ ,]+/)
  // ---------------------------------------------------------------------------

  /** The first index at or after i whose character is not a separator */
  function SkipSeparators(s: string, i: nat): (j: nat)
    requires i <= |s|
    ensures i <= j <= |s|
    ensures forall k :: i <= k < j ==> IsSeparator(s[k])
    ensures j == |s| || !IsSeparator(s[j])
    decreases |s| - i
  {
    if i < |s| && IsSeparator(s[i]) then SkipSeparators(s, i + 1) else i
  }

  /**
   * The fields of s[i..], the first of which starts with cur: every maximal
   * run of separators ends a field. Empty fields are still present here.
   */
  function Fields(s: string, i: nat, cur: string): seq<string>
    requires i <= |s|
    decreases |s| - i
  {
    if i == |s| then [cur]
    else if IsSeparator(s[i]) then [cur] + Fields(s, SkipSeparators(s, i), "")
    else Fields(s, i + 1, cur + [s[i]])
  }

  /** Removes the trailing empty strings of a list, as String#split does */
  function DropTrailingEmpty(xs: seq<string>): (r: seq<string>)
    ensures |r| <= |xs| && r == xs[..|r|]
    ensures r == [] || r[|r| - 1] != ""
    ensures forall k :: |r| <= k < |xs| ==> xs[k] == ""
  {
    if xs == [] then []
    else if xs[|xs| - 1] == "" then DropTrailingEmpty(xs[..|xs| - 1])
    else xs
  }

  /**
   * String#split(/[ ,]+/): a leading separator run yields a leading empty
   * field, trailing empty fields are dropped, and the empty string splits
   * into no fields.
   */
  function Split(s: string): seq<string> {
    if s == "" then [] else DropTrailingEmpty(Fields(s, 0, ""))
  }

  /** Array#join(sep) over strings */
  function JoinWith(xs: seq<string>, sep: string): string
    decreases |xs|
  {
    if xs == [] then ""
    else if |xs| == 1 then xs[0]
    else xs[0] + sep + JoinWith(xs[1..], sep)
  }

  lemma {:induction false} JoinWithCons(x: string, xs: seq<string>, sep: string)
    requires xs != []
    ensures JoinWith([x] + xs, sep) == x + sep + JoinWith(xs, sep)
  {
    assert ([x] + xs)[1..] == xs;
  }

  lemma {:induction false} JoinWithSnoc(xs: seq<string>, x: string, sep: string)
    requires xs != []
    ensures JoinWith(xs + [x], sep) == JoinWith(xs, sep) + sep + x
    decreases |xs|
  {
    if |xs| == 1 {
      assert xs + [x] == [xs[0], x];
      assert [xs[0], x][1..] == [x];
    } else {
      assert (xs + [x])[1..] == xs[1..] + [x];
      JoinWithSnoc(xs[1..], x, sep);
    }
  }

  /** Array#join with no separator */
  function Concat(xs: seq<string>): string
    decreases |xs|
  {
    if xs == [] then "" else xs[0] + Concat(xs[1..])
  }

  lemma {:induction false} ConcatAppend(xs: seq<string>, x: string)
    ensures Concat(xs + [x]) == Concat(xs) + x
    decreases |xs|
  {
    if xs == [] {
      assert xs + [x] == [x];
    } else {
      assert (xs + [x])[1..] == xs[1..] + [x];
      ConcatAppend(xs[1..], x);
    }
  }

  lemma {:induction false} FieldsAccumulate(s: string, i: nat, j: nat, cur: string)
    requires i <= j <= |s|
    requires forall k :: i <= k < j ==> !IsSeparator(s[k])
    ensures Fields(s, i, cur) == Fields(s, j, cur + s[i..j])
    decreases j - i
  {
    if i < j {
      assert cur + s[i..j] == (cur + [s[i]]) + s[i + 1..j];
      FieldsAccumulate(s, i + 1, j, cur + [s[i]]);
    } else {
      assert cur + s[i..j] == cur;
    }
  }

  lemma {:induction false} SkipShift(p: string, t: string, i: nat)
    requires i <= |t|
    ensures SkipSeparators(p + t, |p| + i) == |p| + SkipSeparators(t, i)
    decreases |t| - i
  {
    if i < |t| && IsSeparator(t[i]) {
      assert (p + t)[|p| + i] == t[i];
      SkipShift(p, t, i + 1);
    } else if i < |t| {
      assert (p + t)[|p| + i] == t[i];
    }
  }

  lemma {:induction false} FieldsShift(p: string, t: string, i: nat, cur: string)
    requires i <= |t|
    ensures Fields(p + t, |p| + i, cur) == Fields(t, i, cur)
    decreases |t| - i
  {
    if i < |t| {
      assert (p + t)[|p| + i] == t[i];
      if IsSeparator(t[i]) {
        SkipShift(p, t, i);
        FieldsShift(p, t, SkipSeparators(t, i), "");
      } else {
        FieldsShift(p, t, i + 1, cur + [t[i]]);
      }
    }
  }

  /**
   * Splitting a field, a separator run and the rest gives that field
   * followed by the fields of the rest.
   */
  lemma {:induction false} SplitCons(h: string, r: string, t: string)
    requires h != "" && NoSeparator(h)
    requires r != "" && AllSeparators(r)
    requires t == "" || !IsSeparator(t[0])
    ensures Split(h + r + t) == [h] + Split(t)
  {
    var s := h + r + t;
    assert forall k :: 0 <= k < |h| ==> s[k] == h[k];
    FieldsAccumulate(s, 0, |h|, "");
    assert s[0..|h|] == h;
    assert IsSeparator(s[|h|]);
    var j := SkipSeparators(s, |h|);
    assert forall k :: |h| <= k < |h| + |r| ==> s[k] == r[k - |h|];
    assert forall k :: |h| <= k < |h| + |r| ==> IsSeparator(s[k]);
    assert t != "" ==> s[|h| + |r|] == t[0] && !IsSeparator(s[|h| + |r|]);
    assert j == |h| + |r|;
    assert s == (h + r) + t;
    FieldsShift(h + r, t, 0, "");
    assert "" + s[0..|h|] == h;
    assert Fields(s, |h|, h) == [h] + Fields(s, |h| + |r|, "");
    assert Fields(s, 0, "") == [h] + Fields(t, 0, "");
    if t == "" {
      assert Fields(t, 0, "") == [""];
      assert [h] + [""] == [h, ""];
      assert [h, ""][..1] == [h];
      assert DropTrailingEmpty([h, ""]) == DropTrailingEmpty([h]) == [h];
    } else {
      DropTrailingEmptyCons(h, Fields(t, 0, ""));
    }
  }

  lemma {:induction false} DropTrailingEmptyCons(h: string, xs: seq<string>)
    requires h != ""
    ensures DropTrailingEmpty([h] + xs) == [h] + DropTrailingEmpty(xs)
    decreases |xs|
  {
    var ys := [h] + xs;
    if xs == [] {
      assert ys == [h];
    } else if xs[|xs| - 1] == "" {
      assert ys[|ys| - 1] == "";
      assert ys[..|ys| - 1] == [h] + xs[..|xs| - 1];
      DropTrailingEmptyCons(h, xs[..|xs| - 1]);
    } else {
      assert ys[|ys| - 1] != "";
    }
  }

  /** A separator-free field splits into itself */
  lemma {:induction false} SplitSingle(h: string)
    requires h != "" && NoSeparator(h)
    ensures Split(h) == [h]
  {
    FieldsAccumulate(h, 0, |h|, "");
    assert "" + h[0..|h|] == h;
    assert Fields(h, 0, "") == [h];
    assert DropTrailingEmpty([h]) == [h];
  }

  /**
   * Splitting inverts joining: fields without separators, joined by any
   * non-empty run of separators, split back into the same fields.
   */
  lemma {:induction false} SplitJoin(xs: seq<string>, sep: string)
    requires forall k :: 0 <= k < |xs| ==> xs[k] != "" && NoSeparator(xs[k])
    requires sep != "" && AllSeparators(sep)
    ensures Split(JoinWith(xs, sep)) == xs
    decreases |xs|
  {
    if |xs| == 1 {
      SplitSingle(xs[0]);
    } else if |xs| > 1 {
      var t := JoinWith(xs[1..], sep);
      JoinStartsWith(xs[1..], sep);
      SplitCons(xs[0], sep, t);
      SplitJoin(xs[1..], sep);
      assert xs == [xs[0]] + xs[1..];
    }
  }

  lemma {:induction false} JoinStartsWith(xs: seq<string>, sep: string)
    requires |xs| > 0 && xs[0] != ""
    ensures JoinWith(xs, sep) != "" && JoinWith(xs, sep)[0] == xs[0][0]
    decreases |xs|
  {
  }

  // ---------------------------------------------------------------------------
  // Integer#to_s and String#to_i
  // ---------------------------------------------------------------------------

  function DigitChar(d: nat): (c: char)
    requires d < 10
    ensures IsDigit(c)
  {
    "0123456789"[d]
  }

  function DigitValue(c: char): nat
    requires IsDigit(c)
  {
    (c as int - '0' as int) as nat
  }

  /** Decimal digits of n, most significant first */
  function NatToString(n: nat): (s: string)
    ensures s != "" && AllDigits(s)
    decreases n
  {
    if n < 10 then [DigitChar(n)] else NatToString(n / 10) + [DigitChar(n % 10)]
  }

  /** Integer#to_s */
  function IntToString(n: int): string {
    if n < 0 then "-" + NatToString(-n) else NatToString(n)
  }

  /** The number a string of decimal digits denotes */
  function DigitsValue(s: string): nat
    requires AllDigits(s)
    decreases |s|
  {
    if s == "" then 0 else DigitsValue(s[..|s| - 1]) * 10 + DigitValue(s[|s| - 1])
  }

  function SkipSpaces(s: string, i: nat): (j: nat)
    requires i <= |s|
    ensures i <= j <= |s|
    decreases |s| - i
  {
    if i < |s| && IsSpace(s[i]) then SkipSpaces(s, i + 1) else i
  }

  /** The end of the run of digits starting at i */
  function DigitsEnd(s: string, i: nat): (j: nat)
    requires i <= |s|
    ensures i <= j <= |s| && AllDigits(s[i..j])
    ensures j == |s| || !IsDigit(s[j])
    decreases |s| - i
  {
    if i < |s| && IsDigit(s[i]) then
      var j := DigitsEnd(s, i + 1);
      assert s[i..j] == [s[i]] + s[i + 1..j];
      j
    else i
  }

  /**
   * String#to_i: leading whitespace, an optional sign, then the longest run
   * of decimal digits; 0 when there are no digits.
   */
  function ToI(s: string): int {
    var i := SkipSpaces(s, 0);
    if i < |s| && (s[i] == '-' || s[i] == '+') then
      var j := DigitsEnd(s, i + 1);
      if s[i] == '-' then -(DigitsValue(s[i + 1..j]) as int) else DigitsValue(s[i + 1..j])
    else
      DigitsValue(s[i..DigitsEnd(s, i)])
  }

  lemma {:induction false} DigitCharValue(d: nat)
    requires d < 10
    ensures DigitValue(DigitChar(d)) == d
  {
    assert "0123456789"[d] as int == '0' as int + d;
  }

  lemma {:induction false} DigitsValueNatToString(n: nat)
    ensures DigitsValue(NatToString(n)) == n
    decreases n
  {
    var s := NatToString(n);
    if n < 10 {
      DigitCharValue(n);
      assert s[..0] == "";
    } else {
      DigitsValueNatToString(n / 10);
      DigitCharValue(n % 10);
      assert s[..|s| - 1] == NatToString(n / 10);
    }
  }

  lemma {:induction false} DigitsEndAll(s: string, i: nat)
    requires i <= |s| && AllDigits(s[i..])
    ensures DigitsEnd(s, i) == |s|
    decreases |s| - i
  {
    if i < |s| {
      assert s[i] == s[i..][0];
      assert s[i + 1..] == s[i..][1..];
      DigitsEndAll(s, i + 1);
    }
  }

  /** String#to_i reads back what Integer#to_s writes */
  lemma {:induction false} ToIIntToString(n: int)
    ensures ToI(IntToString(n)) == n
  {
    var s := IntToString(n);
    var m: nat := if n < 0 then -n else n;
    var digits := NatToString(m);
    DigitsValueNatToString(m);
    if n < 0 {
      assert s == "-" + digits;
      assert s[0] == '-' && !IsSpace(s[0]);
      assert SkipSpaces(s, 0) == 0;
      assert s[1..] == digits;
      DigitsEndAll(s, 1);
      assert s[1..|s|] == digits;
    } else {
      assert s == digits;
      assert !IsSpace(s[0]);
      assert SkipSpaces(s, 0) == 0;
      assert s[0..] == digits;
      DigitsEndAll(s, 0);
      assert s[0..|s|] == digits;
    }
  }

  /** A string made only of digits converts to the number it denotes */
  lemma {:induction false} ToIDigits(s: string)
    requires s != "" && AllDigits(s)
    ensures ToI(s) == DigitsValue(s)
  {
    assert !IsSpace(s[0]);
    assert SkipSpaces(s, 0) == 0;
    assert s[0..] == s;
    DigitsEndAll(s, 0);
    assert s[0..|s|] == s;
  }

  // ---------------------------------------------------------------------------
  // String#lines and String#chomp
  // ---------------------------------------------------------------------------

  /** The index of the first newline at or after i, or |s| */
  function LineEnd(s: string, i: nat): (j: nat)
    requires i <= |s|
    ensures i <= j <= |s|
    ensures forall k :: i <= k < j ==> s[k] != '\n'
    ensures j == |s| || s[j] == '\n'
    decreases |s| - i
  {
    if i < |s| && s[i] != '\n' then LineEnd(s, i + 1) else i
  }

  /** String#lines: the lines of s, each keeping its newline */
  function Lines(s: string): (ls: seq<string>)
    ensures s == "" <==> ls == []
    decreases |s|
  {
    if s == "" then []
    else
      var j := LineEnd(s, 0);
      if j == |s| then [s] else [s[..j + 1]] + Lines(s[j + 1..])
  }

  predicate EndsWithNewline(l: string) { l != "" && l[|l| - 1] == '\n' }

  /** A line holds a newline at most as its last character */
  predicate IsLine(l: string) {
    l != "" && forall k :: 0 <= k < |l| - 1 ==> l[k] != '\n'
  }

  /** A single line is its own only line */
  lemma {:induction false} LinesOfLine(l: string)
    requires IsLine(l)
    ensures Lines(l) == [l]
  {
    var j := LineEnd(l, 0);
    assert j >= |l| - 1;
    if j < |l| {
      assert l[..j + 1] == l && l[j + 1..] == "";
    }
  }


  /**
   * String#lines splits without losing or adding text, every part is a
   * line, and every part except the last ends with a newline.
   */
  lemma {:induction false} LinesConcat(s: string)
    ensures Concat(Lines(s)) == s
    ensures forall k :: 0 <= k < |Lines(s)| ==> IsLine(Lines(s)[k])
    ensures forall k :: 0 <= k < |Lines(s)| - 1 ==> EndsWithNewline(Lines(s)[k])
    decreases |s|
  {
    if s != "" {
      var j := LineEnd(s, 0);
      if j < |s| {
        LinesConcat(s[j + 1..]);
        assert s == s[..j + 1] + s[j + 1..];
        var rest := Lines(s[j + 1..]);
        assert Lines(s) == [s[..j + 1]] + rest;
        assert Lines(s)[1..] == rest;
        forall k | 1 <= k < |Lines(s)|
          ensures IsLine(Lines(s)[k])
        {
          assert Lines(s)[k] == rest[k - 1];
        }
      }
    }
  }

  /** String#chomp: removes one trailing "\r\n", "\n" or "\r" */
  function Chomp(s: string): (r: string)
    ensures |r| <= |s| && r == s[..|r|]
  {
    if |s| >= 2 && s[|s| - 2..] == "\r\n" then s[..|s| - 2]
    else if |s| >= 1 && (s[|s| - 1] == '\n' || s[|s| - 1] == '\r') then s[..|s| - 1]
    else s
  }

  /** chomp removes exactly one added newline, unless a carriage return precedes it */
  lemma ChompNewline(s: string)
    requires s == "" || s[|s| - 1] != '\r'
    ensures Chomp(s + "\n") == s
  {
    var t := s + "\n";
    assert t[..|t| - 1] == s;
    if |t| >= 2 {
      assert t[|t| - 2] == s[|s| - 1];
    }
  }

  /** chomp leaves a string without a trailing line break unchanged */
  lemma ChompUnchanged(s: string)
    requires s == "" || (s[|s| - 1] != '\n' && s[|s| - 1] != '\r')
    ensures Chomp(s) == s
  {
    if |s| >= 2 {
      assert s[|s| - 2..][1] == s[|s| - 1];
    }
  }
}
