/**
 * Slideck::Margin: four integer sides (top, right, bottom, left) built from an
 * integer, a string of integers, an array of one to four integers or a hash
 * of side names.
 */
module Margin {
  import opened Wrappers
  import opened RubyText
  import opened Values
  import opened Errors

  datatype Margin = Margin(top: int, right: int, bottom: int, left: int)
  {
    /** Margin#to_a */
    function ToA(): seq<int> { [top, right, bottom, left] }
  }

  /** SIDE_NAMES, in the order the sides are validated */
  const SideNames: seq<string> := ["top", "right", "bottom", "left"]

  /** Margin#validate_margin_side: only an Integer is a side */
  function ValidateSide(side: string, value: Value): (r: Result<int, Error>)
    ensures r.Success? <==> value.Int?
    ensures r.Success? ==> r.value == value.i
    ensures r.Failure? ==> r.error == MarginSideNotInteger(side, value)
  {
    if value.Int? then Success(value.i) else Failure(MarginSideNotInteger(side, value))
  }

  /**
   * Margin#initialize: the sides are validated in the order top, right,
   * bottom, left and the first one that is not an Integer is reported.
   */
  function New(top: Value, right: Value, bottom: Value, left: Value): (r: Result<Margin, Error>)
    ensures r.Success? <==> top.Int? && right.Int? && bottom.Int? && left.Int?
    ensures r.Success? ==> r.value.ToA() == [top.i, right.i, bottom.i, left.i]
    ensures !top.Int? ==> r == Failure(MarginSideNotInteger("top", top))
    ensures top.Int? && !right.Int? ==> r == Failure(MarginSideNotInteger("right", right))
    ensures top.Int? && right.Int? && !bottom.Int? ==> r == Failure(MarginSideNotInteger("bottom", bottom))
    ensures top.Int? && right.Int? && bottom.Int? && !left.Int? ==>
              r == Failure(MarginSideNotInteger("left", left))
  {
    var t :- ValidateSide("top", top);
    var rt :- ValidateSide("right", right);
    var b :- ValidateSide("bottom", bottom);
    var l :- ValidateSide("left", left);
    Success(Margin(t, rt, b, l))
  }

  /** Margin.from_array, which is also Margin.[] */
  function FromArray(values: seq<Value>): (r: Result<Margin, Error>)
    ensures !(1 <= |values| <= 4) ==> r == Failure(MarginArity(values))
    ensures 1 <= |values| <= 4 ==>
              var top := values[0];
              var right := if |values| > 1 then values[1] else top;
              var bottom := if |values| > 2 then values[2] else top;
              var left := if |values| > 3 then values[3] else right;
              r == New(top, right, bottom, left)
  {
    if |values| == 1 then New(values[0], values[0], values[0], values[0])
    else if |values| == 2 then New(values[0], values[1], values[0], values[1])
    else if |values| == 3 then New(values[0], values[1], values[2], values[1])
    else if |values| == 4 then New(values[0], values[1], values[2], values[3])
    else Failure(MarginArity(values))
  }

  predicate IsSideName(k: Value) { k.Sym? && k.name in SideNames }

  /** keys - SIDE_NAMES: the keys that are not side names, in order */
  function InvalidSides(keys: seq<Value>): (r: seq<Value>)
    ensures r == [] <==> forall k :: k in keys ==> IsSideName(k)
    ensures forall k :: k in r <==> k in keys && !IsSideName(k)
    decreases |keys|
  {
    if keys == [] then []
    else if IsSideName(keys[0]) then InvalidSides(keys[1..])
    else [keys[0]] + InvalidSides(keys[1..])
  }

  /** Array#- keeps the order of its receiver: the invalid sides of a + b are those of a, then those of b */
  lemma {:induction false} InvalidSidesAppend(a: seq<Value>, b: seq<Value>)
    ensures InvalidSides(a + b) == InvalidSides(a) + InvalidSides(b)
    decreases |a|
  {
    if a == [] {
      assert a + b == b;
    } else {
      assert (a + b)[0] == a[0] && (a + b)[1..] == a[1..] + b;
      InvalidSidesAppend(a[1..], b);
    }
  }

  /** A single key is invalid exactly when it is not a side name */
  lemma {:induction false} InvalidSidesOne(k: Value)
    ensures InvalidSides([k]) == if IsSideName(k) then [] else [k]
  {
    assert [k][1..] == [];
  }

  /** The hash's value for a side, with a missing or nil side taken as 0 */
  function SideValue(pairs: Pairs, side: string): (v: Value)
    ensures Lookup(pairs, Sym(side)) == None ==> v == Int(0)
    ensures Lookup(pairs, Sym(side)) == Some(Nil) ==> v == Int(0)
  {
    match Lookup(pairs, Sym(side))
    case None => Int(0)
    case Some(v) => if v.Nil? then Int(0) else v
  }

  /** Margin.from_hash */
  function FromHash(pairs: Pairs): (r: Result<Margin, Error>)
    ensures InvalidSides(Keys(pairs)) != [] ==> r == Failure(UnknownMarginSides(InvalidSides(Keys(pairs))))
  {
    var invalid := InvalidSides(Keys(pairs));
    if invalid != [] then Failure(UnknownMarginSides(invalid))
    else New(SideValue(pairs, "top"), SideValue(pairs, "right"),
             SideValue(pairs, "bottom"), SideValue(pairs, "left"))
  }

  /** A character of the class [\d, ] */
  predicate IsIntegerChar(c: char) { IsDigit(c) || c == ',' || c == ' ' }

  /** The end of the run of [\d, ] characters starting at i */
  function IntegerRunEnd(s: string, i: nat): (j: nat)
    requires i <= |s|
    ensures i <= j <= |s|
    ensures forall k :: i <= k < j ==> IsIntegerChar(s[k])
    ensures j == |s| || !IsIntegerChar(s[j])
    decreases |s| - i
  {
    if i < |s| && IsIntegerChar(s[i]) then IntegerRunEnd(s, i + 1) else i
  }

  /**
   * s =~ /^[\d, ]+$/: some line of s, from its start to its end, is a
   * non-empty run of digits, commas and spaces.
   */
  predicate IntegersOnly(s: string) {
    exists i | 0 <= i < |s| ::
      (i == 0 || s[i - 1] == '\n') &&
      IntegerRunEnd(s, i) > i &&
      (IntegerRunEnd(s, i) == |s| || s[IntegerRunEnd(s, i)] == '\n')
  }

  /** value.split(INTEGERS_SEPARATOR).map(&:to_i) */
  function IntegerFields(fields: seq<string>): (r: seq<Value>)
    ensures |r| == |fields|
    ensures forall k :: 0 <= k < |fields| ==> r[k] == Int(ToI(fields[k]))
  {
    if fields == [] then [] else [Int(ToI(fields[0]))] + IntegerFields(fields[1..])
  }

  /** Margin.convert_to_array: nil for a value that is not a margin */
  function ConvertToArray(value: Value): (r: Option<seq<Value>>)
    ensures r.Some? <==> value.Int? || value.Float? || value.Arr? || (value.Str? && IntegersOnly(value.s))
    ensures value.Int? || value.Float? ==> r == Some([value])
    ensures value.Arr? ==> r == Some(value.items)
    ensures value.Str? && r.Some? ==>
              |r.value| == |Split(value.s)| && forall k :: 0 <= k < |r.value| ==> r.value[k] == Int(ToI(Split(value.s)[k]))
  {
    match value
    case Int(_) => Some([value])
    case Float(_) => Some([value])
    case Str(s) => if IntegersOnly(s) then Some(IntegerFields(Split(s))) else None
    case Arr(items) => Some(items)
    case _ => None
  }

  /** Margin.from */
  function From(value: Value): (r: Result<Margin, Error>)
    ensures ConvertToArray(value).None? && !value.Hash? ==> r == Failure(InvalidMargin(value))
  {
    if value.Hash? then FromHash(value.pairs)
    else
      match ConvertToArray(value)
      case Some(values) => FromArray(values)
      case None => Failure(InvalidMargin(value))
  }

  // ---------------------------------------------------------------------------
  // Properties
  // ---------------------------------------------------------------------------

  /** An integer gives all four sides */
  lemma {:induction false} FromInteger(n: int)
    ensures From(Int(n)) == Success(Margin(n, n, n, n))
  {
  }

  /** One to four integers spread over the four sides as CSS does */
  lemma {:induction false} FromArraySpread(a: int, b: int, c: int, d: int)
    ensures FromArray([Int(a)]) == Success(Margin(a, a, a, a))
    ensures FromArray([Int(a), Int(b)]) == Success(Margin(a, b, a, b))
    ensures FromArray([Int(a), Int(b), Int(c)]) == Success(Margin(a, b, c, b))
    ensures FromArray([Int(a), Int(b), Int(c), Int(d)]) == Success(Margin(a, b, c, d))
  {
  }

  /** No integers, or more than four, is an arity error that carries the values */
  lemma {:induction false} FromArrayArity(values: seq<Value>)
    requires |values| == 0 || |values| > 4
    ensures From(Arr(values)) == Failure(MarginArity(values))
  {
  }

  /** The integer a hash of integers gives for a side, 0 when the side is missing */
  function GivenSide(pairs: Pairs, side: string): int {
    match Lookup(pairs, Sym(side))
    case None => 0
    case Some(v) => if v.Int? then v.i else 0
  }

  /** A hash without unknown names takes each side from its key, 0 when missing or nil */
  lemma {:induction false} FromHashSides(pairs: Pairs)
    requires forall k :: 0 <= k < |pairs| ==> IsSideName(pairs[k].0) && pairs[k].1.Int?
    ensures From(Hash(pairs)) ==
              Success(Margin(GivenSide(pairs, "top"), GivenSide(pairs, "right"), GivenSide(pairs, "bottom"), GivenSide(pairs, "left")))
  {
    HashSidesValid(pairs);
    HashSide(pairs, "top");
    HashSide(pairs, "right");
    HashSide(pairs, "bottom");
    HashSide(pairs, "left");
  }

  lemma {:induction false} HashSidesValid(pairs: Pairs)
    requires forall k :: 0 <= k < |pairs| ==> IsSideName(pairs[k].0)
    ensures InvalidSides(Keys(pairs)) == []
  {
    var keys := Keys(pairs);
    assert forall k :: k in keys ==> IsSideName(k);
  }

  /** In a hash of integers, each side is an integer: the hash's or 0 */
  lemma {:induction false} HashSide(pairs: Pairs, side: string)
    requires forall k :: 0 <= k < |pairs| ==> pairs[k].1.Int?
    ensures SideValue(pairs, side) == Int(GivenSide(pairs, side))
  {
  }

  lemma {:induction false} HashExampleKeys()
    ensures InvalidSides(Keys([(Sym("right"), Int(2)), (Sym("left"), Int(4))])) == []
  {
  }

  /** The documented hash example: only right and left given */
  lemma {:induction false} FromHashExample()
    ensures From(Hash([(Sym("right"), Int(2)), (Sym("left"), Int(4))])) == Success(Margin(0, 2, 0, 4))
  {
    var pairs := [(Sym("right"), Int(2)), (Sym("left"), Int(4))];
    HashExampleKeys();
    assert SideValue(pairs, "top") == Int(0) && SideValue(pairs, "right") == Int(2);
    assert SideValue(pairs, "bottom") == Int(0) && SideValue(pairs, "left") == Int(4);
  }

  /** Unknown names are reported all together, in order */
  lemma {:induction false} FromHashUnknown()
    ensures From(Hash([(Sym("invalid"), Int(1)), (Sym("unknown"), Int(2))])) ==
            Failure(UnknownMarginSides([Sym("invalid"), Sym("unknown")]))
  {
    var keys := Keys([(Sym("invalid"), Int(1)), (Sym("unknown"), Int(2))]);
    assert keys == [Sym("invalid"), Sym("unknown")];
    assert !IsSideName(Sym("invalid")) && !IsSideName(Sym("unknown"));
    assert keys[1..] == [Sym("unknown")];
    assert InvalidSides(keys[1..]) == [Sym("unknown")];
    assert InvalidSides(keys) == [Sym("invalid"), Sym("unknown")];
  }

  /** The unknown-name message is singular for one name and plural for more */
  lemma {:induction false} UnknownSidesMessages()
    ensures Message(UnknownMarginSides([Sym("invalid")])) ==
            "unknown name" + "" + " for margin: " + ":invalid" + ".\n" +
            "Valid names are: top, left, right and bottom."
    ensures Message(UnknownMarginSides([Sym("invalid"), Sym("unknown")])) ==
            "unknown name" + "s" + " for margin: " + (":invalid" + ", " + ":unknown") + ".\n" +
            "Valid names are: top, left, right and bottom."
  {
    assert Inspect(Sym("invalid")) == ":invalid";
    assert Inspect(Sym("unknown")) == ":unknown";
    assert InspectAll([Sym("invalid")]) == [":invalid"];
    assert InspectAll([Sym("invalid"), Sym("unknown")]) == [":invalid", ":unknown"];
    assert JoinWith([":invalid", ":unknown"], ", ") == ":invalid" + ", " + ":unknown";
  }

  predicate DigitLine(s: string) { forall k :: 0 <= k < |s| ==> IsDigit(s[k]) || s[k] == ' ' }

  lemma {:induction false} JoinDigitLine(xs: seq<string>)
    requires forall k :: 0 <= k < |xs| ==> AllDigits(xs[k])
    ensures DigitLine(JoinWith(xs, " "))
    decreases |xs|
  {
    if |xs| > 1 {
      JoinDigitLine(xs[1..]);
      var t := JoinWith(xs[1..], " ");
      assert JoinWith(xs, " ") == xs[0] + " " + t;
      assert forall k :: |xs[0]| + 1 <= k < |xs[0]| + 1 + |t| ==> JoinWith(xs, " ")[k] == t[k - |xs[0]| - 1];
    }
  }

  lemma {:induction false} DigitLineIntegersOnly(s: string)
    requires s != "" && DigitLine(s)
    ensures IntegersOnly(s)
  {
    var j := IntegerRunEnd(s, 0);
    assert j == |s|;
  }

  /**
   * The string form round-trips: the sides of a margin with non-negative
   * sides, written as integers separated by spaces, read back as that margin.
   */
  lemma {:induction false} FromStringOfSides(m: Margin)
    requires m.top >= 0 && m.right >= 0 && m.bottom >= 0 && m.left >= 0
    ensures From(Str(JoinWith([IntToString(m.top), IntToString(m.right),
                              IntToString(m.bottom), IntToString(m.left)], " "))) == Success(m)
  {
    ConvertSides(m);
    FromToA(m);
  }

  /** The sides written as integers separated by spaces convert back to the four integers */
  lemma {:induction false} ConvertSides(m: Margin)
    requires m.top >= 0 && m.right >= 0 && m.bottom >= 0 && m.left >= 0
    ensures ConvertToArray(Str(JoinWith([IntToString(m.top), IntToString(m.right),
                                        IntToString(m.bottom), IntToString(m.left)], " "))) ==
            Some([Int(m.top), Int(m.right), Int(m.bottom), Int(m.left)])
  {
    var xs := [IntToString(m.top), IntToString(m.right), IntToString(m.bottom), IntToString(m.left)];
    var s := JoinWith(xs, " ");
    SidesAreNumbers(m, xs);
    JoinDigitLine(xs);
    JoinStartsWith(xs, " ");
    DigitLineIntegersOnly(s);
    SplitJoin(xs, " ");
    SidesReadBack(m, xs);
  }

  lemma {:induction false} SidesAreNumbers(m: Margin, xs: seq<string>)
    requires m.top >= 0 && m.right >= 0 && m.bottom >= 0 && m.left >= 0
    requires xs == [IntToString(m.top), IntToString(m.right), IntToString(m.bottom), IntToString(m.left)]
    ensures forall k :: 0 <= k < |xs| ==> xs[k] != "" && AllDigits(xs[k]) && NoSeparator(xs[k])
  {
    assert forall k :: 0 <= k < 4 ==> xs[k] == NatToString(m.ToA()[k]);
    forall k | 0 <= k < 4
      ensures xs[k] != "" && AllDigits(xs[k]) && NoSeparator(xs[k])
    {
    }
  }

  lemma {:induction false} SidesReadBack(m: Margin, xs: seq<string>)
    requires m.top >= 0 && m.right >= 0 && m.bottom >= 0 && m.left >= 0
    requires xs == [IntToString(m.top), IntToString(m.right), IntToString(m.bottom), IntToString(m.left)]
    ensures IntegerFields(xs) == [Int(m.top), Int(m.right), Int(m.bottom), Int(m.left)]
  {
    ToIIntToString(m.top);
    ToIIntToString(m.right);
    ToIIntToString(m.bottom);
    ToIIntToString(m.left);
  }

  lemma {:induction false} SplitTwoExample()
    ensures Split("1 2") == ["1", "2"]
  {
    assert "1 2" == "1" + " " + "2";
    SplitCons("1", " ", "2");
    SplitSingle("2");
  }

  lemma {:induction false} ReadTwoExample()
    ensures IntegersOnly("1 2") && IntegerFields(["1", "2"]) == [Int(1), Int(2)]
  {
    TwoIntegersOnly();
    TwoIntegerFields();
  }

  lemma {:induction false} TwoIntegersOnly()
    ensures IntegersOnly("1 2")
  {
    assert IntegerRunEnd("1 2", 0) == 3;
  }

  lemma {:induction false} TwoIntegerFields()
    ensures IntegerFields(["1", "2"]) == [Int(1), Int(2)]
  {
    ToIDigits("1");
    ToIDigits("2");
  }

  /** Two integers in a string, separated by a space */
  lemma {:induction false} FromStringExample()
    ensures From(Str("1 2")) == Success(Margin(1, 2, 1, 2))
  {
    ConvertTwoExample();
    FromArraySpread(1, 2, 0, 0);
  }

  lemma {:induction false} ConvertTwoExample()
    ensures ConvertToArray(Str("1 2")) == Some([Int(1), Int(2)])
  {
    SplitTwoExample();
    ReadTwoExample();
  }

  lemma {:induction false} SplitMixedExample()
    ensures Split("1,2 ,  3") == ["1", "2", "3"]
  {
    assert "1,2 ,  3" == "1" + "," + ("2" + " ,  " + "3");
    SplitCons("2", " ,  ", "3");
    SplitSingle("3");
    SplitCons("1", ",", "2" + " ,  " + "3");
  }

  lemma {:induction false} ReadMixedExample()
    ensures IntegersOnly("1,2 ,  3") && IntegerFields(["1", "2", "3"]) == [Int(1), Int(2), Int(3)]
  {
    MixedIntegersOnly();
    MixedIntegerFields();
  }

  lemma {:induction false} MixedIntegersOnly()
    ensures IntegersOnly("1,2 ,  3")
  {
    MixedRun();
  }

  lemma {:induction false} MixedIntegerFields()
    ensures IntegerFields(["1", "2", "3"]) == [Int(1), Int(2), Int(3)]
  {
    ToIDigits("1");
    ToIDigits("2");
    ToIDigits("3");
  }

  lemma {:induction false} MixedRun()
    ensures IntegerRunEnd("1,2 ,  3", 0) == 8
  {
    var s := "1,2 ,  3";
    assert IntegerRunEnd(s, 4) == 8;
  }

  /** Three integers with commas and spaces mixed */
  lemma {:induction false} FromMixedStringExample()
    ensures From(Str("1,2 ,  3")) == Success(Margin(1, 2, 3, 2))
  {
    ConvertMixedExample();
    FromArraySpread(1, 2, 3, 0);
  }

  lemma {:induction false} ConvertMixedExample()
    ensures ConvertToArray(Str("1,2 ,  3")) == Some([Int(1), Int(2), Int(3)])
  {
    SplitMixedExample();
    ReadMixedExample();
  }

  /** A string with any other character is not a margin */
  lemma {:induction false} FromInvalidStringExample()
    ensures From(Str("5%")) == Failure(InvalidMargin(Str("5%")))
  {
    assert IntegerRunEnd("5%", 0) == 1;
    assert !IntegersOnly("5%");
  }

  /** A float is not an integer side */
  lemma {:induction false} FromFloatExample()
    ensures FromArray([Float("1.0"), Int(2), Int(3), Int(4)]) ==
            Failure(MarginSideNotInteger("top", Float("1.0")))
    ensures Message(MarginSideNotInteger("top", Float("1.0"))) ==
            "top" + " margin needs to be an integer, got: " + "1.0"
  {
  }

  /** to_a lists the sides in order, so two margins are equal exactly when their to_a are */
  lemma {:induction false} EqualIffToA(a: Margin, b: Margin)
    ensures a == b <==> a.ToA() == b.ToA()
  {
    if a.ToA() == b.ToA() {
      assert a.ToA()[0] == b.ToA()[0] && a.ToA()[1] == b.ToA()[1];
      assert a.ToA()[2] == b.ToA()[2] && a.ToA()[3] == b.ToA()[3];
    }
  }

  /** Every margin is rebuilt from its to_a */
  lemma {:induction false} FromToA(m: Margin)
    ensures From(Arr([Int(m.top), Int(m.right), Int(m.bottom), Int(m.left)])) == Success(m)
  {
  }
}
