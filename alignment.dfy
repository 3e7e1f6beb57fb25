/**
 * Slideck::Alignment: a validated (horizontal, vertical) pair parsed from
 * text such as "right top", "right,top" or "right".
 */
module Alignment {
  import opened Wrappers
  import opened RubyText
  import opened Values
  import opened Errors

  datatype Horizontal = Left | HCenter | Right
  datatype Vertical = Top | VCenter | Bottom

  /** HORIZONTAL_VALUES, in order */
  const HorizontalValues: seq<string> := ["left", "center", "right"]
  /** VERTICAL_VALUES, in order */
  const VerticalValues: seq<string> := ["top", "center", "bottom"]

  datatype Alignment = Alignment(horizontal: Horizontal, vertical: Vertical)
  {
    /** Alignment#to_a */
    function ToA(): (a: seq<string>)
      ensures |a| == 2 && a[0] in HorizontalValues && a[1] in VerticalValues
    {
      [HorizontalName(horizontal), VerticalName(vertical)]
    }
  }

  function HorizontalName(h: Horizontal): string {
    match h
    case Left => "left"
    case HCenter => "center"
    case Right => "right"
  }

  function VerticalName(v: Vertical): string {
    match v
    case Top => "top"
    case VCenter => "center"
    case Bottom => "bottom"
  }

  function ParseHorizontal(s: string): (r: Option<Horizontal>)
    ensures r.Some? <==> s in HorizontalValues
    ensures r.Some? ==> HorizontalName(r.value) == s
  {
    if s == "left" then Some(Left)
    else if s == "center" then Some(HCenter)
    else if s == "right" then Some(Right)
    else None
  }

  function ParseVertical(s: string): (r: Option<Vertical>)
    ensures r.Some? <==> s in VerticalValues
    ensures r.Some? ==> VerticalName(r.value) == s
  {
    if s == "top" then Some(Top)
    else if s == "center" then Some(VCenter)
    else if s == "bottom" then Some(Bottom)
    else None
  }

  /**
   * Alignment.[] and Alignment#initialize: validates the horizontal value
   * first, then the vertical one.
   */
  function Make(horizontal: string, vertical: string): (r: Result<Alignment, Error>)
    ensures r.Success? <==> horizontal in HorizontalValues && vertical in VerticalValues
    ensures r.Success? ==> r.value.ToA() == [horizontal, vertical]
    ensures horizontal !in HorizontalValues ==> r == Failure(UnknownHorizontal(horizontal))
    ensures horizontal in HorizontalValues && vertical !in VerticalValues ==>
              r == Failure(UnknownVertical(vertical))
  {
    match ParseHorizontal(horizontal)
    case None => Failure(UnknownHorizontal(horizontal))
    case Some(h) =>
      match ParseVertical(vertical)
      case None => Failure(UnknownVertical(vertical))
      case Some(v) => Success(Alignment(h, v))
  }

  /**
   * Alignment.from: the first field of the text is the horizontal value,
   * the second the vertical one (the given default when absent), and any
   * further fields are ignored. A missing horizontal value is nil, which
   * the error message prints as the empty string.
   */
  function From(value: string, default: string): (r: Result<Alignment, Error>)
    ensures Split(value) == [] ==> r == Failure(UnknownHorizontal(""))
    ensures Split(value) != [] ==> r.Success? ==> r.value.ToA()[0] == Split(value)[0]
    ensures |Split(value)| <= 1 ==> r.Success? ==> r.value.ToA()[1] == default
    ensures |Split(value)| >= 2 ==> r == Make(Split(value)[0], Split(value)[1])
  {
    var fields := Split(value);
    var horizontal := if |fields| > 0 then fields[0] else "";
    var vertical := if |fields| > 1 then fields[1] else default;
    Make(horizontal, vertical)
  }

  /** Alignment.from applied to any value: only a String responds to split */
  function FromValue(value: Value, default: string): (r: Result<Alignment, Error>)
    ensures !value.Str? ==> r == Failure(NoMethod("split", value))
    ensures value.Str? ==> r == From(value.s, default)
  {
    if value.Str? then From(value.s, default) else Failure(NoMethod("split", value))
  }

  predicate IsToken(s: string) { s != "" && NoSeparator(s) }

  /** A single token sets the horizontal value and takes the default vertical value */
  lemma {:induction false} FromSingle(h: string, default: string)
    requires IsToken(h)
    ensures From(h, default) == Make(h, default)
  {
    SplitSingle(h);
  }

  /** Two tokens joined by any run of spaces and commas give the pair */
  lemma {:induction false} FromPair(h: string, sep: string, v: string, default: string)
    requires IsToken(h) && IsToken(v)
    requires sep != "" && AllSeparators(sep)
    ensures From(h + sep + v, default) == Make(h, v)
  {
    SplitCons(h, sep, v);
    SplitSingle(v);
  }

  /** Tokens after the second one are ignored */
  lemma {:induction false} FromIgnoresRest(h: string, sep1: string, v: string, sep2: string, rest: string, default: string)
    requires IsToken(h) && IsToken(v)
    requires sep1 != "" && AllSeparators(sep1) && sep2 != "" && AllSeparators(sep2)
    requires rest == "" || !IsSeparator(rest[0])
    ensures From(h + sep1 + v + sep2 + rest, default) == Make(h, v)
  {
    assert h + sep1 + v + sep2 + rest == h + sep1 + (v + sep2 + rest);
    SplitCons(v, sep2, rest);
    assert (v + sep2 + rest)[0] == v[0];
    SplitCons(h, sep1, v + sep2 + rest);
  }

  /** A single value, with the standard and with a given default */
  lemma {:induction false} FromSingleExamples()
    ensures From("right", "center") == Success(Alignment(Right, VCenter))
    ensures From("right", "bottom") == Success(Alignment(Right, Bottom))
    ensures From("unknown", "center") == Failure(UnknownHorizontal("unknown"))
  {
    FromSingle("right", "center");
    FromSingle("right", "bottom");
    FromSingle("unknown", "center");
  }

  /** Space, comma and mixed separators are equivalent */
  lemma {:induction false} FromSeparatorExamples()
    ensures From("right top", "center") == Success(Alignment(Right, Top))
    ensures From("right,top", "center") == Success(Alignment(Right, Top))
    ensures From("right , top", "center") == Success(Alignment(Right, Top))
  {
    assert "right top" == "right" + " " + "top";
    FromPair("right", " ", "top", "center");
    assert "right,top" == "right" + "," + "top";
    FromPair("right", ",", "top", "center");
    assert "right , top" == "right" + " , " + "top";
    FromPair("right", " , ", "top", "center");
  }

  /** A bad vertical value is reported once the horizontal one is valid */
  lemma {:induction false} FromVerticalExample()
    ensures From("center unknown", "center") == Failure(UnknownVertical("unknown"))
  {
    assert "center unknown" == "center" + " " + "unknown";
    FromPair("center", " ", "unknown", "center");
  }

  /** Every alignment is rebuilt from its to_a, so equality is equality of to_a */
  lemma {:induction false} MakeToA(a: Alignment)
    ensures Make(a.ToA()[0], a.ToA()[1]) == Success(a)
  {
  }

  lemma {:induction false} EqualIffToA(a: Alignment, b: Alignment)
    ensures a == b <==> a.ToA() == b.ToA()
  {
    if a.ToA() == b.ToA() {
      MakeToA(a);
      MakeToA(b);
    }
  }
}
