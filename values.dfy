/**
 * Ruby values as the YAML loader hands them over: nil, booleans, integers,
 * floats (kept as their printed form), strings, symbols, arrays and hashes.
 * A hash is its list of pairs in insertion order.
 */
module Values {
  import opened Wrappers
  import opened RubyText

  datatype Value =
    | Nil
    | Bool(b: bool)
    | Int(i: int)
    | Float(text: string)
    | Str(s: string)
    | Sym(name: string)
    | Arr(items: seq<Value>)
    | Hash(pairs: seq<(Value, Value)>)

  type Pairs = seq<(Value, Value)>

  /** Ruby truthiness: everything except nil and false */
  predicate Truthy(v: Value) { v != Nil && v != Bool(false) }

  /** Hash#keys */
  function Keys(pairs: Pairs): (ks: seq<Value>)
    ensures |ks| == |pairs|
    ensures forall i :: 0 <= i < |pairs| ==> ks[i] == pairs[i].0
  {
    seq(|pairs|, i requires 0 <= i < |pairs| => pairs[i].0)
  }

  /** Hash#[] together with Hash#key?: the value stored under k, if any */
  function Lookup(pairs: Pairs, k: Value): (r: Option<Value>)
    ensures r.None? <==> (forall i :: 0 <= i < |pairs| ==> pairs[i].0 != k)
    ensures r.Some? ==> exists i :: 0 <= i < |pairs| && pairs[i] == (k, r.value)
    decreases |pairs|
  {
    if pairs == [] then None
    else if pairs[0].0 == k then Some(pairs[0].1)
    else
      var r := Lookup(pairs[1..], k);
      assert forall i :: 1 <= i < |pairs| ==> pairs[i] == pairs[1..][i - 1];
      r
  }

  /** Hash#[]=: an existing key keeps its position and gets the new value, a new key is appended */
  function Store(pairs: Pairs, k: Value, v: Value): (r: Pairs)
    ensures Lookup(r, k) == Some(v)
    ensures forall k' :: k' != k ==> Lookup(r, k') == Lookup(pairs, k')
    decreases |pairs|
  {
    if pairs == [] then [(k, v)]
    else if pairs[0].0 == k then [(k, v)] + pairs[1..]
    else [pairs[0]] + Store(pairs[1..], k, v)
  }

  /** Hash#[]= keeps the key order: an existing key keeps its place, a new one comes last */
  lemma {:induction false} StoreKeys(pairs: Pairs, k: Value, v: Value)
    ensures Keys(Store(pairs, k, v)) == if k in Keys(pairs) then Keys(pairs) else Keys(pairs) + [k]
  {
    if k in Keys(pairs) {
      StoreKeepsKeys(pairs, k, v);
    } else {
      StoreAppends(pairs, k, v);
      assert Keys(pairs + [(k, v)]) == Keys(pairs) + [k];
    }
  }

  lemma {:induction false} StoreKeepsKeys(pairs: Pairs, k: Value, v: Value)
    requires k in Keys(pairs)
    ensures Keys(Store(pairs, k, v)) == Keys(pairs)
    decreases |pairs|
  {
    var t := pairs[1..];
    assert pairs == [pairs[0]] + t;
    KeysCons(pairs[0], t);
    if pairs[0].0 == k {
      assert Store(pairs, k, v) == [(k, v)] + t;
      KeysCons((k, v), t);
    } else {
      assert k in Keys(t);
      StoreKeepsKeys(t, k, v);
      assert Store(pairs, k, v) == [pairs[0]] + Store(t, k, v);
      KeysCons(pairs[0], Store(t, k, v));
    }
  }

  lemma KeysCons(p: (Value, Value), t: Pairs)
    ensures Keys([p] + t) == [p.0] + Keys(t)
  {
  }

  /** Storing a key the hash does not hold appends the pair */
  lemma {:induction false} StoreAppends(pairs: Pairs, k: Value, v: Value)
    requires k !in Keys(pairs)
    ensures Store(pairs, k, v) == pairs + [(k, v)]
    decreases |pairs|
  {
    if pairs != [] {
      var t := pairs[1..];
      assert pairs[0].0 == Keys(pairs)[0];
      assert Keys(t) == Keys(pairs)[1..];
      assert pairs == [pairs[0]] + t;
      StoreAppends(t, k, v);
      calc {
        Store(pairs, k, v);
        [pairs[0]] + Store(t, k, v);
        [pairs[0]] + (t + [(k, v)]);
        pairs + [(k, v)];
      }
    }
  }

  /** Symbol#inspect, for symbols that print without quotes */
  function InspectSymbol(name: string): string { ":" + name }

  /** An upper-case hexadecimal digit */
  function HexDigit(d: int): (c: char)
    requires 0 <= d < 16
    ensures ('0' <= c <= '9' || 'A' <= c <= 'F')
  {
    if d < 10 then '0' + d as char else 'A' + (d - 10) as char
  }

  /**
   * The escaped body of String#inspect: the named escapes, "#" before
   * "{", "$" or "@", and \u00XX for any other ASCII control character
   */
  function EscapeString(s: string): string
    decreases |s|
  {
    if s == "" then ""
    else
      var c := s[0];
      var e :=
        if c == '"' then "\\\""
        else if c == '\\' then "\\\\"
        else if c == '\n' then "\\n"
        else if c == '\t' then "\\t"
        else if c == '\r' then "\\r"
        else if c == '\U{0C}' then "\\f"
        else if c == '\U{0B}' then "\\v"
        else if c == '\U{08}' then "\\b"
        else if c == '\U{07}' then "\\a"
        else if c == '\U{1B}' then "\\e"
        else if c == '#' && |s| > 1 && (s[1] == '{' || s[1] == '$' || s[1] == '@') then "\\#"
        else if c < ' ' || c == '\U{7F}' then "\\u00" + [HexDigit(c as int / 16), HexDigit(c as int % 16)]
        else [c];
      e + EscapeString(s[1..])
  }

  /**
   * Object#inspect for these values, as Ruby 3.4 writes it: a Symbol key of
   * a hash is written "name: value", any other key "key => value".
   */
  function Inspect(v: Value): string
    decreases v, 1
  {
    match v
    case Nil => "nil"
    case Bool(b) => if b then "true" else "false"
    case Int(i) => IntToString(i)
    case Float(text) => text
    case Str(s) => "\"" + EscapeString(s) + "\""
    case Sym(name) => InspectSymbol(name)
    case Arr(items) => "[" + JoinWith(InspectItems(v, items), ", ") + "]"
    case Hash(pairs) => "{" + JoinWith(InspectPairs(v, pairs), ", ") + "}"
  }

  /** The inspected elements of the array owner */
  function InspectItems(owner: Value, items: seq<Value>): (r: seq<string>)
    requires forall i :: 0 <= i < |items| ==> items[i] < owner
    ensures |r| == |items|
    decreases owner, 0, |items|
  {
    if items == [] then [] else [Inspect(items[0])] + InspectItems(owner, items[1..])
  }

  /** The inspected entries of the hash owner */
  function InspectPairs(owner: Value, pairs: Pairs): (r: seq<string>)
    requires forall i :: 0 <= i < |pairs| ==> pairs[i].0 < owner && pairs[i].1 < owner
    ensures |r| == |pairs|
    decreases owner, 0, |pairs|
  {
    if pairs == [] then []
    else
      var key := if pairs[0].0.Sym? then pairs[0].0.name + ": " else Inspect(pairs[0].0) + " => ";
      [key + Inspect(pairs[0].1)] + InspectPairs(owner, pairs[1..])
  }

  /** Object#to_s, as string interpolation uses it */
  function ToS(v: Value): string {
    match v
    case Nil => ""
    case Bool(b) => if b then "true" else "false"
    case Int(i) => IntToString(i)
    case Float(text) => text
    case Str(s) => s
    case Sym(name) => name
    case _ => Inspect(v)
  }

  /** Array#join(sep): nested arrays are joined with the same separator */
  function JoinValues(vs: seq<Value>, sep: string): string {
    JoinWith(JoinParts(vs, sep), sep)
  }

  /** The strings Array#join puts between its separators */
  function JoinParts(vs: seq<Value>, sep: string): (r: seq<string>)
    ensures |r| == |vs|
    decreases vs
  {
    if vs == [] then []
    else
      var first := if vs[0].Arr? then JoinWith(JoinParts(vs[0].items, sep), sep) else ToS(vs[0]);
      [first] + JoinParts(vs[1..], sep)
  }
}
