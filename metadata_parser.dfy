/**
 * Slideck::MetadataParser: calls the YAML library's load method with the
 * arguments and options its signature accepts, then symbolizes the keys
 * of the result unless the library did so itself.
 */
module MetadataParser {
  import opened Wrappers
  import opened Values
  import opened Errors

  /** What the parser asks of the YAML library: whether it has safe_load, and the parameter names of each method */
  datatype YamlLibrary = YamlLibrary(hasSafeLoad: bool, safeLoadParameters: seq<string>, loadParameters: seq<string>)

  /** The parser's settings: the symbolize_names and permitted_classes keywords (nil when not given) */
  datatype Settings = Settings(symbolizeNames: Value, permittedClasses: Value)

  /** The message sent to the YAML library */
  datatype LoadCall = LoadCall(methodName: string, content: string, arguments: seq<Value>, options: Pairs)

  /** MetadataParser#select_parse_method */
  function ParseMethod(yaml: YamlLibrary): (m: string)
    ensures m == "safe_load" <==> yaml.hasSafeLoad
    ensures m == "load" <==> !yaml.hasSafeLoad
  {
    if yaml.hasSafeLoad then "safe_load" else "load"
  }

  /** MetadataParser#parse_method_params */
  function ParseParameters(yaml: YamlLibrary): seq<string> {
    if yaml.hasSafeLoad then yaml.safeLoadParameters else yaml.loadParameters
  }

  /** MetadataParser#parser_arguments: the permitted classes go positionally to an old whitelist_classes signature */
  function Arguments(parameters: seq<string>, settings: Settings): (args: seq<Value>)
    ensures "whitelist_classes" in parameters ==> args == [settings.permittedClasses]
    ensures "whitelist_classes" !in parameters ==> args == []
  {
    if "whitelist_classes" in parameters then [settings.permittedClasses] else []
  }

  /** MetadataParser#parser_options: each keyword the signature accepts, in this order */
  function Options(parameters: seq<string>, settings: Settings): (opts: Pairs)
    ensures Lookup(opts, Sym("permitted_classes")) ==
              if "permitted_classes" in parameters then Some(settings.permittedClasses) else None
    ensures Lookup(opts, Sym("symbolize_names")) ==
              if "symbolize_names" in parameters then Some(settings.symbolizeNames) else None
    ensures forall k :: k != Sym("permitted_classes") && k != Sym("symbolize_names") ==> Lookup(opts, k).None?
  {
    var withPermitted := if "permitted_classes" in parameters then [(Sym("permitted_classes"), settings.permittedClasses)] else [];
    if "symbolize_names" in parameters then withPermitted + [(Sym("symbolize_names"), settings.symbolizeNames)]
    else withPermitted
  }

  /** The call MetadataParser#parse makes on the library */
  function Call(yaml: YamlLibrary, settings: Settings, content: string): (c: LoadCall)
    ensures c.methodName == ParseMethod(yaml) && c.content == content
    ensures c.arguments == Arguments(ParseParameters(yaml), settings)
    ensures c.options == Options(ParseParameters(yaml), settings)
  {
    var parameters := ParseParameters(yaml);
    LoadCall(ParseMethod(yaml), content, Arguments(parameters, settings), Options(parameters, settings))
  }

  /**
   * MetadataParser#parse, given what the library returned for the call:
   * the result is kept when the library took symbolize_names itself, and
   * otherwise symbolized when symbolize_names is set.
   */
  function Parse(yaml: YamlLibrary, settings: Settings, loaded: Value): (r: Result<Value, Error>)
    ensures "symbolize_names" in ParseParameters(yaml) ==> r == Success(loaded)
    ensures "symbolize_names" !in ParseParameters(yaml) && !Truthy(settings.symbolizeNames) ==> r == Success(loaded)
    ensures "symbolize_names" !in ParseParameters(yaml) && Truthy(settings.symbolizeNames) ==> r == SymbolizeKeys(loaded)
  {
    var options := Options(ParseParameters(yaml), settings);
    if Lookup(options, Sym("symbolize_names")).Some? then Success(loaded)
    else if Truthy(settings.symbolizeNames) then SymbolizeKeys(loaded)
    else Success(loaded)
  }

  /** key.to_sym: only strings and symbols respond to it */
  function ToSym(key: Value): (r: Result<Value, Error>)
    ensures r.Success? <==> key.Str? || key.Sym?
    ensures key.Str? ==> r == Success(Sym(key.s))
    ensures key.Sym? ==> r == Success(key)
    ensures r.Failure? ==> r.error == NoMethod("to_sym", key)
  {
    match key
    case Str(s) => Success(Sym(s))
    case Sym(_) => Success(key)
    case _ => Failure(NoMethod("to_sym", key))
  }

  /** Every hash key at every depth responds to to_sym */
  predicate Symbolizable(v: Value)
    decreases v
  {
    match v
    case Arr(items) => forall i :: 0 <= i < |items| ==> Symbolizable(items[i])
    case Hash(pairs) => forall i :: 0 <= i < |pairs| ==>
        (pairs[i].0.Str? || pairs[i].0.Sym?) && Symbolizable(pairs[i].1)
    case _ => true
  }

  /** Every hash key at every depth is a symbol */
  predicate SymbolKeys(v: Value)
    decreases v
  {
    match v
    case Arr(items) => forall i :: 0 <= i < |items| ==> SymbolKeys(items[i])
    case Hash(pairs) => forall i :: 0 <= i < |pairs| ==> pairs[i].0.Sym? && SymbolKeys(pairs[i].1)
    case _ => true
  }

  /** MetadataParser#symbolize_keys */
  function SymbolizeKeys(v: Value): (r: Result<Value, Error>)
    ensures r.Success? <==> Symbolizable(v)
    ensures r.Success? ==> SymbolKeys(r.value)
    ensures !v.Arr? && !v.Hash? ==> r == Success(v)
    ensures v.Arr? && r.Success? ==> r.value.Arr? && |r.value.items| == |v.items|
    ensures v.Hash? && r.Success? ==> r.value.Hash?
    ensures v.Hash? && r.Success? ==> forall j :: 0 <= j < |v.pairs| && LastWithKey(v.pairs, j) ==>
              Lookup(r.value.pairs, ToSym(v.pairs[j].0).value) == Some(SymbolizeKeys(v.pairs[j].1).value)
    ensures v.Hash? && r.Success? ==> forall k :: !SymbolizesTo(v.pairs, k) ==> Lookup(r.value.pairs, k).None?
    decreases v, 1
  {
    match v
    case Hash(pairs) => SymbolizePairs(v, pairs, [])
    case Arr(items) =>
      var xs :- SymbolizeItems(v, items);
      Success(Arr(xs))
    case _ => Success(v)
  }

  /** MetadataParser#symbolize_array_hashes over the remaining items of the array owner */
  function SymbolizeItems(owner: Value, items: seq<Value>): (r: Result<seq<Value>, Error>)
    requires forall i :: 0 <= i < |items| ==> items[i] < owner
    ensures r.Success? <==> forall i :: 0 <= i < |items| ==> Symbolizable(items[i])
    ensures r.Success? ==> |r.value| == |items|
    ensures r.Success? ==> forall i :: 0 <= i < |items| ==> r.value[i] == SymbolizeKeys(items[i]).value
    decreases owner, 0, |items|
  {
    if items == [] then Success([])
    else
      assert forall i :: 1 <= i < |items| ==> items[i] == items[1..][i - 1];
      var x :- SymbolizeKeys(items[0]);
      var rest :- SymbolizeItems(owner, items[1..]);
      Success([x] + rest)
  }

  /** MetadataParser#symbolize_hash_keys over the remaining pairs of the hash owner, into acc */
  function SymbolizePairs(owner: Value, pairs: Pairs, acc: Pairs): (r: Result<Value, Error>)
    requires forall i :: 0 <= i < |pairs| ==> pairs[i].1 < owner
    requires forall i :: 0 <= i < |acc| ==> acc[i].0.Sym? && SymbolKeys(acc[i].1)
    ensures r.Success? <==> forall i :: 0 <= i < |pairs| ==>
              (pairs[i].0.Str? || pairs[i].0.Sym?) && Symbolizable(pairs[i].1)
    ensures r.Success? ==> r.value.Hash? && SymbolKeys(r.value)
    ensures r.Success? ==> forall j :: 0 <= j < |pairs| && LastWithKey(pairs, j) ==>
              Lookup(r.value.pairs, ToSym(pairs[j].0).value) == Some(SymbolizeKeys(pairs[j].1).value)
    ensures r.Success? ==> forall k :: !SymbolizesTo(pairs, k) ==> Lookup(r.value.pairs, k) == Lookup(acc, k)
    decreases owner, 0, |pairs|
  {
    if pairs == [] then Success(Hash(acc))
    else
      assert forall i :: 0 <= i < |pairs| - 1 ==> pairs[1..][i] == pairs[i + 1];
      var key :- ToSym(pairs[0].0);
      var value :- SymbolizeKeys(pairs[0].1);
      var acc' := Store(acc, key, value);
      StoreSymbolKeys(acc, key, value);
      var r := SymbolizePairs(owner, pairs[1..], acc');
      if r.Success? then
        var conv := seq(|pairs|, i requires 0 <= i < |pairs| => SymbolizeKeys(pairs[i].1).value);
        SymbolizedLookups(pairs, conv, acc, r.value.pairs, key);
        r
      else r
  }

  /** The symbols the keys convert to, in order; a key that has no to_sym stands for itself */
  function SymbolsOf(pairs: Pairs): (syms: seq<Value>)
    ensures |syms| == |pairs|
  {
    seq(|pairs|, i requires 0 <= i < |pairs| => if pairs[i].0.Str? then Sym(pairs[i].0.s) else pairs[i].0)
  }

  /** The keys ks followed by each of xs not seen before, at its first occurrence */
  function WithNew(ks: seq<Value>, xs: seq<Value>): seq<Value>
    decreases |xs|
  {
    if xs == [] then ks else WithNew(if xs[0] in ks then ks else ks + [xs[0]], xs[1..])
  }

  /** Hash#[]= in the fold keeps each symbol at the place of its first key, after the accumulator's keys */
  lemma {:induction false} SymbolizePairsKeys(owner: Value, pairs: Pairs, acc: Pairs)
    requires forall i :: 0 <= i < |pairs| ==> pairs[i].1 < owner
    requires forall i :: 0 <= i < |acc| ==> acc[i].0.Sym? && SymbolKeys(acc[i].1)
    ensures var r := SymbolizePairs(owner, pairs, acc);
            r.Success? ==> Keys(r.value.pairs) == WithNew(Keys(acc), SymbolsOf(pairs))
    decreases |pairs|
  {
    var r := SymbolizePairs(owner, pairs, acc);
    if pairs != [] && r.Success? {
      var key := ToSym(pairs[0].0).value;
      var value := SymbolizeKeys(pairs[0].1).value;
      StoreSymbolKeys(acc, key, value);
      assert forall i :: 0 <= i < |pairs[1..]| ==> pairs[1..][i].1 < owner;
      SymbolizePairsKeys(owner, pairs[1..], Store(acc, key, value));
      SymbolizedKeyOrder(pairs, acc, key, value, r.value.pairs);
    }
  }

  /** symbolize_keys keeps the key order: each symbol comes at the place of its first key */
  lemma {:induction false} SymbolizeKeysOrder(v: Value)
    requires v.Hash?
    ensures SymbolizeKeys(v).Success? ==> Keys(SymbolizeKeys(v).value.pairs) == WithNew([], SymbolsOf(v.pairs))
  {
    SymbolizePairsKeys(v, v.pairs, []);
  }

  /** One step of the fold for the key order: the first entry's symbol is stored before the rest */
  lemma {:induction false} SymbolizedKeyOrder(pairs: Pairs, acc: Pairs, key: Value, value: Value, result: Pairs)
    requires pairs != [] && ToSym(pairs[0].0) == Success(key)
    requires Keys(result) == WithNew(Keys(Store(acc, key, value)), SymbolsOf(pairs[1..]))
    ensures Keys(result) == WithNew(Keys(acc), SymbolsOf(pairs))
  {
    StoreKeys(acc, key, value);
    var syms := SymbolsOf(pairs);
    assert syms[0] == key;
    assert syms[1..] == SymbolsOf(pairs[1..]);
    assert WithNew(Keys(acc), syms) == WithNew(if key in Keys(acc) then Keys(acc) else Keys(acc) + [key], syms[1..]);
  }

  /** No later entry's key converts to the same symbol as entry j's, so entry j is the one Hash#[]= leaves */
  predicate LastWithKey(pairs: Pairs, j: int)
    requires 0 <= j < |pairs|
  {
    forall i :: j < i < |pairs| ==> ToSym(pairs[i].0) != ToSym(pairs[j].0)
  }

  /** Some entry's key converts to the symbol k */
  predicate SymbolizesTo(pairs: Pairs, k: Value) {
    exists j :: 0 <= j < |pairs| && ToSym(pairs[j].0) == Success(k)
  }

  /**
   * One step of the fold, over the converted values conv of the entries:
   * the lookups of the converted remainder give the lookups of the whole.
   */
  lemma {:induction false} SymbolizedLookups(pairs: Pairs, conv: seq<Value>, acc: Pairs, result: Pairs, key: Value)
    requires |conv| == |pairs| && pairs != [] && ToSym(pairs[0].0) == Success(key)
    requires forall i :: 0 <= i < |pairs| ==> pairs[i].0.Str? || pairs[i].0.Sym?
    requires forall j :: 0 <= j < |pairs| - 1 && LastWithKey(pairs[1..], j) ==> Lookup(result, ToSym(pairs[1..][j].0).value) == Some(conv[j + 1])
    requires forall k :: !SymbolizesTo(pairs[1..], k) ==> Lookup(result, k) == Lookup(Store(acc, key, conv[0]), k)
    ensures forall j :: 0 <= j < |pairs| && LastWithKey(pairs, j) ==> Lookup(result, ToSym(pairs[j].0).value) == Some(conv[j])
    ensures forall k :: !SymbolizesTo(pairs, k) ==> Lookup(result, k) == Lookup(acc, k)
  {
    var t := pairs[1..];
    forall j | 0 <= j < |pairs| && LastWithKey(pairs, j)
      ensures Lookup(result, ToSym(pairs[j].0).value) == Some(conv[j])
    {
      if j == 0 {
        assert !SymbolizesTo(t, key) by {
          forall i | 0 <= i < |t| ensures ToSym(t[i].0) != Success(key) {
            assert t[i] == pairs[i + 1];
          }
        }
      } else {
        assert t[j - 1] == pairs[j];
        forall i | j - 1 < i < |t| ensures ToSym(t[i].0) != ToSym(t[j - 1].0) {
          assert t[i] == pairs[i + 1];
        }
        assert LastWithKey(t, j - 1);
      }
    }
    forall k | !SymbolizesTo(pairs, k) ensures Lookup(result, k) == Lookup(acc, k) {
      assert !SymbolizesTo(t, k) by {
        forall i | 0 <= i < |t| ensures ToSym(t[i].0) != Success(k) {
          assert t[i] == pairs[i + 1];
        }
      }
      assert k != key;
    }
  }

  lemma {:induction false} StoreSymbolKeys(acc: Pairs, k: Value, v: Value)
    requires forall i :: 0 <= i < |acc| ==> acc[i].0.Sym? && SymbolKeys(acc[i].1)
    requires k.Sym? && SymbolKeys(v)
    ensures forall i :: 0 <= i < |Store(acc, k, v)| ==> Store(acc, k, v)[i].0.Sym? && SymbolKeys(Store(acc, k, v)[i].1)
    decreases |acc|
  {
    if acc != [] && acc[0].0 != k {
      StoreSymbolKeys(acc[1..], k, v);
    }
  }

  // ---------------------------------------------------------------------------
  // Properties
  // ---------------------------------------------------------------------------

  /** No hash at any depth holds a key twice, as for every Ruby Hash */
  predicate DistinctDeep(v: Value)
    decreases v
  {
    match v
    case Arr(items) => forall i :: 0 <= i < |items| ==> DistinctDeep(items[i])
    case Hash(pairs) =>
      && (forall i, j :: 0 <= i < j < |pairs| ==> pairs[i].0 != pairs[j].0)
      && (forall i :: 0 <= i < |pairs| ==> DistinctDeep(pairs[i].1))
    case _ => true
  }

  /** Symbolizing is idempotent: a value whose keys already are symbols comes back unchanged */
  lemma {:induction false} SymbolizeIdempotent(v: Value)
    requires SymbolKeys(v) && DistinctDeep(v)
    ensures SymbolizeKeys(v) == Success(v)
    decreases v, 1
  {
    match v
    case Hash(pairs) =>
      assert pairs == [] + pairs;
      SymbolizePairsIdempotent(v, pairs, []);
    case Arr(items) =>
      SymbolizeItemsIdempotent(v, items);
    case _ =>
  }

  lemma {:induction false} SymbolizeItemsIdempotent(owner: Value, items: seq<Value>)
    requires forall i :: 0 <= i < |items| ==> items[i] < owner
    requires forall i :: 0 <= i < |items| ==> SymbolKeys(items[i]) && DistinctDeep(items[i])
    ensures SymbolizeItems(owner, items) == Success(items)
    decreases owner, 0, |items|
  {
    if items != [] {
      SymbolizeIdempotent(items[0]);
      SymbolizeItemsIdempotent(owner, items[1..]);
      assert items == [items[0]] + items[1..];
    }
  }

  lemma {:induction false} SymbolizePairsIdempotent(owner: Value, pairs: Pairs, acc: Pairs)
    requires forall i :: 0 <= i < |pairs| ==> pairs[i].1 < owner
    requires forall i :: 0 <= i < |acc| ==> acc[i].0.Sym? && SymbolKeys(acc[i].1)
    requires forall i :: 0 <= i < |pairs| ==> pairs[i].0.Sym? && SymbolKeys(pairs[i].1) && DistinctDeep(pairs[i].1)
    requires forall i, j :: 0 <= i < j < |pairs| ==> pairs[i].0 != pairs[j].0
    requires forall i :: 0 <= i < |pairs| ==> pairs[i].0 !in Keys(acc)
    ensures SymbolizePairs(owner, pairs, acc) == Success(Hash(acc + pairs))
    decreases owner, 0, |pairs|, 1
  {
    if pairs == [] {
      assert acc + pairs == acc;
    } else {
      var p := pairs[0];
      var t := pairs[1..];
      SymbolizePairsStep(owner, pairs, acc);
      SymbolizePairsIdempotent(owner, t, acc + [p]);
      assert pairs == [p] + t;
      PairsAssoc(acc, [p], t);
    }
  }

  /** A symbol key that is not yet in the accumulator is appended with its value unchanged */
  lemma {:induction false} SymbolizePairsStep(owner: Value, pairs: Pairs, acc: Pairs)
    requires pairs != []
    requires forall i :: 0 <= i < |pairs| ==> pairs[i].1 < owner
    requires forall i :: 0 <= i < |acc| ==> acc[i].0.Sym? && SymbolKeys(acc[i].1)
    requires forall i :: 0 <= i < |pairs| ==> pairs[i].0.Sym? && SymbolKeys(pairs[i].1) && DistinctDeep(pairs[i].1)
    requires forall i, j :: 0 <= i < j < |pairs| ==> pairs[i].0 != pairs[j].0
    requires forall i :: 0 <= i < |pairs| ==> pairs[i].0 !in Keys(acc)
    ensures forall i :: 0 <= i < |acc + [pairs[0]]| ==> (acc + [pairs[0]])[i].0.Sym? && SymbolKeys((acc + [pairs[0]])[i].1)
    ensures forall i :: 0 <= i < |pairs[1..]| ==> pairs[1..][i].1 < owner
    ensures forall i :: 0 <= i < |pairs[1..]| ==> pairs[1..][i].0 !in Keys(acc + [pairs[0]])
    ensures forall i, j :: 0 <= i < j < |pairs[1..]| ==> pairs[1..][i].0 != pairs[1..][j].0
    ensures SymbolizePairs(owner, pairs, acc) == SymbolizePairs(owner, pairs[1..], acc + [pairs[0]])
    decreases owner, 0, |pairs|, 0
  {
    var p := pairs[0];
    SymbolizeIdempotent(p.1);
    StoreAppends(acc, p.0, p.1);
    StoreSymbolKeys(acc, p.0, p.1);
    TailFresh(pairs, acc);
    assert ToSym(p.0) == Success(p.0);
    assert forall i :: 0 <= i < |pairs[1..]| ==> pairs[1..][i] == pairs[i + 1];
  }

  lemma PairsAssoc(a: Pairs, b: Pairs, c: Pairs)
    ensures (a + b) + c == a + (b + c)
  {
  }

  lemma {:induction false} TailFresh(pairs: Pairs, acc: Pairs)
    requires pairs != []
    requires forall i, j :: 0 <= i < j < |pairs| ==> pairs[i].0 != pairs[j].0
    requires forall i :: 0 <= i < |pairs| ==> pairs[i].0 !in Keys(acc)
    ensures forall i :: 0 <= i < |pairs[1..]| ==> pairs[1..][i].0 !in Keys(acc + [pairs[0]])
    ensures forall i, j :: 0 <= i < j < |pairs[1..]| ==> pairs[1..][i].0 != pairs[1..][j].0
  {
    var t := pairs[1..];
    assert Keys(acc + [pairs[0]]) == Keys(acc) + [pairs[0].0];
    forall i | 0 <= i < |t| ensures t[i].0 !in Keys(acc + [pairs[0]]) {
      assert t[i] == pairs[i + 1];
      assert pairs[0].0 != pairs[i + 1].0;
    }
    forall i, j | 0 <= i < j < |t| ensures t[i].0 != t[j].0 {
      assert t[i] == pairs[i + 1] && t[j] == pairs[j + 1];
    }
  }

  /** A one-entry hash with a string key gets the symbol key */
  lemma {:induction false} SymbolizeSingleEntry(key: string, value: string)
    ensures SymbolizeKeys(Hash([(Str(key), Str(value))])) == Success(Hash([(Sym(key), Str(value))]))
  {
    var h := Hash([(Str(key), Str(value))]);
    assert [(Str(key), Str(value))][1..] == [];
    assert SymbolizePairs(h, [(Str(key), Str(value))], []) == SymbolizePairs(h, [], [(Sym(key), Str(value))]);
  }

  /** A two-item array is symbolized item by item */
  lemma {:induction false} SymbolizeTwoItems(a: Value, b: Value, sa: Value, sb: Value)
    requires SymbolizeKeys(a) == Success(sa) && SymbolizeKeys(b) == Success(sb)
    ensures SymbolizeKeys(Arr([a, b])) == Success(Arr([sa, sb]))
  {
    var items := [a, b];
    var arr := Arr(items);
    assert items[1..] == [b] && [b][1..] == [];
    assert SymbolizeItems(arr, []) == Success([]);
    assert [sb] + [] == [sb];
    assert SymbolizeItems(arr, [b]) == Success([sb]);
    assert [sa] + [sb] == [sa, sb];
    assert SymbolizeItems(arr, items) == Success([sa, sb]);
  }

  /** A two-entry hash with distinct string keys is symbolized entry by entry */
  lemma {:induction false} SymbolizeTwoEntries(k1: string, k2: string, a: Value, b: Value, sa: Value, sb: Value)
    requires k1 != k2
    requires SymbolizeKeys(a) == Success(sa) && SymbolizeKeys(b) == Success(sb)
    ensures SymbolizeKeys(Hash([(Str(k1), a), (Str(k2), b)])) == Success(Hash([(Sym(k1), sa), (Sym(k2), sb)]))
  {
    TwoEntriesFirst(k1, k2, a, b, sa, sb);
    TwoEntriesSecond(k1, k2, a, b, sa, sb);
  }

  /** The first entry goes into the accumulator */
  lemma {:induction false} TwoEntriesFirst(k1: string, k2: string, a: Value, b: Value, sa: Value, sb: Value)
    requires SymbolizeKeys(a) == Success(sa) && SymbolizeKeys(b) == Success(sb)
    ensures b < Hash([(Str(k1), a), (Str(k2), b)])
    ensures SymbolizeKeys(Hash([(Str(k1), a), (Str(k2), b)])) ==
            SymbolizePairs(Hash([(Str(k1), a), (Str(k2), b)]), [(Str(k2), b)], [(Sym(k1), sa)])
  {
    var pairs := [(Str(k1), a), (Str(k2), b)];
    assert pairs[1] == (Str(k2), b);
    assert pairs[1..] == [(Str(k2), b)];
    assert Store([], Sym(k1), sa) == [(Sym(k1), sa)];
  }

  /** The second entry, with a new key, is appended */
  lemma {:induction false} TwoEntriesSecond(k1: string, k2: string, a: Value, b: Value, sa: Value, sb: Value)
    requires k1 != k2
    requires SymbolizeKeys(a) == Success(sa) && SymbolizeKeys(b) == Success(sb)
    requires b < Hash([(Str(k1), a), (Str(k2), b)])
    ensures SymbolizePairs(Hash([(Str(k1), a), (Str(k2), b)]), [(Str(k2), b)], [(Sym(k1), sa)]) ==
            Success(Hash([(Sym(k1), sa), (Sym(k2), sb)]))
  {
    var acc2 := [(Sym(k1), sa), (Sym(k2), sb)];
    assert [(Str(k2), b)][1..] == [];
    assert Store([(Sym(k1), sa)], Sym(k2), sb) == acc2;
  }

  /** The symbolizing example: string keys become symbols at every depth, values are kept */
  lemma {:induction false} SymbolizeExample()
    ensures SymbolizeKeys(Hash([(Str("align"), Str("center")),
                                (Str("footer"), Arr([Hash([(Str("align"), Str("left"))]),
                                                     Hash([(Str("text"), Str("footer content"))])]))])) ==
            Success(Hash([(Sym("align"), Str("center")),
                          (Sym("footer"), Arr([Hash([(Sym("align"), Str("left"))]),
                                               Hash([(Sym("text"), Str("footer content"))])]))]))
  {
    SymbolizeSingleEntry("align", "left");
    SymbolizeSingleEntry("text", "footer content");
    SymbolizeTwoItems(Hash([(Str("align"), Str("left"))]), Hash([(Str("text"), Str("footer content"))]),
                      Hash([(Sym("align"), Str("left"))]), Hash([(Sym("text"), Str("footer content"))]));
    SymbolizeTwoEntries("align", "footer", Str("center"),
                        Arr([Hash([(Str("align"), Str("left"))]), Hash([(Str("text"), Str("footer content"))])]),
                        Str("center"),
                        Arr([Hash([(Sym("align"), Str("left"))]), Hash([(Sym("text"), Str("footer content"))])]));
  }

  /** A string key and a symbol key with the same name collide: the later entry's value is kept */
  lemma {:induction false} SymbolizeCollision()
    ensures var r := SymbolizeKeys(Hash([(Str("a"), Int(1)), (Sym("a"), Int(2))]));
            r.Success? && Lookup(r.value.pairs, Sym("a")) == Some(Int(2))
  {
    var pairs := [(Str("a"), Int(1)), (Sym("a"), Int(2))];
    assert LastWithKey(pairs, 1);
    assert SymbolizeKeys(Int(2)) == Success(Int(2));
  }

  /** {"b" => 1, a: 2, b: 3} keeps its keys in first-seen order, :b then :a */
  lemma {:induction false} SymbolizeOrderExample()
    ensures var r := SymbolizeKeys(Hash(OrderExample()));
            r.Success? && Keys(r.value.pairs) == [Sym("b"), Sym("a")]
  {
    OrderExampleSymbols();
    SymbolizeKeysOrder(Hash(OrderExample()));
    FirstSeenExample(Sym("a"), Sym("b"));
  }

  /** The entries of the key order example */
  function OrderExample(): (pairs: Pairs)
    ensures |pairs| == 3
  {
    [(Str("b"), Int(1)), (Sym("a"), Int(2)), (Sym("b"), Int(3))]
  }

  /** The example can be symbolized, and its keys convert to :b, :a, :b */
  lemma {:induction false} OrderExampleSymbols()
    ensures Symbolizable(Hash(OrderExample()))
    ensures SymbolsOf(OrderExample()) == [Sym("b"), Sym("a"), Sym("b")]
  {
    var pairs := OrderExample();
    assert forall i :: 0 <= i < |pairs| ==> pairs[i].1.Int?;
    var syms := SymbolsOf(pairs);
    assert syms[0] == Sym("b") && syms[1] == Sym("a") && syms[2] == Sym("b");
  }

  /** Keeping first occurrences of b, a, b gives b, a */
  lemma {:induction false} FirstSeenExample(a: Value, b: Value)
    requires a != b
    ensures WithNew([], [b, a, b]) == [b, a]
  {
    assert [b, a, b][1..] == [a, b] && [a, b][1..] == [b] && [b][1..] == [];
    assert [] + [b] == [b];
    assert WithNew([], [b, a, b]) == WithNew([b], [a, b]);
    assert [b] + [a] == [b, a];
    assert WithNew([b], [a, b]) == WithNew([b, a], [b]);
  }

  /** A key that is not a string or a symbol raises, as Integer has no to_sym */
  lemma {:induction false} SymbolizeIntegerKey()
    ensures SymbolizeKeys(Hash([(Int(1), Str("x"))])) == Failure(NoMethod("to_sym", Int(1)))
  {
  }

  /** An old signature takes the permitted classes positionally, a newer one as a keyword */
  lemma {:induction false} CallExamples(content: string, permitted: Value)
    ensures var c := Call(YamlLibrary(true, ["whitelist_classes"], []), Settings(Bool(false), permitted), content);
            c.methodName == "safe_load" && c.arguments == [permitted] && c.options == []
    ensures var c := Call(YamlLibrary(false, [], ["permitted_classes"]), Settings(Bool(false), permitted), content);
            c.methodName == "load" && c.arguments == [] && c.options == [(Sym("permitted_classes"), permitted)]
  {
  }
}
