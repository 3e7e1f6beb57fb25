/**
 * The configuration ("metadata") keys and the converted values stored
 * under them: an alignment, a margin, a footer or pager hash, or nil.
 */
module MetadataValues {
  import opened Wrappers
  import opened Values
  import Alignment
  import Margin
  import Errors

  /** The keys Slideck::Metadata defines, in definition order */
  datatype MetaKey = AlignKey | FooterKey | MarginKey | PagerKey | SymbolsKey | ThemeKey

  const MetaKeys: seq<MetaKey> := [AlignKey, FooterKey, MarginKey, PagerKey, SymbolsKey, ThemeKey]

  function KeyName(k: MetaKey): string {
    match k
    case AlignKey => "align"
    case FooterKey => "footer"
    case MarginKey => "margin"
    case PagerKey => "pager"
    case SymbolsKey => "symbols"
    case ThemeKey => "theme"
  }

  /** The names in Errors.MetadataKeyNames are the key names, in definition order */
  lemma {:induction false} KeyNamesInOrder()
    ensures |Errors.MetadataKeyNames| == |MetaKeys|
    ensures forall i :: 0 <= i < |MetaKeys| ==> Errors.MetadataKeyNames[i] == KeyName(MetaKeys[i])
  {
  }

  /** The key a raw hash key stands for: only the six symbols are keys */
  function KeyOf(v: Value): (r: Option<MetaKey>)
    ensures r.Some? ==> v == Sym(KeyName(r.value))
    ensures r.None? ==> forall k :: v != Sym(KeyName(k))
  {
    if v.Sym? then
      if v.name == "align" then Some(AlignKey)
      else if v.name == "footer" then Some(FooterKey)
      else if v.name == "margin" then Some(MarginKey)
      else if v.name == "pager" then Some(PagerKey)
      else if v.name == "symbols" then Some(SymbolsKey)
      else if v.name == "theme" then Some(ThemeKey)
      else None
    else None
  }

  /**
   * A footer or pager hash: its :align entry (converted to an Alignment),
   * its :text entry and its other entries. None means the key is absent;
   * Some(Nil) means it is present with nil.
   */
  datatype Section = Section(align: Option<Alignment.Alignment>, text: Option<Value>, extra: map<Value, Value>)

  datatype MetaValue =
    | AlignValue(alignment: Alignment.Alignment)
    | MarginValue(margin: Margin.Margin)
    | SectionValue(section: Section)
    | NilValue

  /** A metadata hash: keys in insertion order */
  type Fields = seq<(MetaKey, MetaValue)>

  /** Hash#keys, in insertion order */
  function KeysOf(fields: Fields): (ks: seq<MetaKey>)
    ensures |ks| == |fields| && forall i :: 0 <= i < |fields| ==> ks[i] == fields[i].0
  {
    if fields == [] then [] else [fields[0].0] + KeysOf(fields[1..])
  }

  predicate HasKey(fields: Fields, k: MetaKey) {
    k in KeysOf(fields)
  }

  /** Hash#[]: the value under k, nil when absent */
  function Get(fields: Fields, k: MetaKey): (v: MetaValue)
    ensures !HasKey(fields, k) ==> v == NilValue
    ensures HasKey(fields, k) ==> (k, v) in fields
  {
    if fields == [] then NilValue
    else if fields[0].0 == k then fields[0].1
    else Get(fields[1..], k)
  }

  /** Hash#[]=: an existing key keeps its place and takes the new value, a new key is appended */
  function Put(fields: Fields, k: MetaKey, v: MetaValue): (r: Fields)
    ensures Get(r, k) == v
    ensures forall k' :: k' != k ==> Get(r, k') == Get(fields, k')
  {
    if fields == [] then [(k, v)]
    else if fields[0].0 == k then [(k, v)] + fields[1..]
    else
      var r := [fields[0]] + Put(fields[1..], k, v);
      assert r[1..] == Put(fields[1..], k, v);
      r
  }

  lemma {:induction false} KeysOfAppend(fields: Fields, x: (MetaKey, MetaValue))
    ensures KeysOf(fields + [x]) == KeysOf(fields) + [x.0]
    decreases |fields|
  {
    if fields != [] {
      KeysOfAppend(fields[1..], x);
      assert (fields + [x])[1..] == fields[1..] + [x];
    }
  }

  /** Hash#[]= keeps the order of the keys and appends a new key at the end */
  lemma {:induction false} PutKeys(fields: Fields, k: MetaKey, v: MetaValue)
    ensures KeysOf(Put(fields, k, v)) == if HasKey(fields, k) then KeysOf(fields) else KeysOf(fields) + [k]
    decreases |fields|
  {
    if fields == [] {
    } else if fields[0].0 == k {
      PutFirstKeys(fields, k, v);
    } else {
      PutKeys(fields[1..], k, v);
      PutLaterKeys(fields, k, v);
    }
  }

  /** Hash#[]= on the first key keeps the keys */
  lemma {:induction false} PutFirstKeys(fields: Fields, k: MetaKey, v: MetaValue)
    requires fields != [] && fields[0].0 == k
    ensures HasKey(fields, k) && KeysOf(Put(fields, k, v)) == KeysOf(fields)
  {
    var r := Put(fields, k, v);
    assert r[1..] == fields[1..];
    KeysOfCons(r);
    KeysOfCons(fields);
  }

  /** Hash#[]= on a later key: the keys are the first one and those of the rest after the store */
  lemma {:induction false} PutLaterKeys(fields: Fields, k: MetaKey, v: MetaValue)
    requires fields != [] && fields[0].0 != k
    requires KeysOf(Put(fields[1..], k, v)) == if HasKey(fields[1..], k) then KeysOf(fields[1..]) else KeysOf(fields[1..]) + [k]
    ensures KeysOf(Put(fields, k, v)) == if HasKey(fields, k) then KeysOf(fields) else KeysOf(fields) + [k]
  {
    var rest := fields[1..];
    PutPassesKeys(fields, k, v);
    KeysOfCons(fields);
    if !HasKey(rest, k) {
      assert [fields[0].0] + (KeysOf(rest) + [k]) == KeysOf(fields) + [k];
    }
  }

  /** Hash#[]= with a key other than the first keeps the first key in front */
  lemma {:induction false} PutPassesKeys(fields: Fields, k: MetaKey, v: MetaValue)
    requires fields != [] && fields[0].0 != k
    ensures KeysOf(Put(fields, k, v)) == [fields[0].0] + KeysOf(Put(fields[1..], k, v))
  {
    var r := Put(fields, k, v);
    assert r == [fields[0]] + Put(fields[1..], k, v);
    assert r[1..] == Put(fields[1..], k, v);
    KeysOfCons(r);
  }

  lemma {:induction false} KeysOfCons(fields: Fields)
    requires fields != []
    ensures KeysOf(fields) == [fields[0].0] + KeysOf(fields[1..])
  {
  }

  /** A key is held after Hash#[]= exactly when it is the key stored or was held before */
  lemma {:induction false} PutHasKey(fields: Fields, k: MetaKey, v: MetaValue, k': MetaKey)
    ensures HasKey(Put(fields, k, v), k') <==> k' == k || HasKey(fields, k')
  {
    PutKeys(fields, k, v);
  }

  /** No key occurs twice, as in every Ruby Hash */
  predicate DistinctKeys(fields: Fields) {
    fields == [] || (!HasKey(fields[1..], fields[0].0) && DistinctKeys(fields[1..]))
  }

  lemma {:induction false} PutDistinct(fields: Fields, k: MetaKey, v: MetaValue)
    ensures DistinctKeys(fields) ==> DistinctKeys(Put(fields, k, v))
    decreases |fields|
  {
    if fields != [] && DistinctKeys(fields) {
      var r := Put(fields, k, v);
      if fields[0].0 == k {
        assert r[1..] == fields[1..];
      } else {
        PutDistinct(fields[1..], k, v);
        PutHasKey(fields[1..], k, v, fields[0].0);
        assert r[1..] == Put(fields[1..], k, v);
      }
    }
  }

  /**
   * The shapes the converter gives each key: an alignment, a margin, a
   * footer or pager section, and nil for symbols and theme.
   */
  predicate WellTypedEntry(k: MetaKey, v: MetaValue) {
    match k
    case AlignKey => v.AlignValue?
    case MarginKey => v.MarginValue?
    case FooterKey => v.SectionValue?
    case PagerKey => v.SectionValue?
    case _ => v.NilValue?
  }

  predicate WellTyped(fields: Fields) {
    forall i :: 0 <= i < |fields| ==> WellTypedEntry(fields[i].0, fields[i].1)
  }

  lemma {:induction false} WellTypedGet(fields: Fields, k: MetaKey)
    requires WellTyped(fields) && HasKey(fields, k)
    ensures WellTypedEntry(k, Get(fields, k))
  {
  }
}
