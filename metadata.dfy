/**
 * Slideck::Metadata: validated, converted and merged configuration, read
 * through one accessor per key.
 */
module Metadata {
  import opened Wrappers
  import opened Values
  import opened Errors
  import opened MetadataValues
  import opened MetadataConverter
  import opened MetadataDefaults
  import A = Alignment

  datatype Metadata = Metadata(fields: Fields) {
    /** The accessor define_meta creates for a key: nil when the hash lacks it */
    function Get(k: MetaKey): MetaValue {
      MetadataValues.Get(fields, k)
    }
  }

  /** custom_metadata_keys - @metadata_keys: the keys that are not metadata keys, in order */
  function UnknownKeys(keys: seq<Value>): (r: seq<Value>)
    ensures forall v :: v in r <==> v in keys && KeyOf(v).None?
    ensures r == [] <==> forall i :: 0 <= i < |keys| ==> KeyOf(keys[i]).Some?
  {
    if keys == [] then []
    else if KeyOf(keys[0]).Some? then UnknownKeys(keys[1..])
    else [keys[0]] + UnknownKeys(keys[1..])
  }

  /** Array#- keeps the order of its receiver: the unknown keys of a + b are those of a, then those of b */
  lemma {:induction false} UnknownKeysAppend(a: seq<Value>, b: seq<Value>)
    ensures UnknownKeys(a + b) == UnknownKeys(a) + UnknownKeys(b)
    decreases |a|
  {
    if a == [] {
      assert a + b == b;
    } else {
      assert (a + b)[0] == a[0] && (a + b)[1..] == a[1..] + b;
      UnknownKeysAppend(a[1..], b);
    }
  }

  /** A single key is unknown exactly when it is not a metadata key */
  lemma {:induction false} UnknownKeysOne(k: Value)
    ensures UnknownKeys([k]) == if KeyOf(k).Some? then [] else [k]
  {
    assert [k][1..] == [];
  }

  /**
   * A hash whose keys all are metadata keys, with each key read as one:
   * the same entries in the same order, each key the symbol of its
   * metadata key's name.
   */
  function Typed(pairs: Pairs): (r: seq<(MetaKey, Value)>)
    requires forall i :: 0 <= i < |pairs| ==> KeyOf(pairs[i].0).Some?
    ensures |r| == |pairs|
    ensures forall i :: 0 <= i < |pairs| ==> pairs[i].0 == Sym(KeyName(r[i].0)) && r[i].1 == pairs[i].1
  {
    seq(|pairs|, i requires 0 <= i < |pairs| => (KeyOf(pairs[i].0).value, pairs[i].1))
  }

  /** A hash without unknown keys is one whose every key is a metadata key, so it can be read with them */
  lemma {:induction false} KnownKeysTyped(pairs: Pairs)
    requires UnknownKeys(Keys(pairs)) == []
    ensures forall i :: 0 <= i < |pairs| ==> KeyOf(pairs[i].0).Some?
    ensures forall i :: 0 <= i < |pairs| ==> pairs[i].0 == Sym(KeyName(Typed(pairs)[i].0)) && Typed(pairs)[i].1 == pairs[i].1
  {
    assert forall i :: 0 <= i < |pairs| ==> Keys(pairs)[i] == pairs[i].0;
  }

  /**
   * Metadata.from: the keys are validated first, then the values are
   * converted and merged with the defaults. Only a hash responds to keys.
   */
  function From(custom: Value, defaults: Defaults): (r: Result<Metadata, Error>)
    ensures !custom.Hash? ==> r == Failure(NoMethod("keys", custom))
    ensures custom.Hash? && UnknownKeys(Keys(custom.pairs)) != [] ==>
              r == Failure(UnknownMetadataKeys(MetadataKeyNames, UnknownKeys(Keys(custom.pairs))))
    ensures custom.Hash? && UnknownKeys(Keys(custom.pairs)) == [] ==>
              (r.Success? <==> AllConvert(Typed(custom.pairs)))
    ensures custom.Hash? && UnknownKeys(Keys(custom.pairs)) == [] ==>
              match Convert(Typed(custom.pairs))
              case Success(converted) => r == Success(Metadata(Merge(defaults, converted)))
              case Failure(e) => r == Failure(e)
    ensures r.Success? ==> WellTyped(r.value.fields)
  {
    if !custom.Hash? then Failure(NoMethod("keys", custom))
    else
      var unknown := UnknownKeys(Keys(custom.pairs));
      if unknown != [] then Failure(UnknownMetadataKeys(MetadataKeyNames, unknown))
      else
        var converted :- Convert(Typed(custom.pairs));
        Success(Metadata(Merge(defaults, converted)))
  }

  /** What the renderer needs of the deck's metadata: every default key present, sections with an alignment and a text */
  predicate DeckShape(md: Metadata) {
    && md.Get(AlignKey).AlignValue?
    && md.Get(MarginKey).MarginValue?
    && md.Get(FooterKey).SectionValue?
    && md.Get(FooterKey).section.align.Some? && md.Get(FooterKey).section.text.Some?
    && md.Get(PagerKey).SectionValue?
    && md.Get(PagerKey).section.align.Some? && md.Get(PagerKey).section.text.Some?
  }

  /** The deck's metadata, merged with the defaults, always has the shape the renderer reads */
  lemma {:induction false} DeckMetadataShape(custom: Value)
    requires From(custom, StandardDefaults).Success?
    ensures DeckShape(From(custom, StandardDefaults).value)
  {
    var converted := Convert(Typed(custom.pairs)).value;
    assert From(custom, StandardDefaults).value == Metadata(Merge(StandardDefaults, converted));
    MergedDeckShape(converted);
  }

  lemma {:induction false} MergedDeckShape(converted: Fields)
    requires WellTyped(converted) && DistinctKeys(converted)
    ensures DeckShape(Metadata(Merge(StandardDefaults, converted)))
  {
    StandardMergeReplaces(converted);
    if HasKey(converted, AlignKey) { WellTypedGet(converted, AlignKey); }
    if HasKey(converted, MarginKey) { WellTypedGet(converted, MarginKey); }
    MergedSectionShape(converted, FooterKey);
    MergedSectionShape(converted, PagerKey);
  }

  lemma {:induction false} MergedSectionShape(converted: Fields, k: MetaKey)
    requires WellTyped(converted) && DistinctKeys(converted)
    requires k == FooterKey || k == PagerKey
    ensures var v := MetadataValues.Get(Merge(StandardDefaults, converted), k);
            v.SectionValue? && v.section.align.Some? && v.section.text.Some?
  {
    StandardMergeSections(converted, k);
    if HasKey(converted, k) {
      WellTypedGet(converted, k);
      var c := MetadataValues.Get(converted, k).section;
      var m := MergeSection(DefaultSection(k), c);
      assert m.align.Some? && m.text.Some?;
    }
  }

  /** A slide's metadata holds only the keys it was given */
  lemma {:induction false} SlideMetadataKeys(custom: Value)
    requires From(custom, EmptyHash).Success?
    ensures From(custom, EmptyHash).value.fields == Convert(Typed(custom.pairs)).value
  {
  }

  /** No custom metadata gives exactly the defaults */
  lemma {:induction false} EmptyDeckMetadata()
    ensures From(Hash([]), StandardDefaults) == Success(Metadata(StandardFields()))
    ensures From(Hash([]), EmptyHash) == Success(Metadata([]))
  {
    assert Keys([]) == [];
    assert Typed([]) == [];
    assert Convert([]) == Success([]);
    MergeNothing();
  }

  /** An unknown key is reported with the list of the known ones */
  lemma {:induction false} UnknownKeyExample()
    ensures From(Hash([(Sym("unknown"), Int(1))]), StandardDefaults) ==
              Failure(UnknownMetadataKeys(MetadataKeyNames, [Sym("unknown")]))
    ensures From(Hash([(Str("align"), Str("left"))]), StandardDefaults) ==
              Failure(UnknownMetadataKeys(MetadataKeyNames, [Str("align")]))
  {
    assert Keys([(Sym("unknown"), Int(1))]) == [Sym("unknown")];
    assert KeyOf(Sym("unknown")).None?;
    assert UnknownKeys([Sym("unknown")]) == [Sym("unknown")];
    assert Keys([(Str("align"), Str("left"))]) == [Str("align")];
    assert UnknownKeys([Str("align")]) == [Str("align")];
  }

  // ---------------------------------------------------------------------------
  // Equality
  // ---------------------------------------------------------------------------

  /** Metadata#== as written: the receiver's own keys are compared */
  predicate EqualAsWritten(a: Metadata, b: Metadata) {
    forall k :: k in KeysOf(a.fields) ==> a.Get(k) == b.Get(k)
  }

  /** Metadata#hash as written: the values under the receiver's own keys */
  function HashAsWritten(a: Metadata): (h: seq<MetaValue>)
    ensures |h| == |a.fields|
    ensures forall i :: 0 <= i < |h| ==> h[i] == a.Get(a.fields[i].0)
  {
    seq(|a.fields|, i requires 0 <= i < |a.fields| => a.Get(a.fields[i].0))
  }

  /**
   * Metadata with no keys equals every metadata under the written ==, but
   * not the other way round, and the two hash differently.
   */
  lemma {:induction false} EqualAsWrittenAsymmetric()
    ensures From(Hash([]), EmptyHash).Success?
    ensures From(Hash([(Sym("align"), Str("left"))]), EmptyHash).Success?
    ensures var a := From(Hash([]), EmptyHash).value;
            var b := From(Hash([(Sym("align"), Str("left"))]), EmptyHash).value;
            EqualAsWritten(a, b) && !EqualAsWritten(b, a) && HashAsWritten(a) != HashAsWritten(b)
  {
    assert Keys([]) == [];
    var pairs := [(Sym("align"), Str("left"))];
    assert Keys(pairs) == [Sym("align")];
    A.FromSingle("left", "center");
    var custom := Typed(pairs);
    assert custom == [(AlignKey, Str("left"))];
    var v := AlignValue(A.Alignment(A.Left, A.VCenter));
    assert ConvertFor(AlignKey, Str("left")) == Success(v);
    ConvertEntries(custom);
    assert Convert(custom).value == [(AlignKey, v)];
    var b := From(Hash(pairs), EmptyHash).value;
    assert b.fields == [(AlignKey, v)];
    assert b.Get(AlignKey) == v;
    assert AlignKey in KeysOf(b.fields);
  }

  /** Metadata#==, comparing the value of every metadata key */
  predicate Equal(a: Metadata, b: Metadata) {
    forall k: MetaKey :: a.Get(k) == b.Get(k)
  }

  /** Metadata#hash, over the values of every metadata key */
  function HashValues(a: Metadata): (h: seq<MetaValue>)
    ensures |h| == |MetaKeys|
    ensures forall i :: 0 <= i < |MetaKeys| ==> h[i] == a.Get(MetaKeys[i])
  {
    [a.Get(AlignKey), a.Get(FooterKey), a.Get(MarginKey), a.Get(PagerKey), a.Get(SymbolsKey), a.Get(ThemeKey)]
  }

  /** Equality is an equivalence */
  lemma {:induction false} EqualEquivalence(a: Metadata, b: Metadata, c: Metadata)
    ensures Equal(a, a)
    ensures Equal(a, b) ==> Equal(b, a)
    ensures Equal(a, b) && Equal(b, c) ==> Equal(a, c)
  {
  }

  /** Equal metadata hash alike, and metadata that hash alike are equal */
  lemma {:induction false} EqualIffHash(a: Metadata, b: Metadata)
    ensures Equal(a, b) <==> HashValues(a) == HashValues(b)
  {
    if HashValues(a) == HashValues(b) {
      forall k: MetaKey ensures a.Get(k) == b.Get(k) {
        match k
        case AlignKey => assert HashValues(a)[0] == HashValues(b)[0];
        case FooterKey => assert HashValues(a)[1] == HashValues(b)[1];
        case MarginKey => assert HashValues(a)[2] == HashValues(b)[2];
        case PagerKey => assert HashValues(a)[3] == HashValues(b)[3];
        case SymbolsKey => assert HashValues(a)[4] == HashValues(b)[4];
        case ThemeKey => assert HashValues(a)[5] == HashValues(b)[5];
      }
    }
  }

  /** Equal metadata are equal under the written == in both directions */
  lemma {:induction false} EqualRefinesAsWritten(a: Metadata, b: Metadata)
    ensures Equal(a, b) ==> EqualAsWritten(a, b) && EqualAsWritten(b, a)
  {
  }
}
