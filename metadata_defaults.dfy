/**
 * Slideck::MetadataDefaults: the default configuration of a deck and its
 * merge with converted custom metadata. Slide metadata is merged into a
 * plain empty hash instead.
 */
module MetadataDefaults {
  import opened Wrappers
  import opened Values
  import opened MetadataValues
  import A = Alignment
  import M = Margin

  /** What custom metadata is merged into: the deck defaults, or {} for a slide */
  datatype Defaults = StandardDefaults | EmptyHash

  function DefaultFooter(): Section {
    Section(Some(A.Alignment(A.Left, A.Bottom)), Some(Str("")), map[])
  }

  function DefaultPager(): Section {
    Section(Some(A.Alignment(A.Right, A.Bottom)), Some(Str("%<page>d / %<total>d")), map[])
  }

  /** MetadataDefaults#create_defaults */
  function StandardFields(): Fields {
    [(AlignKey, AlignValue(A.Alignment(A.Left, A.Top))),
     (FooterKey, SectionValue(DefaultFooter())),
     (MarginKey, MarginValue(M.Margin(0, 0, 0, 0))),
     (PagerKey, SectionValue(DefaultPager()))]
  }

  /** The defaults are well typed, with the four keys once each */
  lemma {:induction false} StandardShape()
    ensures WellTyped(StandardFields()) && DistinctKeys(StandardFields())
    ensures KeysOf(StandardFields()) == [AlignKey, FooterKey, MarginKey, PagerKey]
  {
    var fields := StandardFields();
    assert fields[1..][1..][1..][1..] == [];
    StandardKeysOf();
  }

  lemma {:induction false} StandardKeysOf()
    ensures KeysOf(StandardFields()) == [AlignKey, FooterKey, MarginKey, PagerKey]
  {
    var f := StandardFields();
    assert f[1..][1..][1..][1..] == [];
  }

  /** The defaults are what Alignment.[] and Margin.[] build from the source's arguments */
  lemma {:induction false} DefaultsConstructed()
    ensures A.Make("left", "top") == Success(A.Alignment(A.Left, A.Top))
    ensures A.Make("left", "bottom") == Success(DefaultFooter().align.value)
    ensures A.Make("right", "bottom") == Success(DefaultPager().align.value)
    ensures M.FromArray([Int(0), Int(0), Int(0), Int(0)]) == Success(M.Margin(0, 0, 0, 0))
  {
  }

  /** Hash#merge of a default section with a custom one: custom entries win */
  function MergeSection(d: Section, c: Section): (r: Section)
    ensures c.align.Some? ==> r.align == c.align
    ensures c.align.None? ==> r.align == d.align
    ensures c.text.Some? ==> r.text == c.text
    ensures c.text.None? ==> r.text == d.text
    ensures r.extra.Keys == d.extra.Keys + c.extra.Keys
    ensures forall k :: k in r.extra ==> r.extra[k] == if k in c.extra then c.extra[k] else d.extra[k]
  {
    Section(if c.align.Some? then c.align else d.align,
            if c.text.Some? then c.text else d.text,
            d.extra + c.extra)
  }

  /** The merge block: a hash default is merged with the custom hash, anything else is replaced */
  function MergeValue(d: MetaValue, c: MetaValue): (r: MetaValue)
    requires d.SectionValue? ==> c.SectionValue?
    ensures !d.SectionValue? ==> r == c
    ensures d.SectionValue? ==> r == SectionValue(MergeSection(d.section, c.section))
  {
    if d.SectionValue? then SectionValue(MergeSection(d.section, c.section)) else c
  }

  /** Hash#merge with the block, entry by entry in the custom hash's order */
  function MergeWith(base: Fields, custom: Fields): (r: Fields)
    requires WellTyped(base) && WellTyped(custom)
    ensures WellTyped(r)
    ensures DistinctKeys(base) ==> DistinctKeys(r)
    decreases |custom|
  {
    if custom == [] then base
    else
      var (k, c) := custom[0];
      var v := MergedEntry(base, k, c);
      PutWellTypedEntry(base, k, v);
      PutDistinct(base, k, v);
      MergeWith(Put(base, k, v), custom[1..])
  }

  /** The value one custom entry leaves under its key */
  function MergedEntry(base: Fields, k: MetaKey, c: MetaValue): (v: MetaValue)
    requires WellTyped(base) && WellTypedEntry(k, c)
    ensures WellTypedEntry(k, v)
  {
    if HasKey(base, k) then
      WellTypedGet(base, k);
      MergeValue(Get(base, k), c)
    else c
  }

  lemma {:induction false} PutWellTypedEntry(fields: Fields, k: MetaKey, v: MetaValue)
    requires WellTyped(fields) && WellTypedEntry(k, v)
    ensures WellTyped(Put(fields, k, v))
    decreases |fields|
  {
    if fields != [] && fields[0].0 != k {
      PutWellTypedEntry(fields[1..], k, v);
    }
  }

  /**
   * MetadataDefaults#merge for the deck, and {}.merge for a slide (a copy
   * of the custom hash).
   */
  function Merge(defaults: Defaults, custom: Fields): (r: Fields)
    requires WellTyped(custom)
    ensures WellTyped(r)
    ensures defaults.EmptyHash? ==> r == custom
  {
    match defaults
    case StandardDefaults =>
      StandardShape();
      MergeWith(StandardFields(), custom)
    case EmptyHash => custom
  }

  // ---------------------------------------------------------------------------
  // Properties
  // ---------------------------------------------------------------------------

  /** The value a key has after merging: the custom one, merged into a hash default */
  function Merged(base: Fields, custom: Fields, k: MetaKey): MetaValue
    requires WellTyped(base) && WellTyped(custom)
  {
    if !HasKey(custom, k) then Get(base, k)
    else
      WellTypedGet(custom, k);
      MergedEntry(base, k, Get(custom, k))
  }

  /** Every key of either hash is in the merge and has the merged value */
  lemma {:induction false} MergeWithGet(base: Fields, custom: Fields, k: MetaKey)
    requires WellTyped(base) && WellTyped(custom) && DistinctKeys(custom)
    ensures HasKey(MergeWith(base, custom), k) <==> HasKey(base, k) || HasKey(custom, k)
    ensures Get(MergeWith(base, custom), k) == Merged(base, custom, k)
    decreases |custom|
  {
    if custom != [] {
      var (k0, c) := custom[0];
      var v := MergedEntry(base, k0, c);
      PutWellTypedEntry(base, k0, v);
      CustomTail(custom, k);
      MergeWithGet(Put(base, k0, v), custom[1..], k);
      PutHasKey(base, k0, v, k);
      MergedAfterPut(base, custom, k);
    }
  }

  /** The custom hash after its first entry */
  lemma {:induction false} CustomTail(custom: Fields, k: MetaKey)
    requires custom != [] && WellTyped(custom) && DistinctKeys(custom)
    ensures WellTyped(custom[1..]) && DistinctKeys(custom[1..]) && !HasKey(custom[1..], custom[0].0)
    ensures HasKey(custom, k) <==> k == custom[0].0 || HasKey(custom[1..], k)
    ensures Get(custom, custom[0].0) == custom[0].1
    ensures k != custom[0].0 ==> Get(custom, k) == Get(custom[1..], k)
  {
    var rest := custom[1..];
    assert WellTyped(rest) by {
      forall i | 0 <= i < |rest| ensures WellTypedEntry(rest[i].0, rest[i].1) {
        assert rest[i] == custom[i + 1];
      }
    }
    assert custom == [custom[0]] + rest;
    assert KeysOf(custom) == [custom[0].0] + KeysOf(rest);
  }

  /** Merging the first custom entry into the base, then the rest, gives each key its merged value */
  lemma {:induction false} MergedAfterPut(base: Fields, custom: Fields, k: MetaKey)
    requires custom != [] && WellTyped(base) && WellTyped(custom) && DistinctKeys(custom)
    requires WellTypedEntry(custom[0].0, custom[0].1)
    requires WellTyped(Put(base, custom[0].0, MergedEntry(base, custom[0].0, custom[0].1)))
    requires WellTyped(custom[1..]) && !HasKey(custom[1..], custom[0].0)
    requires HasKey(custom, k) <==> k == custom[0].0 || HasKey(custom[1..], k)
    requires Get(custom, custom[0].0) == custom[0].1
    requires k != custom[0].0 ==> Get(custom, k) == Get(custom[1..], k)
    requires HasKey(Put(base, custom[0].0, MergedEntry(base, custom[0].0, custom[0].1)), k) <==> k == custom[0].0 || HasKey(base, k)
    ensures Merged(Put(base, custom[0].0, MergedEntry(base, custom[0].0, custom[0].1)), custom[1..], k) == Merged(base, custom, k)
  {
    if k != custom[0].0 && HasKey(custom, k) {
      WellTypedGet(custom, k);
    }
  }

  /** The deck's metadata holds the four default keys and the custom ones */
  lemma {:induction false} StandardMergeKeys(custom: Fields, k: MetaKey)
    requires WellTyped(custom) && DistinctKeys(custom)
    ensures HasKey(Merge(StandardDefaults, custom), k) <==>
              k in [AlignKey, FooterKey, MarginKey, PagerKey] || HasKey(custom, k)
  {
    StandardShape();
    MergeWithGet(StandardFields(), custom, k);
  }

  /** The four defaults by key */
  lemma {:induction false} StandardGet()
    ensures HasKey(StandardFields(), AlignKey) && Get(StandardFields(), AlignKey) == AlignValue(A.Alignment(A.Left, A.Top))
    ensures HasKey(StandardFields(), FooterKey) && Get(StandardFields(), FooterKey) == SectionValue(DefaultFooter())
    ensures HasKey(StandardFields(), MarginKey) && Get(StandardFields(), MarginKey) == MarginValue(M.Margin(0, 0, 0, 0))
    ensures HasKey(StandardFields(), PagerKey) && Get(StandardFields(), PagerKey) == SectionValue(DefaultPager())
    ensures !HasKey(StandardFields(), SymbolsKey) && !HasKey(StandardFields(), ThemeKey)
  {
    StandardGetAlign();
    StandardGetFooter();
    StandardGetMargin();
    StandardGetPager();
    StandardKeys();
  }

  lemma {:induction false} StandardKeys()
    ensures HasKey(StandardFields(), AlignKey) && HasKey(StandardFields(), FooterKey)
    ensures HasKey(StandardFields(), MarginKey) && HasKey(StandardFields(), PagerKey)
    ensures !HasKey(StandardFields(), SymbolsKey) && !HasKey(StandardFields(), ThemeKey)
  {
    StandardKeysOf();
    var keys := KeysOf(StandardFields());
    assert keys[0] == AlignKey && keys[1] == FooterKey && keys[2] == MarginKey && keys[3] == PagerKey;
  }

  lemma {:induction false} StandardGetAlign()
    ensures Get(StandardFields(), AlignKey) == AlignValue(A.Alignment(A.Left, A.Top))
  {
  }

  lemma {:induction false} StandardGetFooter()
    ensures Get(StandardFields(), FooterKey) == SectionValue(DefaultFooter())
  {
    var f := StandardFields();
    assert Get(f, FooterKey) == Get(f[1..], FooterKey);
  }

  lemma {:induction false} StandardGetMargin()
    ensures Get(StandardFields(), MarginKey) == MarginValue(M.Margin(0, 0, 0, 0))
  {
    var f := StandardFields();
    assert Get(f, MarginKey) == Get(f[1..], MarginKey) == Get(f[1..][1..], MarginKey);
  }

  lemma {:induction false} StandardGetPager()
    ensures Get(StandardFields(), PagerKey) == SectionValue(DefaultPager())
  {
    var f := StandardFields();
    assert Get(f, PagerKey) == Get(f[1..], PagerKey) == Get(f[1..][1..], PagerKey) == Get(f[1..][1..][1..], PagerKey);
  }

  /** Align and margin: the custom value replaces the default */
  lemma {:induction false} StandardMergeReplaces(custom: Fields)
    requires WellTyped(custom) && DistinctKeys(custom)
    ensures Get(Merge(StandardDefaults, custom), AlignKey) ==
              if HasKey(custom, AlignKey) then Get(custom, AlignKey) else AlignValue(A.Alignment(A.Left, A.Top))
    ensures Get(Merge(StandardDefaults, custom), MarginKey) ==
              if HasKey(custom, MarginKey) then Get(custom, MarginKey) else MarginValue(M.Margin(0, 0, 0, 0))
  {
    StandardReplaced(custom, AlignKey);
    StandardReplaced(custom, MarginKey);
    StandardGet();
  }

  /** A key whose default is not a hash takes the custom value when there is one */
  lemma {:induction false} StandardReplaced(custom: Fields, k: MetaKey)
    requires WellTyped(custom) && DistinctKeys(custom)
    requires k == AlignKey || k == MarginKey
    ensures Get(Merge(StandardDefaults, custom), k) == if HasKey(custom, k) then Get(custom, k) else Get(StandardFields(), k)
  {
    StandardShape();
    MergeWithGet(StandardFields(), custom, k);
    StandardGet();
  }

  /** The default hash of the footer and of the pager */
  function DefaultSection(k: MetaKey): Section
    requires k == FooterKey || k == PagerKey
  {
    if k == FooterKey then DefaultFooter() else DefaultPager()
  }

  /** Footer and pager: the custom hash is merged entry by entry into the default hash */
  lemma {:induction false} StandardMergeSections(custom: Fields, k: MetaKey)
    requires WellTyped(custom) && DistinctKeys(custom)
    requires k == FooterKey || k == PagerKey
    ensures HasKey(custom, k) ==>
              Get(Merge(StandardDefaults, custom), k) ==
              SectionValue(MergeSection(DefaultSection(k), Get(custom, k).section))
    ensures !HasKey(custom, k) ==>
              Get(Merge(StandardDefaults, custom), k) == SectionValue(DefaultSection(k))
  {
    StandardShape();
    MergeWithGet(StandardFields(), custom, k);
    StandardGet();
    assert Get(StandardFields(), k) == SectionValue(DefaultSection(k));
    if HasKey(custom, k) { WellTypedGet(custom, k); }
  }

  /** Symbols and theme have no default and are taken as given */
  lemma {:induction false} StandardMergeOthers(custom: Fields)
    requires WellTyped(custom) && DistinctKeys(custom)
    ensures Get(Merge(StandardDefaults, custom), SymbolsKey) == Get(custom, SymbolsKey)
    ensures Get(Merge(StandardDefaults, custom), ThemeKey) == Get(custom, ThemeKey)
  {
    StandardShape();
    StandardGet();
    MergeWithGet(StandardFields(), custom, SymbolsKey);
    MergeWithGet(StandardFields(), custom, ThemeKey);
  }

  /** With no custom metadata the deck gets exactly the defaults */
  lemma {:induction false} MergeNothing()
    ensures Merge(StandardDefaults, []) == StandardFields()
  {
  }
}
