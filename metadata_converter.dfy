/**
 * Slideck::MetadataConverter: turns each custom metadata value into the
 * object the renderer works with.
 */
module MetadataConverter {
  import opened Wrappers
  import opened Values
  import opened Errors
  import opened MetadataValues
  import Alignment
  import Margin

  /** The entries of a hash other than :align and :text, as a map */
  function OtherEntries(pairs: Pairs): (m: map<Value, Value>)
    ensures forall k :: k in m <==> k in Keys(pairs) && k != Sym("align") && k != Sym("text")
    ensures forall k :: k in m ==> Lookup(pairs, k) == Some(m[k])
  {
    map k | k in Keys(pairs) && k != Sym("align") && k != Sym("text") :: Lookup(pairs, k).value
  }

  /** MetadataConverter#wrap_with_text_key: a hash stays, anything else becomes {text: value || ""} */
  function WrapWithTextKey(value: Value): (r: Pairs)
    ensures value.Hash? ==> r == value.pairs
    ensures !value.Hash? ==> r == [(Sym("text"), if Truthy(value) then value else Str(""))]
  {
    if value.Hash? then value.pairs else [(Sym("text"), if Truthy(value) then value else Str(""))]
  }

  /**
   * MetadataConverter#convert_align_key: a hash without :align is kept as
   * it is; otherwise its :align entry is converted with the given default
   * vertical alignment and the other entries are kept.
   */
  function ConvertAlignKey(pairs: Pairs, default: string): (r: Result<Section, Error>)
    ensures Lookup(pairs, Sym("align")).None? ==>
              r == Success(Section(None, Lookup(pairs, Sym("text")), OtherEntries(pairs)))
    ensures Lookup(pairs, Sym("align")).Some? ==>
              match Alignment.FromValue(Lookup(pairs, Sym("align")).value, default)
              case Success(a) => r == Success(Section(Some(a), Lookup(pairs, Sym("text")), OtherEntries(pairs)))
              case Failure(e) => r == Failure(e)
  {
    var text := Lookup(pairs, Sym("text"));
    match Lookup(pairs, Sym("align"))
    case None => Success(Section(None, text, OtherEntries(pairs)))
    case Some(alignValue) =>
      var alignment :- Alignment.FromValue(alignValue, default);
      Success(Section(Some(alignment), text, OtherEntries(pairs)))
  }

  /**
   * MetadataConverter#convert_for: :align through Alignment.from with the
   * default vertical "center", :margin through Margin.from, :footer and
   * :pager wrapped and their :align defaulting to "bottom"; any other key
   * gives nil. A conversion that raises passes its error on.
   */
  function ConvertFor(k: MetaKey, value: Value): (r: Result<MetaValue, Error>)
    ensures r.Success? ==> WellTypedEntry(k, r.value)
    ensures k == AlignKey ==>
              var a := Alignment.FromValue(value, "center");
              (r.Success? <==> a.Success?) && (a.Success? ==> r.value == AlignValue(a.value)) && (a.Failure? ==> r.error == a.error)
    ensures k == MarginKey ==>
              var m := Margin.From(value);
              (r.Success? <==> m.Success?) && (m.Success? ==> r.value == MarginValue(m.value)) && (m.Failure? ==> r.error == m.error)
    ensures k == FooterKey || k == PagerKey ==>
              var c := ConvertAlignKey(WrapWithTextKey(value), "bottom");
              (r.Success? <==> c.Success?) && (c.Success? ==> r.value == SectionValue(c.value)) && (c.Failure? ==> r.error == c.error)
    ensures k == SymbolsKey || k == ThemeKey ==> r == Success(NilValue)
  {
    match k
    case AlignKey =>
      var a :- Alignment.FromValue(value, "center");
      Success(AlignValue(a))
    case MarginKey =>
      var m :- Margin.From(value);
      Success(MarginValue(m))
    case FooterKey =>
      var s :- ConvertAlignKey(WrapWithTextKey(value), "bottom");
      Success(SectionValue(s))
    case PagerKey =>
      var s :- ConvertAlignKey(WrapWithTextKey(value), "bottom");
      Success(SectionValue(s))
    case _ => Success(NilValue)
  }

  /** Whether every entry of a custom hash converts */
  predicate AllConvert(custom: seq<(MetaKey, Value)>) {
    custom == [] || (ConvertFor(custom[0].0, custom[0].1).Success? && AllConvert(custom[1..]))
  }

  /** The index of the first entry that does not convert */
  predicate FirstFailure(custom: seq<(MetaKey, Value)>, n: nat) {
    n < |custom| && ConvertFor(custom[n].0, custom[n].1).Failure? &&
    forall i :: 0 <= i < n ==> ConvertFor(custom[i].0, custom[i].1).Success?
  }

  /**
   * MetadataConverter#convert, over a hash whose keys all are metadata
   * keys: each value is converted under its key into a new hash, in order;
   * the first value that fails to convert raises its error.
   */
  function Convert(custom: seq<(MetaKey, Value)>): (r: Result<Fields, Error>)
    ensures r.Success? <==> AllConvert(custom)
    ensures r.Success? ==> WellTyped(r.value) && DistinctKeys(r.value)
  {
    ConvertFromOutcome(custom, []);
    ConvertFrom(custom, [])
  }

  /** A custom hash that does not convert raises the error of its first entry that does not */
  lemma {:induction false} ConvertFailure(custom: seq<(MetaKey, Value)>)
    ensures Convert(custom).Failure? ==>
              exists n: nat :: FirstFailure(custom, n) && Convert(custom).error == ConvertFor(custom[n].0, custom[n].1).error
  {
    ConvertFromOutcome(custom, []);
  }

  /** each_with_object over the entries not yet converted, into the hash built so far */
  function ConvertFrom(custom: seq<(MetaKey, Value)>, acc: Fields): (r: Result<Fields, Error>)
    requires WellTyped(acc)
    ensures r.Success? ==> WellTyped(r.value)
    ensures r.Success? && DistinctKeys(acc) ==> DistinctKeys(r.value)
    decreases |custom|
  {
    if custom == [] then Success(acc)
    else
      match ConvertFor(custom[0].0, custom[0].1)
      case Failure(e) => Failure(e)
      case Success(v) =>
        PutWellTyped(acc, custom[0].0, v);
        PutDistinct(acc, custom[0].0, v);
        ConvertFrom(custom[1..], Put(acc, custom[0].0, v))
  }

  /** The fold succeeds exactly when every entry converts, and otherwise fails with the first failure */
  lemma {:induction false} ConvertFromOutcome(custom: seq<(MetaKey, Value)>, acc: Fields)
    requires WellTyped(acc)
    ensures ConvertFrom(custom, acc).Success? <==> AllConvert(custom)
    ensures ConvertFrom(custom, acc).Failure? ==>
              exists n: nat :: FirstFailure(custom, n) && ConvertFrom(custom, acc).error == ConvertFor(custom[n].0, custom[n].1).error
    decreases |custom|
  {
    if custom != [] {
      var r0 := ConvertFor(custom[0].0, custom[0].1);
      if r0.Failure? {
        assert FirstFailure(custom, 0);
      } else {
        var acc' := Put(acc, custom[0].0, r0.value);
        PutWellTyped(acc, custom[0].0, r0.value);
        ConvertFromOutcome(custom[1..], acc');
        var r := ConvertFrom(custom[1..], acc');
        assert ConvertFrom(custom, acc) == r;
        assert forall i :: 1 <= i < |custom| ==> custom[i] == custom[1..][i - 1];
        if r.Failure? {
          var n: nat :| FirstFailure(custom[1..], n) && r.error == ConvertFor(custom[1..][n].0, custom[1..][n].1).error;
          assert FirstFailure(custom, n + 1);
        }
      }
    }
  }

  lemma {:induction false} PutWellTyped(fields: Fields, k: MetaKey, v: MetaValue)
    requires WellTyped(fields) && WellTypedEntry(k, v)
    ensures WellTyped(Put(fields, k, v))
    decreases |fields|
  {
    if fields != [] && fields[0].0 != k {
      PutWellTyped(fields[1..], k, v);
    }
  }

  // ---------------------------------------------------------------------------
  // Properties
  // ---------------------------------------------------------------------------

  /** A custom hash with distinct keys converts to a hash with the same keys, each value converted */
  /** The converted entries, each under its own key */
  function Converted(custom: seq<(MetaKey, Value)>): (r: Fields)
    requires AllConvert(custom)
    ensures |r| == |custom|
    ensures forall i :: 0 <= i < |custom| ==> r[i].0 == custom[i].0
  {
    if custom == [] then []
    else
      [(custom[0].0, ConvertFor(custom[0].0, custom[0].1).value)] + Converted(custom[1..])
  }

  /** A custom hash with distinct keys converts to a hash with the same keys, each value converted */
  lemma {:induction false} ConvertEntries(custom: seq<(MetaKey, Value)>)
    requires AllConvert(custom)
    requires forall i, j :: 0 <= i < j < |custom| ==> custom[i].0 != custom[j].0
    ensures Convert(custom) == Success(Converted(custom))
  {
    ConvertFromEntries(custom, []);
    assert [] + Converted(custom) == Converted(custom);
  }

  lemma {:induction false} ConvertFromEntries(custom: seq<(MetaKey, Value)>, acc: Fields)
    requires WellTyped(acc) && AllConvert(custom)
    requires forall i, j :: 0 <= i < j < |custom| ==> custom[i].0 != custom[j].0
    requires forall j :: 0 <= j < |custom| ==> !HasKey(acc, custom[j].0)
    ensures ConvertFrom(custom, acc) == Success(acc + Converted(custom))
    decreases |custom|
  {
    if custom == [] {
      assert Converted(custom) == [];
      assert acc + [] == acc;
    } else {
      var x := ConvertStep(custom, acc);
      KeysOfAppend(acc, x);
      TailKeysFresh(custom, acc, x);
      PutWellTyped(acc, x.0, x.1);
      ConvertFromEntries(custom[1..], acc + [x]);
      var rest := Converted(custom[1..]);
      assert Converted(custom) == [x] + rest;
      AppendAssoc(acc, [x], rest);
      calc {
        ConvertFrom(custom, acc);
        ConvertFrom(custom[1..], acc + [x]);
        Success((acc + [x]) + rest);
        Success(acc + ([x] + rest));
        Success(acc + Converted(custom));
      }
    }
  }

  lemma AppendAssoc(a: Fields, b: Fields, c: Fields)
    ensures (a + b) + c == a + (b + c)
  {
  }

  /** One step of the fold over a fresh key appends the converted entry */
  lemma {:induction false} ConvertStep(custom: seq<(MetaKey, Value)>, acc: Fields) returns (x: (MetaKey, MetaValue))
    requires WellTyped(acc) && custom != [] && AllConvert(custom)
    requires !HasKey(acc, custom[0].0)
    ensures x == (custom[0].0, ConvertFor(custom[0].0, custom[0].1).value)
    ensures WellTyped(acc + [x])
    ensures ConvertFrom(custom, acc) == ConvertFrom(custom[1..], acc + [x])
  {
    x := (custom[0].0, ConvertFor(custom[0].0, custom[0].1).value);
    PutAppends(acc, x.0, x.1);
    PutWellTyped(acc, x.0, x.1);
  }

  lemma {:induction false} TailKeysFresh(custom: seq<(MetaKey, Value)>, acc: Fields, x: (MetaKey, MetaValue))
    requires custom != [] && x.0 == custom[0].0
    requires forall i, j :: 0 <= i < j < |custom| ==> custom[i].0 != custom[j].0
    requires forall j :: 0 <= j < |custom| ==> !HasKey(acc, custom[j].0)
    requires KeysOf(acc + [x]) == KeysOf(acc) + [x.0]
    ensures forall j :: 0 <= j < |custom[1..]| ==> !HasKey(acc + [x], custom[1..][j].0)
    ensures forall i, j :: 0 <= i < j < |custom[1..]| ==> custom[1..][i].0 != custom[1..][j].0
  {
    forall j | 0 <= j < |custom[1..]| ensures !HasKey(acc + [x], custom[1..][j].0) {
      assert custom[1..][j] == custom[j + 1];
      assert custom[0].0 != custom[j + 1].0;
      assert !HasKey(acc, custom[j + 1].0);
    }
    forall i, j | 0 <= i < j < |custom[1..]| ensures custom[1..][i].0 != custom[1..][j].0 {
      assert custom[1..][i] == custom[i + 1] && custom[1..][j] == custom[j + 1];
    }
  }

  /** Putting a key the hash does not hold appends the entry */
  lemma {:induction false} PutAppends(fields: Fields, k: MetaKey, v: MetaValue)
    requires !HasKey(fields, k)
    ensures Put(fields, k, v) == fields + [(k, v)]
    decreases |fields|
  {
    if fields != [] {
      var t := fields[1..];
      assert fields[0].0 != k;
      assert fields == [fields[0]] + t;
      PutAppends(t, k, v);
      calc {
        Put(fields, k, v);
        [fields[0]] + Put(t, k, v);
        [fields[0]] + (t + [(k, v)]);
        fields + [(k, v)];
      }
    }
  }

  /** :align is converted by Alignment.from with the default vertical alignment "center" */
  lemma {:induction false} AlignDefaultsToCenter()
    ensures ConvertFor(AlignKey, Str("right")) ==
              Success(AlignValue(Alignment.Alignment(Alignment.Right, Alignment.VCenter)))
  {
    Alignment.FromSingle("right", "center");
  }

  /** A footer or pager that is nil or false becomes a section whose text is empty */
  lemma {:induction false} FalsyTextBecomesEmpty(k: MetaKey, value: Value)
    requires k == FooterKey || k == PagerKey
    requires !Truthy(value)
    ensures ConvertFor(k, value) == Success(SectionValue(Section(None, Some(Str("")), map[])))
  {
    assert OtherEntries([(Sym("text"), Str(""))]) == map[];
  }

  /** A footer or pager given as plain text becomes a section with that text and no alignment */
  lemma {:induction false} TextBecomesSection(k: MetaKey, text: string)
    requires k == FooterKey || k == PagerKey
    ensures ConvertFor(k, Str(text)) == Success(SectionValue(Section(None, Some(Str(text)), map[])))
  {
    assert OtherEntries([(Sym("text"), Str(text))]) == map[];
  }

  /** A footer or pager hash's :align is converted with the default vertical alignment "bottom" */
  lemma {:induction false} SectionAlignDefaultsToBottom(k: MetaKey, text: string)
    requires k == FooterKey || k == PagerKey
    ensures ConvertFor(k, Hash([(Sym("align"), Str("center")), (Sym("text"), Str(text))])) ==
              Success(SectionValue(Section(Some(Alignment.Alignment(Alignment.HCenter, Alignment.Bottom)), Some(Str(text)), map[])))
  {
    var pairs := [(Sym("align"), Str("center")), (Sym("text"), Str(text))];
    assert Keys(pairs) == [Sym("align"), Sym("text")];
    assert OtherEntries(pairs) == map[];
    assert Lookup(pairs, Sym("align")) == Some(Str("center"));
    assert Lookup(pairs, Sym("text")) == Some(Str(text));
    Alignment.FromSingle("center", "bottom");
    assert Alignment.FromValue(Str("center"), "bottom") == Success(Alignment.Alignment(Alignment.HCenter, Alignment.Bottom));
  }

  /** symbols and theme are accepted and converted to nil */
  lemma {:induction false} SymbolsAndThemeNil(value: Value)
    ensures ConvertFor(SymbolsKey, value) == Success(NilValue)
    ensures ConvertFor(ThemeKey, value) == Success(NilValue)
  {
  }

  /**
   * A footer or pager hash keeps its text and its other entries; its :align,
   * when given, is converted with the default vertical alignment "bottom"
   * and a bad one raises, and without :align none is set.
   */
  lemma {:induction false} SectionHash(k: MetaKey, pairs: Pairs)
    requires k == FooterKey || k == PagerKey
    ensures var r := ConvertFor(k, Hash(pairs));
            && (Lookup(pairs, Sym("align")).None? ==>
                  r == Success(SectionValue(Section(None, Lookup(pairs, Sym("text")), OtherEntries(pairs)))))
            && (Lookup(pairs, Sym("align")).Some? ==>
                  var a := Alignment.FromValue(Lookup(pairs, Sym("align")).value, "bottom");
                  && (a.Success? ==> r == Success(SectionValue(Section(Some(a.value), Lookup(pairs, Sym("text")), OtherEntries(pairs)))))
                  && (a.Failure? ==> r == Failure(a.error)))
  {
  }
}
