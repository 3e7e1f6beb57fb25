/**
 * Slideck::MetadataWrapper: builds the deck's metadata (merged with the
 * defaults) and each slide's metadata (merged into an empty hash).
 */
module MetadataWrapper {
  import opened Wrappers
  import opened Values
  import opened Errors
  import opened MetadataDefaults
  import MD = Metadata

  /** A slide as the transformer hands it over: its content and raw metadata */
  datatype RawSlide = RawSlide(content: Value, metadata: Value)

  /** The parsed deck: the raw deck metadata and the slides */
  datatype RawDeck = RawDeck(metadata: Value, slides: seq<RawSlide>)

  datatype Slide = Slide(content: Value, metadata: MD.Metadata)

  /** Slide n is the first whose metadata fails to build, with error e */
  predicate FirstSlideFailure(slides: seq<RawSlide>, n: int, e: Error) {
    && 0 <= n < |slides|
    && (forall i :: 0 <= i < n ==> MD.From(slides[i].metadata, EmptyHash).Success?)
    && MD.From(slides[n].metadata, EmptyHash) == Failure(e)
  }

  /** The slides with their metadata built, the first that fails raising its error */
  function WrapSlides(slides: seq<RawSlide>): (r: Result<seq<Slide>, Error>)
    ensures r.Success? <==> forall i :: 0 <= i < |slides| ==> MD.From(slides[i].metadata, EmptyHash).Success?
    ensures r.Success? ==> |r.value| == |slides|
    ensures r.Success? ==> forall i :: 0 <= i < |slides| ==>
              r.value[i] == Slide(slides[i].content, MD.From(slides[i].metadata, EmptyHash).value)
    ensures r.Failure? ==> exists n :: FirstSlideFailure(slides, n, r.error)
    decreases |slides|
  {
    if slides == [] then Success([])
    else
      match MD.From(slides[0].metadata, EmptyHash)
      case Failure(e) =>
        assert FirstSlideFailure(slides, 0, e);
        Failure(e)
      case Success(md) =>
        match WrapSlides(slides[1..])
        case Failure(e) =>
          LaterSlideFailure(slides, e);
          Failure(e)
        case Success(rest) =>
          WrappedSlides(slides, md, rest);
          Success([Slide(slides[0].content, md)] + rest)
  }

  /** A failure among the later slides, after a first slide that builds, is the first failure */
  lemma {:induction false} LaterSlideFailure(slides: seq<RawSlide>, e: Error)
    requires slides != [] && MD.From(slides[0].metadata, EmptyHash).Success?
    requires exists n :: FirstSlideFailure(slides[1..], n, e)
    ensures exists n :: FirstSlideFailure(slides, n, e)
  {
    var n :| FirstSlideFailure(slides[1..], n, e);
    assert forall i :: 1 <= i < |slides| ==> slides[i] == slides[1..][i - 1];
    assert FirstSlideFailure(slides, n + 1, e);
  }

  /** The first slide wrapped in front of the wrapped later slides */
  lemma {:induction false} WrappedSlides(slides: seq<RawSlide>, md: MD.Metadata, rest: seq<Slide>)
    requires slides != [] && MD.From(slides[0].metadata, EmptyHash) == Success(md)
    requires |rest| == |slides| - 1
    requires forall i :: 0 <= i < |slides| - 1 ==> MD.From(slides[1..][i].metadata, EmptyHash).Success?
    requires forall i :: 0 <= i < |slides| - 1 ==>
               MD.From(slides[1..][i].metadata, EmptyHash).Success? &&
               rest[i] == Slide(slides[1..][i].content, MD.From(slides[1..][i].metadata, EmptyHash).value)
    ensures forall i :: 0 <= i < |slides| ==> MD.From(slides[i].metadata, EmptyHash).Success?
    ensures forall i :: 0 <= i < |slides| ==>
              MD.From(slides[i].metadata, EmptyHash).Success? &&
              ([Slide(slides[0].content, md)] + rest)[i] == Slide(slides[i].content, MD.From(slides[i].metadata, EmptyHash).value)
  {
    assert forall i :: 1 <= i < |slides| ==> slides[i] == slides[1..][i - 1];
  }

  /**
   * MetadataWrapper#wrap: the deck's metadata is built first, then the
   * slides' in order; the content of each slide is passed through.
   */
  function Wrap(deck: RawDeck): (r: Result<(MD.Metadata, seq<Slide>), Error>)
    ensures MD.From(deck.metadata, StandardDefaults).Failure? ==>
              r == Failure(MD.From(deck.metadata, StandardDefaults).error)
    ensures MD.From(deck.metadata, StandardDefaults).Success? ==>
              match WrapSlides(deck.slides)
              case Success(slides) => r == Success((MD.From(deck.metadata, StandardDefaults).value, slides))
              case Failure(e) => r == Failure(e)
  {
    var metadata :- MD.From(deck.metadata, StandardDefaults);
    var slides :- WrapSlides(deck.slides);
    Success((metadata, slides))
  }

  /** A wrapped deck's metadata has the shape the renderer reads, and each slide keeps its content */
  lemma {:induction false} WrapShape(deck: RawDeck)
    requires Wrap(deck).Success?
    ensures MD.DeckShape(Wrap(deck).value.0)
    ensures |Wrap(deck).value.1| == |deck.slides|
    ensures forall i :: 0 <= i < |deck.slides| ==> Wrap(deck).value.1[i].content == deck.slides[i].content
  {
    MD.DeckMetadataShape(deck.metadata);
  }

  /** An empty document: the default metadata and no slides */
  lemma {:induction false} EmptyDeck()
    ensures Wrap(RawDeck(Hash([]), [])) == Success((MD.Metadata(StandardFields()), []))
  {
    MD.EmptyDeckMetadata();
    assert WrapSlides([]) == Success([]);
  }
}
