/**
 * Slideck::Parser: splits the deck's text into slides at separator lines
 * of three or more dashes, and reads the first slide as metadata when its
 * first line looks like a "key: value" pair.
 */
module Parser {
  import opened Wrappers
  import opened RubyText
  import opened Values
  import opened Errors

  /** What the scanner consumes in one step: a slide separator, or a piece of a slide */
  datatype Token = Separator(text: string) | Piece(text: string)

  /** The end of the run of dashes starting at i */
  function DashesEnd(s: string, i: nat): (j: nat)
    requires i <= |s|
    ensures i <= j <= |s|
    ensures forall k :: i <= k < j ==> s[k] == '-'
    ensures j == |s| || s[j] != '-'
    decreases |s| - i
  {
    if i < |s| && s[i] == '-' then DashesEnd(s, i + 1) else i
  }

  /** A run of three or more dashes from i, closed by a newline */
  predicate DashLineAt(s: string, i: nat)
    requires i <= |s|
  {
    DashesEnd(s, i) - i >= 3 && DashesEnd(s, i) < |s| && s[DashesEnd(s, i)] == '\n'
  }

  /**
   * The length of the match of SLIDE_SEPARATOR, /\n?-{3,}\n/, anchored at
   * p as StringScanner#scan anchors it; 0 for no match. The dash run is
   * greedy, so only its full length can be followed by the newline.
   */
  function SeparatorLength(s: string, p: nat): (n: nat)
    requires p < |s|
    ensures n == 0 || (p + n <= |s| && s[p + n - 1] == '\n')
    ensures n > 0 && s[p] == '\n' ==> DashLineAt(s, p + 1) && n == DashesEnd(s, p + 1) + 1 - p
    ensures n > 0 && s[p] != '\n' ==> DashLineAt(s, p) && n == DashesEnd(s, p) + 1 - p
    ensures n == 0 ==> if s[p] == '\n' then !DashLineAt(s, p + 1) else !DashLineAt(s, p)
  {
    if s[p] == '\n' then
      if DashLineAt(s, p + 1) then DashesEnd(s, p + 1) + 1 - p else 0
    else
      if DashLineAt(s, p) then DashesEnd(s, p) + 1 - p else 0
  }

  /**
   * The scanner loop of Parser#split_into_slides from position p: a
   * separator if one matches; else LINE_PATTERN, the rest of a non-empty
   * line; else getch, which can only be a newline here.
   */
  function Lex(s: string, p: nat): seq<Token>
    requires p <= |s|
    decreases |s| - p
  {
    if p == |s| then []
    else
      var n := SeparatorLength(s, p);
      if n > 0 then [Separator(s[p..p + n])] + Lex(s, p + n)
      else if s[p] != '\n' then [Piece(s[p..LineEnd(s, p)])] + Lex(s, LineEnd(s, p))
      else [Piece(s[p..p + 1])] + Lex(s, p + 1)
  }

  /** The slide texts the separators delimit, the last one included, possibly empty */
  function Chunks(tokens: seq<Token>): (cs: seq<string>)
    ensures |cs| >= 1
    decreases |tokens|
  {
    if tokens == [] then [""]
    else
      var rest := Chunks(tokens[1..]);
      match tokens[0]
      case Separator(_) => [""] + rest
      case Piece(t) => [t + rest[0]] + rest[1..]
  }

  /** Parser#add_slide: an empty slide is dropped */
  function AddSlide(slides: seq<string>, slide: string): (r: seq<string>)
    ensures slide == "" ==> r == slides
    ensures slide != "" ==> r == slides + [slide]
  {
    if slide == "" then slides else slides + [slide]
  }

  /** The non-empty texts, in order */
  function NonEmpty(cs: seq<string>): (r: seq<string>)
    ensures forall i :: 0 <= i < |r| ==> r[i] != ""
    ensures forall x :: x in r <==> x in cs && x != ""
    decreases |cs|
  {
    if cs == [] then []
    else
      var last := cs[|cs| - 1];
      assert forall x :: x in cs <==> x in cs[..|cs| - 1] || x == last by {
        assert cs == cs[..|cs| - 1] + [last];
      }
      AddSlide(NonEmpty(cs[..|cs| - 1]), last)
  }

  /** The slides of the deck's text: the non-empty chunks, the last one chomped */
  function SlidesOf(content: string): (r: seq<string>)
    ensures forall i :: 0 <= i < |r| ==> r[i] != ""
  {
    var cs := Chunks(Lex(content, 0));
    AddSlide(NonEmpty(cs[..|cs| - 1]), Chomp(cs[|cs| - 1]))
  }

  /** How a scanner step changes the chunks that remain */
  lemma {:induction false} ChunksStep(s: string, p: nat)
    requires p < |s|
    ensures var n := SeparatorLength(s, p);
            var C := Chunks(Lex(s, p));
            if n > 0 then C == [""] + Chunks(Lex(s, p + n))
            else
              var q := if s[p] != '\n' then LineEnd(s, p) else p + 1;
              p < q <= |s| && C == [s[p..q] + Chunks(Lex(s, q))[0]] + Chunks(Lex(s, q))[1..]
  {
    var n := SeparatorLength(s, p);
    var toks := Lex(s, p);
    if n > 0 {
      assert toks[1..] == Lex(s, p + n);
    } else if s[p] != '\n' {
      assert toks[1..] == Lex(s, LineEnd(s, p));
    } else {
      assert toks[1..] == Lex(s, p + 1);
    }
  }

  lemma {:induction false} NonEmptySnoc(cs: seq<string>, x: string)
    ensures NonEmpty(cs + [x]) == AddSlide(NonEmpty(cs), x)
  {
    assert (cs + [x])[..|cs|] == cs;
  }

  /** Closing the slide at a separator keeps the chunk decomposition */
  lemma {:induction false} CloseSlide(done: seq<string>, slide: seq<string>, C: seq<string>, C': seq<string>)
    requires C' != [] && C == [""] + C'
    ensures done + [Concat(slide) + C[0]] + C[1..] == (done + [Concat(slide)]) + [Concat([]) + C'[0]] + C'[1..]
  {
    assert Concat(slide) + C[0] == Concat(slide);
    assert Concat([]) + C'[0] == C'[0];
    assert C' == [C'[0]] + C'[1..];
  }

  /** Adding a piece to the slide keeps the chunk decomposition */
  lemma {:induction false} ExtendSlide(done: seq<string>, slide: seq<string>, t: string, C: seq<string>, C': seq<string>)
    requires C' != [] && C == [t + C'[0]] + C'[1..]
    ensures done + [Concat(slide) + C[0]] + C[1..] == done + [Concat(slide + [t]) + C'[0]] + C'[1..]
  {
    ConcatAppend(slide, t);
    assert Concat(slide) + (t + C'[0]) == (Concat(slide) + t) + C'[0];
  }

  /**
   * The loop invariant of the scanner: the chunks of the whole text are the
   * slides closed so far, then the open slide's pieces joined to the first
   * chunk from pos, then the chunks after it.
   */
  predicate Decomposes(content: string, pos: nat, done: seq<string>, slide: seq<string>)
    requires pos <= |content|
  {
    var C := Chunks(Lex(content, pos));
    Chunks(Lex(content, 0)) == done + [Concat(slide) + C[0]] + C[1..]
  }

  lemma {:induction false} DecomposesStart(content: string)
    ensures Decomposes(content, 0, [], [])
  {
    var start := Chunks(Lex(content, 0));
    assert Concat([]) + start[0] == start[0];
    assert start == [] + [start[0]] + start[1..];
  }

  /** A separator closes the open slide */
  lemma {:induction false} DecomposesSeparator(content: string, pos: nat, done: seq<string>, slide: seq<string>)
    requires pos < |content| && SeparatorLength(content, pos) > 0 && Decomposes(content, pos, done, slide)
    ensures pos + SeparatorLength(content, pos) <= |content|
    ensures Decomposes(content, pos + SeparatorLength(content, pos), done + [Concat(slide)], [])
  {
    ChunksStep(content, pos);
    var n := SeparatorLength(content, pos);
    CloseSlide(done, slide, Chunks(Lex(content, pos)), Chunks(Lex(content, pos + n)));
  }

  /** Any other step adds a piece to the open slide */
  lemma {:induction false} DecomposesPiece(content: string, pos: nat, done: seq<string>, slide: seq<string>, next: nat)
    requires pos < |content| && SeparatorLength(content, pos) == 0 && Decomposes(content, pos, done, slide)
    requires next == if content[pos] != '\n' then LineEnd(content, pos) else pos + 1
    ensures pos < next <= |content|
    ensures Decomposes(content, next, done, slide + [content[pos..next]])
  {
    ChunksStep(content, pos);
    ExtendSlide(done, slide, content[pos..next], Chunks(Lex(content, pos)), Chunks(Lex(content, next)));
  }

  /** At the end of the text the open slide is the last chunk */
  lemma {:induction false} DecomposesEnd(content: string, done: seq<string>, slide: seq<string>)
    requires Decomposes(content, |content|, done, slide)
    ensures SlidesOf(content) == AddSlide(NonEmpty(done), Chomp(Concat(slide)))
  {
    var cs := Chunks(Lex(content, 0));
    assert Lex(content, |content|) == [];
    assert Chunks(Lex(content, |content|)) == [""];
    assert Concat(slide) + "" == Concat(slide);
    assert cs == done + [Concat(slide)];
    assert cs[..|cs| - 1] == done;
  }

  /**
   * Parser#split_into_slides: the scanner loop collects the pieces of the
   * current slide and closes it at each separator; the last slide is
   * chomped.
   */
  method SplitIntoSlides(content: string) returns (slides: seq<string>)
    ensures slides == SlidesOf(content)
  {
    var pos := 0;
    slides := [];
    var slide: seq<string> := [];
    ghost var done: seq<string> := [];
    DecomposesStart(content);
    while pos < |content|
      invariant 0 <= pos <= |content|
      invariant Decomposes(content, pos, done, slide)
      invariant slides == NonEmpty(done)
      decreases |content| - pos
    {
      var n := SeparatorLength(content, pos);
      if n > 0 {
        DecomposesSeparator(content, pos, done, slide);
        NonEmptySnoc(done, Concat(slide));
        slides := AddSlide(slides, Concat(slide));
        done := done + [Concat(slide)];
        slide := [];
        pos := pos + n;
      } else {
        var next := if content[pos] != '\n' then LineEnd(content, pos) else pos + 1;
        DecomposesPiece(content, pos, done, slide, next);
        slide := slide + [content[pos..next]];
        pos := next;
      }
    }
    DecomposesEnd(content, done, slide);
    slides := AddSlide(slides, Chomp(Concat(slide)));
  }

  // ---------------------------------------------------------------------------
  // Metadata and the parsed deck
  // ---------------------------------------------------------------------------

  predicate NoColon(s: string) { forall k :: 0 <= k < |s| ==> s[k] != ':' }

  /**
   * line =~ /^[^:]+:[^:]+$/ on a first line, which holds a newline at
   * most at its end: exactly one colon, with a character before it and
   * one after it (the newline counts, as [^:] matches it).
   */
  predicate KeyValueLine(line: string) {
    exists i :: 0 < i < |line| - 1 && line[i] == ':' && NoColon(line[..i]) && NoColon(line[i + 1..])
  }

  /** Parser#metadata_given? as written: the pattern applied to the first line */
  predicate MetadataGivenAsWritten(slide: string) {
    slide != "" && KeyValueLine(Lines(slide)[0])
  }

  /** The pattern with an optional leading colon, /^:?[^:]+:[^:]+$/, so that a symbol key is recognised */
  predicate MetadataGiven(slide: string) {
    && slide != ""
    && var line := Lines(slide)[0];
       if line[0] == ':' then KeyValueLine(line[1..]) else KeyValueLine(line)
  }

  /** The deck the parser returns: the raw metadata and the slide texts */
  datatype ParsedDeck = ParsedDeck(metadata: Value, slides: seq<string>)

  /** Object#empty?: only strings, symbols, arrays and hashes respond to it */
  function IsEmpty(v: Value): (r: Result<bool, Error>)
    ensures r.Failure? <==> !(v.Str? || v.Sym? || v.Arr? || v.Hash?)
    ensures r.Failure? ==> r.error == NoMethod("empty?", v)
    ensures r.Success? ==> (r.value <==> v in {Str(""), Sym(""), Arr([]), Hash([])})
  {
    match v
    case Str(s) => Success(s == "")
    case Sym(name) => Success(name == "")
    case Arr(items) => Success(items == [])
    case Hash(pairs) => Success(pairs == [])
    case _ => Failure(NoMethod("empty?", v))
  }

  /**
   * The deck read from its slides, once it is known whether the first slide
   * looks like metadata: that slide is read as metadata, and is then dropped
   * from the slides unless what was read is empty.
   */
  function ReadDeck(slides: seq<string>, given: bool, parseMetadata: string -> Result<Value, Error>): Result<ParsedDeck, Error> {
    if slides == [] || !given then Success(ParsedDeck(Hash([]), slides))
    else
      var metadata :- parseMetadata(slides[0]);
      var empty :- IsEmpty(metadata);
      Success(ParsedDeck(metadata, if empty then slides else slides[1..]))
  }

  /**
   * Parser#parse as written: the first slide is metadata when its first
   * line matches METADATA_PATTERN. The metadata parser is the given function.
   */
  function Parse(content: string, parseMetadata: string -> Result<Value, Error>): (r: Result<ParsedDeck, Error>)
    ensures SlidesOf(content) == [] ==> r == Success(ParsedDeck(Hash([]), []))
    ensures SlidesOf(content) != [] && !MetadataGivenAsWritten(SlidesOf(content)[0]) ==>
              r == Success(ParsedDeck(Hash([]), SlidesOf(content)))
    ensures SlidesOf(content) != [] && MetadataGivenAsWritten(SlidesOf(content)[0]) ==>
              match parseMetadata(SlidesOf(content)[0])
              case Failure(e) => r == Failure(e)
              case Success(md) =>
                match IsEmpty(md)
                case Failure(e) => r == Failure(e)
                case Success(empty) =>
                  r == Success(ParsedDeck(md, if empty then SlidesOf(content) else SlidesOf(content)[1..]))
  {
    var slides := SlidesOf(content);
    ReadDeck(slides, slides != [] && MetadataGivenAsWritten(slides[0]), parseMetadata)
  }

  /** Parser#parse with the corrected pattern, which also accepts a symbol key such as ":align: center" */
  function ParseCorrected(content: string, parseMetadata: string -> Result<Value, Error>): (r: Result<ParsedDeck, Error>)
    ensures SlidesOf(content) == [] ==> r == Success(ParsedDeck(Hash([]), []))
    ensures SlidesOf(content) != [] && !MetadataGiven(SlidesOf(content)[0]) ==>
              r == Success(ParsedDeck(Hash([]), SlidesOf(content)))
    ensures SlidesOf(content) != [] && MetadataGiven(SlidesOf(content)[0]) ==>
              match parseMetadata(SlidesOf(content)[0])
              case Failure(e) => r == Failure(e)
              case Success(md) =>
                match IsEmpty(md)
                case Failure(e) => r == Failure(e)
                case Success(empty) =>
                  r == Success(ParsedDeck(md, if empty then SlidesOf(content) else SlidesOf(content)[1..]))
  {
    var slides := SlidesOf(content);
    ReadDeck(slides, slides != [] && MetadataGiven(slides[0]), parseMetadata)
  }

  // ---------------------------------------------------------------------------
  // Properties
  // ---------------------------------------------------------------------------

  /** Empty content has no slides, hence no metadata */
  lemma {:induction false} EmptyContent(parseMetadata: string -> Result<Value, Error>)
    ensures SlidesOf("") == []
    ensures Parse("", parseMetadata) == Success(ParsedDeck(Hash([]), []))
  {
    assert Lex("", 0) == [];
  }

  /** The texts of the tokens, in order */
  function Joined(tokens: seq<Token>): string {
    if tokens == [] then "" else tokens[0].text + Joined(tokens[1..])
  }

  /** The texts of the separator tokens, in order */
  function SeparatorTexts(tokens: seq<Token>): (r: seq<string>)
    ensures |Chunks(tokens)| == |r| + 1
  {
    if tokens == [] then []
    else if tokens[0].Separator? then [tokens[0].text] + SeparatorTexts(tokens[1..])
    else SeparatorTexts(tokens[1..])
  }

  /** Chunks with the separators between them: cs[0] + seps[0] + cs[1] + ... */
  function Weave(cs: seq<string>, seps: seq<string>): string
    requires |cs| == |seps| + 1
    decreases |seps|
  {
    if seps == [] then cs[0] else cs[0] + seps[0] + Weave(cs[1..], seps[1..])
  }

  /** The scanner consumes the whole text, in order */
  lemma {:induction false} LexCovers(s: string, p: nat)
    requires p <= |s|
    ensures Joined(Lex(s, p)) == s[p..]
    decreases |s| - p
  {
    if p < |s| {
      var n := SeparatorLength(s, p);
      var q: nat;
      if n > 0 {
        q := p + n;
      } else if s[p] != '\n' {
        q := LineEnd(s, p);
      } else {
        q := p + 1;
      }
      assert p < q <= |s|;
      var toks := Lex(s, p);
      assert toks[0].text == s[p..q] && toks[1..] == Lex(s, q);
      LexCovers(s, q);
      JoinedCons(toks);
      SliceSplit(s, p, q);
    }
  }

  lemma JoinedCons(tokens: seq<Token>)
    requires tokens != []
    ensures Joined(tokens) == tokens[0].text + Joined(tokens[1..])
  {
  }

  lemma SliceSplit(s: string, p: nat, q: nat)
    requires p <= q <= |s|
    ensures s[p..] == s[p..q] + s[q..]
  {
  }

  /** Putting the separators back between the chunks gives the text the tokens cover */
  lemma {:induction false} WeaveChunks(tokens: seq<Token>)
    ensures Weave(Chunks(tokens), SeparatorTexts(tokens)) == Joined(tokens)
    decreases |tokens|
  {
    if tokens != [] {
      var rest := tokens[1..];
      WeaveChunks(rest);
      var C := Chunks(rest);
      var S := SeparatorTexts(rest);
      match tokens[0]
      case Separator(t) =>
        assert Chunks(tokens) == [""] + C;
        assert SeparatorTexts(tokens) == [t] + S;
        assert ([""] + C)[1..] == C;
      case Piece(t) =>
        assert Chunks(tokens) == [t + C[0]] + C[1..];
        assert SeparatorTexts(tokens) == S;
        WeavePrepend(t, C, S);
    }
  }

  lemma {:induction false} WeavePrepend(t: string, cs: seq<string>, seps: seq<string>)
    requires |cs| == |seps| + 1
    ensures Weave([t + cs[0]] + cs[1..], seps) == t + Weave(cs, seps)
  {
    var cs' := [t + cs[0]] + cs[1..];
    if seps != [] {
      assert cs'[1..] == cs[1..];
      assert (t + cs[0]) + seps[0] + Weave(cs[1..], seps[1..]) == t + (cs[0] + seps[0] + Weave(cs[1..], seps[1..]));
    }
  }

  /** Splitting loses nothing: the chunks with the separators between them are the whole text */
  lemma {:induction false} SplitReassembles(content: string)
    ensures Weave(Chunks(Lex(content, 0)), SeparatorTexts(Lex(content, 0))) == content
  {
    LexCovers(content, 0);
    WeaveChunks(Lex(content, 0));
    assert content[0..] == content;
  }

  // The scanner only looks at what follows its position

  lemma {:induction false} DashesShift(s: string, i: nat, t: string, j: nat)
    requires i <= |s| && j <= |t| && s[i..] == t[j..]
    ensures DashesEnd(s, i) - i == DashesEnd(t, j) - j
    decreases |s| - i
  {
    if i < |s| {
      assert s[i] == s[i..][0] == t[j..][0] == t[j];
      assert s[i + 1..] == s[i..][1..] && t[j + 1..] == t[j..][1..];
      DashesShift(s, i + 1, t, j + 1);
    }
  }

  lemma {:induction false} LineEndShift(s: string, i: nat, t: string, j: nat)
    requires i <= |s| && j <= |t| && s[i..] == t[j..]
    ensures LineEnd(s, i) - i == LineEnd(t, j) - j
    decreases |s| - i
  {
    if i < |s| {
      assert s[i] == s[i..][0] == t[j..][0] == t[j];
      assert s[i + 1..] == s[i..][1..] && t[j + 1..] == t[j..][1..];
      LineEndShift(s, i + 1, t, j + 1);
    }
  }

  lemma {:induction false} SeparatorShift(s: string, p: nat, t: string, q: nat)
    requires p < |s| && q <= |t| && s[p..] == t[q..]
    ensures q < |t| && SeparatorLength(s, p) == SeparatorLength(t, q)
  {
    assert s[p] == s[p..][0] == t[q..][0] == t[q];
    DashesShift(s, p, t, q);
    assert s[p + 1..] == s[p..][1..] && t[q + 1..] == t[q..][1..];
    DashesShift(s, p + 1, t, q + 1);
    var d := DashesEnd(s, p) - p;
    if DashesEnd(s, p) < |s| {
      assert s[DashesEnd(s, p)] == s[p..][d] == t[DashesEnd(t, q)];
    }
    var e := DashesEnd(s, p + 1) - p;
    if DashesEnd(s, p + 1) < |s| {
      assert s[DashesEnd(s, p + 1)] == s[p..][e] == t[DashesEnd(t, q + 1)];
    }
  }

  /** Where the scanner step from p ends */
  function StepEnd(s: string, p: nat): (q: nat)
    requires p < |s|
    ensures p < q <= |s|
  {
    var n := SeparatorLength(s, p);
    if n > 0 then p + n else if s[p] != '\n' then LineEnd(s, p) else p + 1
  }

  /** The token the scanner step from p produces */
  function StepToken(s: string, p: nat): Token
    requires p < |s|
  {
    if SeparatorLength(s, p) > 0 then Separator(s[p..StepEnd(s, p)]) else Piece(s[p..StepEnd(s, p)])
  }

  lemma {:induction false} LexStep(s: string, p: nat)
    requires p < |s|
    ensures Lex(s, p) == [StepToken(s, p)] + Lex(s, StepEnd(s, p))
  {
  }

  lemma {:induction false} StepShift(s: string, p: nat, t: string, q: nat)
    requires p < |s| && q <= |t| && s[p..] == t[q..]
    ensures q < |t| && StepEnd(s, p) - p == StepEnd(t, q) - q
    ensures StepToken(s, p) == StepToken(t, q)
    ensures s[StepEnd(s, p)..] == t[StepEnd(t, q)..]
  {
    SeparatorShift(s, p, t, q);
    assert s[p] == s[p..][0] == t[q];
    if SeparatorLength(s, p) == 0 && s[p] != '\n' {
      LineEndShift(s, p, t, q);
    }
    var k := StepEnd(s, p) - p;
    assert s[p..p + k] == s[p..][..k] == t[q..q + k];
    assert s[p + k..] == s[p..][k..] == t[q + k..];
  }

  /** The tokens from a position depend only on the text from there on */
  lemma {:induction false} LexShift(s: string, p: nat, t: string, q: nat)
    requires p <= |s| && q <= |t| && s[p..] == t[q..]
    ensures Lex(s, p) == Lex(t, q)
    decreases |s| - p
  {
    if p < |s| {
      StepShift(s, p, t, q);
      LexShift(s, StepEnd(s, p), t, StepEnd(t, q));
      LexStep(s, p);
      LexStep(t, q);
    } else {
      assert |t[q..]| == 0;
    }
  }

  lemma {:induction false} NonEmptyDropsEmptyFirst(cs: seq<string>)
    ensures NonEmpty([""] + cs) == NonEmpty(cs)
    decreases |cs|
  {
    if cs != [] {
      var init := cs[..|cs| - 1];
      var last := cs[|cs| - 1];
      assert [""] + cs == ([""] + init) + [last];
      assert cs == init + [last];
      NonEmptySnoc([""] + init, last);
      NonEmptySnoc(init, last);
      NonEmptyDropsEmptyFirst(init);
    } else {
      assert NonEmpty([""]) == AddSlide(NonEmpty([]), "");
    }
  }

  /** A separator line before the first slide changes nothing */
  lemma {:induction false} LeadingSeparator(content: string)
    ensures SlidesOf("---\n" + content) == SlidesOf(content)
  {
    var s := "---\n" + content;
    LeadingSeparatorTokens(content);
    ChunksSeparator("---\n", Lex(content, 0));
    var C := Chunks(Lex(content, 0));
    var CS := Chunks(Lex(s, 0));
    assert CS[..|CS| - 1] == [""] + C[..|C| - 1];
    assert CS[|CS| - 1] == C[|C| - 1];
    NonEmptyDropsEmptyFirst(C[..|C| - 1]);
  }

  lemma {:induction false} LeadingSeparatorTokens(content: string)
    ensures Lex("---\n" + content, 0) == [Separator("---\n")] + Lex(content, 0)
  {
    var s := "---\n" + content;
    assert s[0] == '-' && s[1] == '-' && s[2] == '-' && s[3] == '\n';
    assert DashesEnd(s, 3) == 3;
    assert DashesEnd(s, 0) == 3;
    assert SeparatorLength(s, 0) == 4;
    LexStep(s, 0);
    assert StepEnd(s, 0) == 4 && s[0..4] == "---\n";
    assert s[4..] == content[0..];
    LexShift(s, 4, content, 0);
  }

  lemma {:induction false} LineEndAt(s: string, i: nat, j: nat)
    requires i <= j < |s| && s[j] == '\n'
    requires forall k :: i <= k < j ==> s[k] != '\n'
    ensures LineEnd(s, i) == j
    decreases j - i
  {
    if i < j {
      LineEndAt(s, i + 1, j);
    }
  }

  predicate SingleLine(a: string) {
    a != "" && a[0] != '-' && forall k :: 0 <= k < |a| ==> a[k] != '\n'
  }

  /** The scanner step over a line that holds no separator */
  lemma {:induction false} LineStep(s: string, i: nat, a: string)
    requires SingleLine(a) && i + |a| < |s| && s[i..i + |a|] == a && s[i + |a|] == '\n'
    ensures StepEnd(s, i) == i + |a| && StepToken(s, i) == Piece(a)
  {
    assert s[i] == a[0];
    assert DashesEnd(s, i) == i;
    assert SeparatorLength(s, i) == 0;
    forall k | i <= k < i + |a|
      ensures s[k] != '\n'
    {
      assert s[k] == a[k - i];
    }
    LineEndAt(s, i, i + |a|);
  }

  /** The scanner step over a separator line after a newline */
  lemma {:induction false} SeparatorStep(s: string, i: nat)
    requires i + 5 <= |s| && s[i..i + 5] == "\n---\n"
    ensures StepEnd(s, i) == i + 5 && StepToken(s, i) == Separator("\n---\n")
  {
    assert s[i] == '\n' && s[i + 1] == '-' && s[i + 2] == '-' && s[i + 3] == '-' && s[i + 4] == '\n';
    assert DashesEnd(s, i + 4) == i + 4;
    assert DashesEnd(s, i + 1) == i + 4;
    assert SeparatorLength(s, i) == 5;
  }

  lemma {:induction false} LastLineTokens(b: string)
    requires SingleLine(b)
    ensures Lex(b + "\n", 0) == [Piece(b), Piece("\n")]
  {
    var s := b + "\n";
    var E := |b|;
    assert s[0..E] == b && s[E] == '\n';
    assert DashesEnd(s, E + 1) == E + 1;
    assert SeparatorLength(s, E) == 0;
    LexStep(s, E);
    assert StepEnd(s, E) == E + 1 && s[E..E + 1] == "\n";
    assert Lex(s, E + 1) == [];
    assert Lex(s, E) == [Piece("\n")];
    LineStep(s, 0, b);
    LexStep(s, 0);
    assert Lex(s, 0) == [Piece(b)] + Lex(s, E);
  }

  lemma {:induction false} SeparatorThenTokens(b: string)
    requires SingleLine(b)
    ensures Lex("\n---\n" + b + "\n", 0) == [Separator("\n---\n"), Piece(b), Piece("\n")]
  {
    var s := "\n---\n" + b + "\n";
    assert s[0..5] == "\n---\n";
    SeparatorStep(s, 0);
    LexStep(s, 0);
    assert s[5..] == (b + "\n")[0..];
    LexShift(s, 5, b + "\n", 0);
    LastLineTokens(b);
  }

  lemma {:induction false} TwoSlidesTokens(a: string, b: string)
    requires SingleLine(a) && SingleLine(b)
    ensures Lex(a + "\n---\n" + b + "\n", 0) == [Piece(a), Separator("\n---\n"), Piece(b), Piece("\n")]
  {
    var rest := "\n---\n" + b + "\n";
    assert a + "\n---\n" + b + "\n" == a + rest;
    LineThen(a, rest);
    SeparatorThenTokens(b);
  }

  /** A line without a separator, then text from its newline on */
  lemma {:induction false} LineThen(a: string, rest: string)
    requires SingleLine(a) && rest != "" && rest[0] == '\n'
    ensures Lex(a + rest, 0) == [Piece(a)] + Lex(rest, 0)
  {
    var s := a + rest;
    assert s[0..|a|] == a && s[|a|] == '\n';
    LineStep(s, 0, a);
    LexStep(s, 0);
    assert s[|a|..] == rest[0..];
    LexShift(s, |a|, rest, 0);
  }

  lemma ChunksPiece(t: string, rest: seq<Token>)
    ensures Chunks([Piece(t)] + rest) == [t + Chunks(rest)[0]] + Chunks(rest)[1..]
  {
    assert ([Piece(t)] + rest)[1..] == rest;
  }

  lemma ChunksSeparator(t: string, rest: seq<Token>)
    ensures Chunks([Separator(t)] + rest) == [""] + Chunks(rest)
  {
    assert ([Separator(t)] + rest)[1..] == rest;
  }

  lemma ChunksOfTwo(a: string, b: string)
    ensures Chunks([Piece(a), Separator("\n---\n"), Piece(b), Piece("\n")]) == [a, b + "\n"]
  {
    var t3 := [Piece("\n")];
    var t2 := [Piece(b)] + t3;
    var t1 := [Separator("\n---\n")] + t2;
    ChunksPiece("\n", []);
    assert [Piece("\n")] + [] == t3;
    assert Chunks([]) == [""];
    assert "\n" + "" == "\n";
    assert Chunks(t3) == ["\n"];
    ChunksPiece(b, t3);
    assert Chunks(t2) == [b + "\n"];
    ChunksSeparator("\n---\n", t2);
    assert Chunks(t1) == ["", b + "\n"];
    ChunksPiece(a, t1);
    assert a + "" == a;
    assert Chunks([Piece(a)] + t1) == [a] + [b + "\n"];
    assert [Piece(a), Separator("\n---\n"), Piece(b), Piece("\n")] == [Piece(a)] + t1;
  }

  /** Two one-line slides around a separator line */
  lemma {:induction false} TwoSlides(a: string, b: string)
    requires SingleLine(a) && SingleLine(b) && b[|b| - 1] != '\r'
    ensures SlidesOf(a + "\n---\n" + b + "\n") == [a, b]
  {
    TwoSlidesTokens(a, b);
    ChunksOfTwo(a, b);
    var CS := [a, b + "\n"];
    assert CS[..|CS| - 1] == [] + [a] && CS[|CS| - 1] == b + "\n";
    ChompNewline(b);
    NonEmptySnoc([], a);
    assert NonEmpty([]) == [];
    calc {
      SlidesOf(a + "\n---\n" + b + "\n");
      AddSlide(NonEmpty(CS[..|CS| - 1]), Chomp(CS[|CS| - 1]));
      AddSlide(AddSlide([], a), b);
      [a, b];
    }
  }

  // The metadata pattern and symbol keys

  /** A first line that starts with a colon never matches the pattern as written */
  lemma {:induction false} ColonFirstRejected(line: string)
    requires line != "" && line[0] == ':'
    ensures !KeyValueLine(line)
  {
    forall i | 0 < i < |line| - 1 && line[i] == ':'
      ensures !NoColon(line[..i])
    {
      assert line[..i][0] == ':';
    }
  }

  /** Both patterns agree on a slide that does not start with a colon */
  lemma MetadataGivenAgrees(slide: string)
    requires slide != "" && slide[0] != ':'
    ensures MetadataGiven(slide) <==> MetadataGivenAsWritten(slide)
  {
    var j := LineEnd(slide, 0);
    assert Lines(slide)[0][0] == slide[0];
  }

  /**
   * A deck whose first line is ":align: center", as in the parser test "parses
   * only indented metadata with symbol keys": the pattern as written does
   * not see the metadata; the corrected one does.
   */
  lemma {:induction false} SymbolKeyMetadata(rest: string)
    ensures !MetadataGivenAsWritten(":align: center\n" + rest)
    ensures MetadataGiven(":align: center\n" + rest)
  {
    var slide := ":align: center\n" + rest;
    LineEndAt(slide, 0, 14);
    var line := Lines(slide)[0];
    assert line == slide[..15] == ":align: center\n";
    ColonFirstRejected(line);
    var tail := line[1..];
    assert tail == "align: center\n";
    assert tail[5] == ':' && NoColon(tail[..5]) && NoColon(tail[6..]);
  }

  /** The two parses agree on every deck whose first slide does not start with a colon */
  lemma {:induction false} ParseAgrees(content: string, parseMetadata: string -> Result<Value, Error>)
    requires SlidesOf(content) == [] || SlidesOf(content)[0][0] != ':'
    ensures Parse(content, parseMetadata) == ParseCorrected(content, parseMetadata)
  {
    var slides := SlidesOf(content);
    if slides != [] {
      MetadataGivenAgrees(slides[0]);
    }
  }

  /**
   * A deck whose first slide starts with the line ":align: center", as in
   * the parser test: as written every slide is kept and the metadata is
   * empty; the corrected parse reads that slide as metadata.
   */
  lemma {:induction false} SymbolKeyDeck(content: string, parseMetadata: string -> Result<Value, Error>, rest: string)
    requires SlidesOf(content) != [] && SlidesOf(content)[0] == ":align: center\n" + rest
    ensures Parse(content, parseMetadata) == Success(ParsedDeck(Hash([]), SlidesOf(content)))
    ensures MetadataGiven(SlidesOf(content)[0]) && !MetadataGivenAsWritten(SlidesOf(content)[0])
    ensures ParseCorrected(content, parseMetadata) == ReadDeck(SlidesOf(content), true, parseMetadata)
  {
    SymbolKeyMetadata(rest);
  }

  /**
   * A first slide that YAML loads as a non-empty Symbol (such as ":foo"
   * with Symbol permitted) is taken as the metadata and dropped from the
   * slides, since a Symbol answers empty?.
   */
  lemma {:induction false} SymbolMetadataRead(slides: seq<string>, parseMetadata: string -> Result<Value, Error>, name: string)
    requires slides != [] && parseMetadata(slides[0]) == Success(Sym(name)) && name != ""
    ensures ReadDeck(slides, true, parseMetadata) == Success(ParsedDeck(Sym(name), slides[1..]))
  {
    assert IsEmpty(Sym(name)) == Success(false);
  }
}
