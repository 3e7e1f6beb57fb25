/**
 * Slideck::Presenter: the interactive loop. It renders the current slide,
 * reads a key, lets the key move the tracker, fill the slide-number buffer
 * or stop the presentation, and renders again until stopped.
 *
 * The presenter's fields are a value, State, and each operation of the
 * class is specified by a function on it; the properties are lemmas about
 * those functions. What a key changes (the tracker, the buffer and the stop
 * flag) is a value of its own, Keys, so that the key handlers are functions
 * on it and on what they print.
 */
module Presenter {
  import opened Wrappers
  import opened RubyText
  import opened MetadataValues
  import T = Tracker
  import R = Renderer
  import MD = Metadata
  import MW = MetadataWrapper

  /** What the presenter prints: the renderer's actions and the cursor's visibility */
  datatype Printed = Draw(action: R.Action) | HideCursor | ShowCursor

  /** The handlers TTY::Reader calls by key name, besides keypress */
  datatype NamedKey = KeyRight | KeySpace | KeyPageDown | KeyLeft | KeyBackspace | KeyPageUp | KeyCtrlX | KeyEscape

  /**
   * One key as TTY::Reader delivers it: its value and, when the presenter has
   * a handler of that key's name, the name.
   */
  datatype KeyEvent = KeyEvent(value: string, name: Option<NamedKey>)

  /** The fields the keys change: @tracker, @buffer and @stop */
  datatype Keys = Keys(tracker: T.Tracker, buffer: seq<string>, stop: bool)

  /** What a key handler leaves: the new key fields and what it printed */
  datatype Effect = Effect(keys: Keys, printed: seq<Printed>)

  /** The presenter's fields */
  datatype State = State(
    slides: seq<MW.Slide>,
    metadata: MD.Metadata,
    renderer: R.Renderer,
    keys: Keys,
    output: seq<Printed>)

  /** A render and the error that ended it, if any */
  datatype Outcome = Outcome(state: State, failure: Option<R.RenderError>)

  /** The deck's metadata has the shape that the wrapper gives it, and so does every slide's metadata */
  predicate DeckReady(slides: seq<MW.Slide>, metadata: MD.Metadata) {
    && MD.DeckShape(metadata)
    && forall i :: 0 <= i < |slides| ==> WellTyped(slides[i].metadata.fields)
  }

  predicate Ready(s: State) {
    DeckReady(s.slides, s.metadata)
  }

  /** The tracker counts the slides and, when there are any, points at one */
  predicate Synced(s: State) {
    s.keys.tracker.total == |s.slides| && (s.slides != [] ==> T.Valid(s.keys.tracker))
  }

  /** Array#[]: counts from the end for a negative index; nil out of range */
  function RubyAt<X>(xs: seq<X>, i: int): (r: Option<X>)
    ensures 0 <= i < |xs| ==> r == Some(xs[i])
    ensures -|xs| <= i < 0 ==> r == Some(xs[|xs| + i])
    ensures r.None? <==> i >= |xs| || i < -|xs|
  {
    if 0 <= i < |xs| then Some(xs[i])
    else if -|xs| <= i < 0 then Some(xs[|xs| + i])
    else None
  }

  /** The renderer's actions as printed */
  function Draws(actions: seq<R.Action>): (p: seq<Printed>)
    ensures |p| == |actions| && forall i :: 0 <= i < |actions| ==> p[i] == Draw(actions[i])
  {
    seq(|actions|, i requires 0 <= i < |actions| => Draw(actions[i]))
  }

  /** Output b is output a followed by more */
  predicate Extends(a: seq<Printed>, b: seq<Printed>) {
    |a| <= |b| && b[..|a|] == a
  }

  lemma {:induction false} ExtendsTrans(a: seq<Printed>, b: seq<Printed>, c: seq<Printed>)
    requires Extends(a, b) && Extends(b, c)
    ensures Extends(a, c)
  {
    assert c[..|a|] == c[..|b|][..|a|];
  }

  lemma {:induction false} ExtendsAppend(a: seq<Printed>, b: seq<Printed>)
    ensures Extends(a, a + b)
  {
    assert (a + b)[..|a|] == a;
  }

  // ---------------------------------------------------------------------------
  // The key handlers
  // ---------------------------------------------------------------------------

  /** A key value that `/\d/` matches: one with a decimal digit anywhere in it */
  predicate HasDigit(value: string) {
    exists i :: 0 <= i < |value| && IsDigit(value[i])
  }

  /** Presenter#go_to_slide: the buffered keys, joined and read as a number, name the slide counting from 1; the buffer empties */
  function WentToSlide(k: Keys): (k': Keys)
    ensures k'.buffer == [] && k'.stop == k.stop
    ensures k'.tracker == T.GoTo(k.tracker, ToI(Concat(k.buffer)) - 1)
  {
    k.(tracker := T.GoTo(k.tracker, ToI(Concat(k.buffer)) - 1), buffer := [])
  }

  /** Presenter#keyctrl_x, aliased keyescape: a clear screen, then stop */
  function Quit(k: Keys): (r: Effect)
    ensures r.keys.stop && r.keys.tracker == k.tracker && r.keys.buffer == k.buffer
    ensures r.printed == Draws(R.Clear())
  {
    Effect(k.(stop := true), Draws(R.Clear()))
  }

  /** Presenter#keypress: the case on the key's value; a value it does not list changes nothing */
  function Pressed(k: Keys, value: string): (r: Effect)
    ensures r.keys.tracker.total == k.tracker.total && (T.Valid(k.tracker) ==> T.Valid(r.keys.tracker))
    ensures r.keys.stop <==> k.stop || value == "q"
    ensures r.printed == if value == "q" then Draws(R.Clear()) else []
    ensures value == "n" || value == "l" ==> r.keys == k.(tracker := T.Next(k.tracker))
    ensures value == "p" || value == "h" ==> r.keys == k.(tracker := T.Previous(k.tracker))
    ensures value == "^" ==> r.keys == k.(tracker := T.First(k.tracker))
    ensures value == "$" ==> r.keys == k.(tracker := T.Last(k.tracker))
    ensures value == "g" ==> r.keys == WentToSlide(k)
    ensures HasDigit(value) ==> r.keys == k.(buffer := k.buffer + [value])
    ensures value == "q" ==> r.keys == k.(stop := true)
    ensures value != "g" && !HasDigit(value) ==> r.keys.buffer == k.buffer
    ensures !(value in {"n", "l", "p", "h", "^", "$", "g", "q"}) && !HasDigit(value) ==> r == Effect(k, [])
  {
    if value == "n" || value == "l" then Effect(k.(tracker := T.Next(k.tracker)), [])
    else if value == "p" || value == "h" then Effect(k.(tracker := T.Previous(k.tracker)), [])
    else if value == "^" then Effect(k.(tracker := T.First(k.tracker)), [])
    else if value == "$" then Effect(k.(tracker := T.Last(k.tracker)), [])
    else if value == "g" then Effect(WentToSlide(k), [])
    else if HasDigit(value) then Effect(k.(buffer := k.buffer + [value]), [])
    else if value == "q" then Quit(k)
    else Effect(k, [])
  }

  /** The named handlers: keyright and its aliases go on, keyleft and its aliases go back, keyctrl_x and keyescape quit */
  function Named(k: Keys, key: NamedKey): (r: Effect)
    ensures r.keys.tracker.total == k.tracker.total && (T.Valid(k.tracker) ==> T.Valid(r.keys.tracker))
    ensures r.keys.buffer == k.buffer
    ensures r.keys.stop <==> k.stop || key in {KeyCtrlX, KeyEscape}
    ensures key in {KeyRight, KeySpace, KeyPageDown} ==> r == Effect(k.(tracker := T.Next(k.tracker)), [])
    ensures key in {KeyLeft, KeyBackspace, KeyPageUp} ==> r == Effect(k.(tracker := T.Previous(k.tracker)), [])
    ensures key in {KeyCtrlX, KeyEscape} ==> r == Effect(k.(stop := true), Draws(R.Clear()))
  {
    match key
    case KeyRight | KeySpace | KeyPageDown => Effect(k.(tracker := T.Next(k.tracker)), [])
    case KeyLeft | KeyBackspace | KeyPageUp => Effect(k.(tracker := T.Previous(k.tracker)), [])
    case KeyCtrlX | KeyEscape => Quit(k)
  }

  /** A key that stops the presentation */
  predicate IsQuit(e: KeyEvent) {
    e.value == "q" || e.name == Some(KeyCtrlX) || e.name == Some(KeyEscape)
  }

  /** TTY::Reader's dispatch of one key: the handler of its name, if the presenter has one, then keypress */
  function KeyStep(k: Keys, e: KeyEvent): (r: Effect)
    ensures r.keys.tracker.total == k.tracker.total && (T.Valid(k.tracker) ==> T.Valid(r.keys.tracker))
    ensures r.keys.stop <==> k.stop || IsQuit(e)
    ensures !IsQuit(e) ==> r.printed == []
  {
    var named := if e.name.Some? then Named(k, e.name.value) else Effect(k, []);
    var pressed := Pressed(named.keys, e.value);
    Effect(pressed.keys, named.printed + pressed.printed)
  }

  /** The presenter after a key handler */
  function Applied(s: State, e: Effect): (s': State)
    ensures s' == s.(keys := e.keys, output := s.output + e.printed)
    ensures Extends(s.output, s'.output)
  {
    ExtendsAppend(s.output, e.printed);
    s.(keys := e.keys, output := s.output + e.printed)
  }

  /** The named handler's effect, then keypress's effect, applied in turn */
  lemma {:induction false} KeyStepApplied(s: State, e: KeyEvent)
    ensures var named := if e.name.Some? then Named(s.keys, e.name.value) else Effect(s.keys, []);
            Applied(Applied(s, named), Pressed(named.keys, e.value)) == Applied(s, KeyStep(s.keys, e))
  {
    var named := if e.name.Some? then Named(s.keys, e.name.value) else Effect(s.keys, []);
    var pressed := Pressed(named.keys, e.value);
    assert s.output + named.printed + pressed.printed == s.output + (named.printed + pressed.printed);
  }

  /** The presenter after one key */
  function Handled(s: State, e: KeyEvent): (s': State)
    ensures s'.slides == s.slides && s'.metadata == s.metadata && s'.renderer == s.renderer
    ensures s'.keys == KeyStep(s.keys, e).keys
    ensures Synced(s) ==> Synced(s')
    ensures !IsQuit(e) ==> s'.output == s.output
    ensures Extends(s.output, s'.output)
  {
    Applied(s, KeyStep(s.keys, e))
  }

  /** The key fields after a run of keys, without the renders between them */
  function KeysAfter(k: Keys, events: seq<KeyEvent>): Keys
    decreases |events|
  {
    if events == [] then k else KeysAfter(KeyStep(k, events[0]).keys, events[1..])
  }

  // ---------------------------------------------------------------------------
  // Reloading, rendering and the loop
  // ---------------------------------------------------------------------------

  /** Presenter#reload: new slides and metadata; the tracker is resized to the number of slides */
  function Reloaded(s: State, metadata: MD.Metadata, slides: seq<MW.Slide>): (s': State)
    ensures s'.slides == slides && s'.metadata == metadata && s'.keys.tracker.total == |slides|
    ensures s'.keys.buffer == s.keys.buffer && s'.keys.stop == s.keys.stop && s'.output == s.output && s'.renderer == s.renderer
    ensures Synced(s) || s.keys.tracker.total != |slides| ==> Synced(s')
    ensures 0 <= s.keys.tracker.current < |slides| ==> s'.keys.tracker.current == s.keys.tracker.current
  {
    s.(slides := slides, metadata := metadata, keys := s.keys.(tracker := T.Resize(s.keys.tracker, |slides|)))
  }

  /** Presenter#render_slide: `slides[current]`, with page current + 1 of the total */
  function RenderSlide(slides: seq<MW.Slide>, metadata: MD.Metadata, renderer: R.Renderer, tracker: T.Tracker): Result<seq<R.Action>, R.RenderError>
    requires DeckReady(slides, metadata)
  {
    var slide := RubyAt(slides, tracker.current);
    assert R.Ready(metadata, R.SlideMetadata(slide));
    R.Render(renderer, metadata, slide, tracker.current + 1, tracker.total)
  }

  function RenderCurrent(s: State): Result<seq<R.Action>, R.RenderError>
    requires Ready(s)
  {
    RenderSlide(s.slides, s.metadata, s.renderer, s.keys.tracker)
  }

  /** What rendering the deck shows at each position of the tracker */
  type Screen = T.Tracker -> Result<seq<R.Action>, R.RenderError>

  /** The presenter's deck, renderer and metadata, rendered at each position */
  function ScreenOf(s: State): (screen: Screen)
    requires Ready(s)
    ensures forall t :: screen(t) == RenderSlide(s.slides, s.metadata, s.renderer, t)
  {
    t => RenderSlide(s.slides, s.metadata, s.renderer, t)
  }

  /**
   * Presenter#render: a clear, then the slide as rendered. The clear is
   * printed before the slide is rendered, so a render that raises leaves
   * only the clear.
   */
  function Frame(s: State, shown: Result<seq<R.Action>, R.RenderError>): (o: Outcome)
    ensures o.state == s.(output := o.state.output)
    ensures o.failure.None? <==> shown.Success?
    ensures o.failure.Some? ==> o.failure.value == shown.error
    ensures o.state.output == s.output + Draws(R.Clear()) + (if shown.Success? then Draws(shown.value) else [])
    ensures Extends(s.output, o.state.output)
  {
    var printed := Draws(R.Clear()) + (if shown.Success? then Draws(shown.value) else []);
    ExtendsAppend(s.output, printed);
    Outcome(s.(output := s.output + printed), if shown.Success? then None else Some(shown.error))
  }

  /**
   * Presenter#start's `until @stop` loop from event i on: render, then
   * read a key. The events are the keys the reader would read; when they run
   * out, the loop ends after its last render.
   */
  function Loop(s: State, screen: Screen, events: seq<KeyEvent>, i: nat): (o: Outcome)
    requires i <= |events|
    ensures o.state.slides == s.slides && o.state.metadata == s.metadata && o.state.renderer == s.renderer
    ensures o.state.keys.tracker.total == s.keys.tracker.total
    ensures Synced(s) ==> Synced(o.state)
    ensures Extends(s.output, o.state.output)
    decreases |events| - i
  {
    if s.keys.stop then Outcome(s, None)
    else
      var o := Frame(s, screen(s.keys.tracker));
      if o.failure.Some? || i == |events| then o
      else
        var next := Handled(o.state, events[i]);
        var r := Loop(next, screen, events, i + 1);
        ExtendsTrans(s.output, o.state.output, next.output);
        ExtendsTrans(s.output, next.output, r.state.output);
        r
  }

  /** One pass of the loop: a frame, then, unless it failed or the keys ran out, the next key */
  lemma {:induction false} LoopStep(s: State, screen: Screen, events: seq<KeyEvent>, i: nat)
    requires i <= |events| && !s.keys.stop
    ensures var o := Frame(s, screen(s.keys.tracker));
            Loop(s, screen, events, i) == if o.failure.Some? || i == |events| then o else Loop(Handled(o.state, events[i]), screen, events, i + 1)
  {
  }

  /** A stopped presenter's loop renders nothing more */
  lemma {:induction false} LoopStopped(s: State, screen: Screen, events: seq<KeyEvent>, i: nat)
    requires i <= |events| && s.keys.stop
    ensures Loop(s, screen, events, i) == Outcome(s, None)
  {
  }

  /** Presenter#start: hide the cursor, run the loop, and show the cursor again however the loop ends */
  function Session(s: State, events: seq<KeyEvent>): Outcome
    requires Ready(s)
  {
    var o := Loop(s.(output := s.output + [HideCursor]), ScreenOf(s), events, 0);
    Outcome(o.state.(output := o.state.output + [ShowCursor]), o.failure)
  }

  // ---------------------------------------------------------------------------
  // The presenter object
  // ---------------------------------------------------------------------------

  class Presenter {
    var slides: seq<MW.Slide>
    var metadata: MD.Metadata
    var renderer: R.Renderer
    var tracker: T.Tracker
    var buffer: seq<string>
    var stop: bool
    var output: seq<Printed>

    function Snapshot(): State
      reads this
    {
      State(slides, metadata, renderer, Keys(tracker, buffer, stop), output)
    }

    predicate Valid()
      reads this
    {
      Ready(Snapshot())
    }

    /** Presenter.new: not stopped, an empty buffer, nothing printed */
    constructor (slides: seq<MW.Slide>, metadata: MD.Metadata, renderer: R.Renderer, tracker: T.Tracker)
      requires DeckReady(slides, metadata)
      ensures Valid()
      ensures Snapshot() == State(slides, metadata, renderer, Keys(tracker, [], false), [])
    {
      this.slides := slides;
      this.metadata := metadata;
      this.renderer := renderer;
      this.tracker := tracker;
      buffer := [];
      stop := false;
      output := [];
    }

    method Reload(metadata: MD.Metadata, slides: seq<MW.Slide>)
      requires DeckReady(slides, metadata)
      modifies this
      ensures Valid()
      ensures Snapshot() == Reloaded(old(Snapshot()), metadata, slides)
    {
      ghost var s' := Reloaded(Snapshot(), metadata, slides);
      this.slides := slides;
      this.metadata := metadata;
      tracker := T.Resize(tracker, |slides|);
      assert Snapshot() == s';
    }

    method Stop()
      modifies this
      ensures Snapshot() == old(Snapshot()).(keys := old(Snapshot()).keys.(stop := true))
    {
      stop := true;
    }

    method ClearScreen()
      modifies this
      ensures Snapshot() == old(Snapshot()).(output := old(output) + Draws(R.Clear()))
    {
      output := output + Draws(R.Clear());
    }

    method HideCursor()
      modifies this
      ensures Snapshot() == old(Snapshot()).(output := old(output) + [Printed.HideCursor])
    {
      output := output + [Printed.HideCursor];
    }

    method ShowCursor()
      modifies this
      ensures Snapshot() == old(Snapshot()).(output := old(output) + [Printed.ShowCursor])
    {
      output := output + [Printed.ShowCursor];
    }

    /** Presenter#render: the clear, then Presenter#render_slide */
    method Render() returns (failure: Option<R.RenderError>)
      requires Valid()
      modifies this
      ensures Valid()
      ensures Outcome(Snapshot(), failure) == Frame(old(Snapshot()), RenderSlide(old(slides), old(metadata), old(renderer), old(tracker)))
    {
      ClearScreen();
      failure := PrintSlide();
    }

    /** Presenter#render_slide: prints the current slide as the renderer draws it, or raises the renderer's error */
    method PrintSlide() returns (failure: Option<R.RenderError>)
      requires Valid()
      modifies this
      ensures Valid()
      ensures var shown := RenderSlide(old(slides), old(metadata), old(renderer), old(tracker));
              && Snapshot() == old(Snapshot()).(output := old(output) + (if shown.Success? then Draws(shown.value) else []))
              && failure == (if shown.Success? then None else Some(shown.error))
    {
      var shown := RenderSlide(slides, metadata, renderer, tracker);
      if shown.Failure? {
        failure := Some(shown.error);
        assert output == output + [];
      } else {
        output := output + Draws(shown.value);
        failure := None;
      }
    }

    method KeyRight()
      modifies this
      ensures Snapshot() == Applied(old(Snapshot()), Named(old(Snapshot()).keys, NamedKey.KeyRight))
    {
      tracker := T.Next(tracker);
    }

    method KeyLeft()
      modifies this
      ensures Snapshot() == Applied(old(Snapshot()), Named(old(Snapshot()).keys, NamedKey.KeyLeft))
    {
      tracker := T.Previous(tracker);
    }

    method KeyCtrlX()
      modifies this
      ensures Snapshot() == Applied(old(Snapshot()), Quit(old(Snapshot()).keys))
    {
      ClearScreen();
      Stop();
    }

    method GoToFirst()
      modifies this
      ensures Snapshot() == old(Snapshot()).(keys := old(Snapshot()).keys.(tracker := T.First(old(tracker))))
    {
      tracker := T.First(tracker);
    }

    method GoToLast()
      modifies this
      ensures Snapshot() == old(Snapshot()).(keys := old(Snapshot()).keys.(tracker := T.Last(old(tracker))))
    {
      tracker := T.Last(tracker);
    }

    method GoToSlide()
      modifies this
      ensures Snapshot() == old(Snapshot()).(keys := WentToSlide(old(Snapshot()).keys))
    {
      tracker := T.GoTo(tracker, ToI(Concat(buffer)) - 1);
      buffer := [];
    }

    method AddToBuffer(key: string)
      modifies this
      ensures Snapshot() == old(Snapshot()).(keys := old(Snapshot()).keys.(buffer := old(buffer) + [key]))
    {
      buffer := buffer + [key];
    }

    method Keypress(value: string)
      modifies this
      ensures Snapshot() == Applied(old(Snapshot()), Pressed(old(Snapshot()).keys, value))
    {
      if value == "n" || value == "l" {
        KeyRight();
      } else if value == "p" || value == "h" {
        KeyLeft();
      } else if value == "^" {
        GoToFirst();
      } else if value == "$" {
        GoToLast();
      } else if value == "g" {
        GoToSlide();
      } else if HasDigit(value) {
        AddToBuffer(value);
      } else if value == "q" {
        KeyCtrlX();
      }
    }

    /** The reader's dispatch of one key to the handler of its name and to keypress */
    method HandleEvent(e: KeyEvent)
      requires Valid()
      modifies this
      ensures Valid()
      ensures Snapshot() == Handled(old(Snapshot()), e)
    {
      ghost var s0 := Snapshot();
      ghost var named := if e.name.Some? then Named(s0.keys, e.name.value) else Effect(s0.keys, []);
      if e.name.Some? {
        match e.name.value
        case KeyRight | KeySpace | KeyPageDown => KeyRight();
        case KeyLeft | KeyBackspace | KeyPageUp => KeyLeft();
        case KeyCtrlX | KeyEscape => KeyCtrlX();
      }
      assert Snapshot() == Applied(s0, named);
      Keypress(e.value);
      KeyStepApplied(s0, e);
    }

    method Start(events: seq<KeyEvent>) returns (failure: Option<R.RenderError>)
      requires Valid()
      modifies this
      ensures Valid()
      ensures Outcome(Snapshot(), failure) == Session(old(Snapshot()), events)
    {
      ghost var screen := ScreenOf(Snapshot());
      HideCursor();
      ghost var target := Loop(Snapshot(), screen, events, 0);
      var i := 0;
      var done := false;
      failure := None;
      while !stop && !done
        invariant Valid() && 0 <= i <= |events|
        invariant slides == old(slides) && metadata == old(metadata) && renderer == old(renderer)
        invariant !done ==> failure.None? && Loop(Snapshot(), screen, events, i) == target
        invariant done ==> Outcome(Snapshot(), failure) == target
        decreases |events| - i + (if done then 0 else 1)
      {
        LoopStep(Snapshot(), screen, events, i);
        assert screen(tracker) == RenderSlide(slides, metadata, renderer, tracker);
        failure := Render();
        if failure.Some? || i == |events| {
          done := true;
        } else {
          HandleEvent(events[i]);
          i := i + 1;
        }
      }
      ShowCursor();
    }
  }

  // ---------------------------------------------------------------------------
  // Properties of the loop
  // ---------------------------------------------------------------------------

  /** Presenter#start hides the cursor first and shows it last, whatever the keys and however the loop ends */
  lemma {:induction false} SessionBrackets(s: State, events: seq<KeyEvent>)
    requires Ready(s)
    ensures var out := Session(s, events).state.output;
            && |out| >= |s.output| + 2
            && out[..|s.output| + 1] == s.output + [HideCursor]
            && out[|out| - 1] == ShowCursor
  {
    var start := s.(output := s.output + [HideCursor]);
    var t := Loop(start, ScreenOf(s), events, 0).state;
    assert Session(s, events).state.output == t.output + [ShowCursor];
    Bracketed(s.output, t.output);
  }

  lemma {:induction false} Bracketed(before: seq<Printed>, during: seq<Printed>)
    requires Extends(before + [HideCursor], during)
    ensures var out := during + [ShowCursor];
            && |out| >= |before| + 2
            && out[..|before| + 1] == before + [HideCursor]
            && out[|out| - 1] == ShowCursor
  {
    var out := during + [ShowCursor];
    assert out[..|before| + 1] == during[..|before| + 1];
  }

  /** The keys after the first quitting key are never read */
  lemma {:induction false} LoopIgnoresAfterQuit(s: State, screen: Screen, events: seq<KeyEvent>, extra: seq<KeyEvent>, i: nat, j: nat)
    requires i <= j < |events| && IsQuit(events[j])
    ensures Loop(s, screen, events + extra, i) == Loop(s, screen, events, i)
    decreases j - i
  {
    if !s.keys.stop {
      LoopStep(s, screen, events, i);
      LoopStep(s, screen, events + extra, i);
      assert (events + extra)[i] == events[i];
      var o := Frame(s, screen(s.keys.tracker));
      if o.failure.None? {
        var next := Handled(o.state, events[i]);
        if i == j {
          LoopStopped(next, screen, events, i + 1);
          LoopStopped(next, screen, events + extra, i + 1);
        } else {
          LoopIgnoresAfterQuit(next, screen, events, extra, i + 1, j);
        }
      }
    }
  }

  /**
   * The renders between the keys do not change where the keys lead: when no
   * render fails, the loop ends where the keys alone lead.
   */
  lemma {:induction false} LoopFollowsKeys(s: State, screen: Screen, events: seq<KeyEvent>, i: nat)
    requires i <= |events| && !s.keys.stop
    requires forall k :: i <= k < |events| ==> !IsQuit(events[k])
    requires Loop(s, screen, events, i).failure.None?
    ensures Loop(s, screen, events, i).state.keys == KeysAfter(s.keys, events[i..])
    decreases |events| - i
  {
    LoopStep(s, screen, events, i);
    if i == |events| {
      assert events[i..] == [];
    } else {
      var next := Handled(Frame(s, screen(s.keys.tracker)).state, events[i]);
      LoopFollowsKeys(next, screen, events, i + 1);
      KeysAfterFrom(s.keys, events, i);
    }
  }

  /** "quits slides immediately with 'q' key": one frame, a clear, and the cursor shown again */
  lemma {:induction false} QuitAtOnce(s: State, rest: seq<KeyEvent>)
    requires Ready(s) && !s.keys.stop && RenderCurrent(s).Success?
    ensures var o := Session(s, [KeyEvent("q", None)] + rest);
            && o.failure.None?
            && o.state == s.(keys := s.keys.(stop := true), output := o.state.output)
            && o.state.output == s.output + [HideCursor] + Draws(R.Clear()) + Draws(RenderCurrent(s).value) + Draws(R.Clear()) + [ShowCursor]
  {
    var screen := ScreenOf(s);
    var start := s.(output := s.output + [HideCursor]);
    assert screen(start.keys.tracker) == RenderCurrent(s);
    QuitFirst(start, screen, rest);
  }

  /** A "q" as the first key ends the loop after one frame and a clear */
  lemma {:induction false} QuitFirst(s: State, screen: Screen, rest: seq<KeyEvent>)
    requires !s.keys.stop && screen(s.keys.tracker).Success?
    ensures Loop(s, screen, [KeyEvent("q", None)] + rest, 0)
            == Outcome(s.(keys := s.keys.(stop := true), output := s.output + Draws(R.Clear()) + Draws(screen(s.keys.tracker).value) + Draws(R.Clear())), None)
  {
    var q := KeyEvent("q", None);
    LoopIgnoresAfterQuit(s, screen, [q], rest, 0, 0);
    LoopStep(s, screen, [q], 0);
    var o := Frame(s, screen(s.keys.tracker));
    assert !HasDigit("q") by {
      assert forall k :: 0 <= k < 1 ==> "q"[k] == 'q';
    }
    var next := Handled(o.state, q);
    assert next.keys == s.keys.(stop := true);
    assert next.output == o.state.output + Draws(R.Clear());
    LoopStopped(next, screen, [q], 1);
  }

  // ---------------------------------------------------------------------------
  // Properties of the keys
  // ---------------------------------------------------------------------------

  lemma {:induction false} KeysAfterAppend(k: Keys, a: seq<KeyEvent>, b: seq<KeyEvent>)
    ensures KeysAfter(k, a + b) == KeysAfter(KeysAfter(k, a), b)
    decreases |a|
  {
    if a == [] {
      assert a + b == b;
    } else {
      assert (a + b)[1..] == a[1..] + b;
      KeysAfterAppend(KeyStep(k, a[0]).keys, a[1..], b);
    }
  }

  lemma {:induction false} KeysAfterFrom(k: Keys, events: seq<KeyEvent>, i: nat)
    requires i < |events|
    ensures KeysAfter(k, events[i..]) == KeysAfter(KeyStep(k, events[i]).keys, events[i + 1..])
  {
    assert events[i..][0] == events[i];
    assert events[i..][1..] == events[i + 1..];
  }

  /** The keys typed for a text, one character each */
  function Typed(text: string): (events: seq<KeyEvent>)
    ensures |events| == |text|
    decreases |text|
  {
    if text == [] then [] else [KeyEvent([text[0]], None)] + Typed(text[1..])
  }

  /** Each character of a text as a string of its own */
  function Chars(text: string): (cs: seq<string>)
    ensures |cs| == |text|
    decreases |text|
  {
    if text == [] then [] else [[text[0]]] + Chars(text[1..])
  }

  lemma {:induction false} ConcatChars(text: string)
    ensures Concat(Chars(text)) == text
    decreases |text|
  {
    if text != [] {
      var cs := Chars(text);
      assert cs[0] == [text[0]] && cs[1..] == Chars(text[1..]);
      ConcatChars(text[1..]);
      assert text == [text[0]] + text[1..];
    }
  }

  /** Typed digits only fill the buffer, one key value per digit */
  lemma {:induction false} TypingDigits(k: Keys, digits: string)
    requires AllDigits(digits)
    ensures KeysAfter(k, Typed(digits)) == k.(buffer := k.buffer + Chars(digits))
    decreases |digits|
  {
    if digits == [] {
      assert k.buffer + Chars(digits) == k.buffer;
    } else {
      var e := KeyEvent([digits[0]], None);
      KeysAfterCons(k, e, Typed(digits[1..]));
      var next := DigitKey(k, digits[0]);
      TypingDigits(next, digits[1..]);
      assert next.buffer + Chars(digits[1..]) == k.buffer + Chars(digits);
    }
  }

  lemma {:induction false} KeysAfterCons(k: Keys, e: KeyEvent, rest: seq<KeyEvent>)
    ensures KeysAfter(k, [e] + rest) == KeysAfter(KeyStep(k, e).keys, rest)
  {
    assert ([e] + rest)[1..] == rest;
  }

  /** A digit key adds itself to the buffer and changes nothing else */
  lemma {:induction false} DigitKey(k: Keys, c: char) returns (next: Keys)
    requires IsDigit(c)
    ensures next == KeyStep(k, KeyEvent([c], None)).keys == k.(buffer := k.buffer + [[c]])
  {
    assert HasDigit([c]) by {
      assert IsDigit([c][0]);
    }
    next := k.(buffer := k.buffer + [[c]]);
  }

  /** Typing a slide number and then "g" goes to that slide, counting from 1, if the deck has it; the buffer empties */
  lemma {:induction false} GoToTyped(k: Keys, n: nat)
    requires k.buffer == []
    ensures KeysAfter(k, Typed(IntToString(n)) + [KeyEvent("g", None)]) == k.(tracker := T.GoTo(k.tracker, n - 1))
  {
    var digits := IntToString(n);
    var g := KeyEvent("g", None);
    TypingDigits(k, digits);
    KeysAfterAppend(k, Typed(digits), [g]);
    assert k.buffer + Chars(digits) == Chars(digits);
    KeysAfterOne(k.(buffer := Chars(digits)), g);
    GoAfterDigits(k, n);
  }

  lemma {:induction false} KeysAfterOne(k: Keys, e: KeyEvent)
    ensures KeysAfter(k, [e]) == KeyStep(k, e).keys
  {
    assert [e][1..] == [];
  }

  /** "g" after the digits of n reads them back as n */
  lemma {:induction false} GoAfterDigits(k: Keys, n: nat)
    ensures KeyStep(k.(buffer := Chars(IntToString(n))), KeyEvent("g", None)).keys == k.(tracker := T.GoTo(k.tracker, n - 1), buffer := [])
  {
    ConcatChars(IntToString(n));
    ToIIntToString(n);
  }

  /** "g" with nothing typed goes to slide 0, which is no slide, and so changes nothing */
  lemma {:induction false} GoWithoutNumber(k: Keys)
    requires k.buffer == []
    ensures KeyStep(k, KeyEvent("g", None)) == Effect(k, [])
  {
    assert ToI(Concat([])) == 0;
  }

  /** "navigates to a specific slide": "1", "3", "g" on fifteen slides shows slide 13 */
  lemma {:induction false} ThirteenOfFifteen(k: Keys)
    requires k.buffer == [] && k.tracker == T.For(15)
    ensures KeysAfter(k, [KeyEvent("1", None), KeyEvent("3", None), KeyEvent("g", None)]).tracker == T.Tracker(12, 15)
  {
    assert IntToString(13) == "13" by {
      assert NatToString(13) == NatToString(1) + [DigitChar(3)];
    }
    assert Typed("13") + [KeyEvent("g", None)] == [KeyEvent("1", None), KeyEvent("3", None), KeyEvent("g", None)];
    GoToTyped(k, 13);
  }
}
