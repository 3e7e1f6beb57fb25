/**
 * Slideck::Tracker: the immutable position in the deck. Every transition
 * returns the same tracker or a new one; none changes the total.
 */
module Tracker {

  /** The current slide (0-based) and the number of slides */
  datatype Tracker = Tracker(current: int, total: int)

  /** A position on an existing slide */
  predicate Valid(t: Tracker) {
    0 <= t.current < t.total
  }

  /** Tracker.for: the first slide of a deck of the given size */
  function For(total: int): (r: Tracker)
    ensures r.current == 0 && r.total == total
    ensures total > 0 ==> Valid(r)
  {
    Tracker(0, total)
  }

  /** Tracker#next: one slide on, unless already at or past the last */
  function Next(t: Tracker): (r: Tracker)
    ensures r.total == t.total
    ensures t.current >= t.total - 1 ==> r == t
    ensures t.current < t.total - 1 ==> r.current == t.current + 1
    ensures Valid(t) ==> Valid(r)
  {
    if t.current >= t.total - 1 then t else Tracker(t.current + 1, t.total)
  }

  /** Tracker#previous: one slide back, unless at the first */
  function Previous(t: Tracker): (r: Tracker)
    ensures r.total == t.total
    ensures t.current == 0 ==> r == t
    ensures t.current != 0 ==> r.current == t.current - 1
    ensures Valid(t) ==> Valid(r)
  {
    if t.current == 0 then t else Tracker(t.current - 1, t.total)
  }

  /** Tracker#first */
  function First(t: Tracker): (r: Tracker)
    ensures r.current == 0 && r.total == t.total
    ensures t.total > 0 ==> Valid(r)
  {
    Tracker(0, t.total)
  }

  /** Tracker#last: total - 1, which is -1 for an empty deck */
  function Last(t: Tracker): (r: Tracker)
    ensures r.current == t.total - 1 && r.total == t.total
    ensures Valid(r) <==> t.total > 0
  {
    Tracker(t.total - 1, t.total)
  }

  /** Tracker#go_to: jumps exactly when the slide number names a slide */
  function GoTo(t: Tracker, slide: int): (r: Tracker)
    ensures r.total == t.total
    ensures 0 <= slide <= t.total - 1 ==> r.current == slide
    ensures !(0 <= slide <= t.total - 1) ==> r == t
    ensures Valid(t) ==> Valid(r)
    ensures 0 <= slide <= t.total - 1 ==> Valid(r)
  {
    if slide < 0 || t.total - 1 < slide then t else Tracker(slide, t.total)
  }

  /**
   * Tracker#resize, which the presenter calls on reload and the tests
   * describe: a negative or unchanged total leaves the tracker alone;
   * otherwise the position is kept if it still names a slide and moves to
   * the last slide (or 0) if not.
   */
  function Resize(t: Tracker, total: int): (r: Tracker)
    ensures total < 0 || total == t.total ==> r == t
    ensures total >= 0 && total != t.total ==> r.total == total && r.current >= 0 && (total > 0 ==> Valid(r))
    ensures total >= 0 && total != t.total && 0 <= t.current < total ==> r.current == t.current
    ensures total > 0 && total != t.total && t.current >= total ==> r.current == total - 1
    ensures total >= 0 && total != t.total && (total == 0 || t.current < 0) ==> r.current == 0
  {
    if total < 0 || total == t.total then t
    else
      var current := if t.current < total - 1 then t.current else total - 1;
      Tracker(if current < 0 then 0 else current, total)
  }

  /** The position after a sequence of steps, each one of the transitions */
  datatype Step = NextStep | PreviousStep | FirstStep | LastStep | GoToStep(slide: int)

  function Apply(t: Tracker, s: Step): Tracker {
    match s
    case NextStep => Next(t)
    case PreviousStep => Previous(t)
    case FirstStep => First(t)
    case LastStep => Last(t)
    case GoToStep(n) => GoTo(t, n)
  }

  function Run(t: Tracker, steps: seq<Step>): Tracker
    decreases |steps|
  {
    if steps == [] then t else Run(Apply(t, steps[0]), steps[1..])
  }

  /** No sequence of transitions changes the total, and on a non-empty deck every one keeps the position on a slide */
  lemma {:induction false} RunKeepsTotal(t: Tracker, steps: seq<Step>)
    ensures Run(t, steps).total == t.total
    ensures Valid(t) ==> Valid(Run(t, steps))
    decreases |steps|
  {
    if steps != [] {
      RunKeepsTotal(Apply(t, steps[0]), steps[1..]);
    }
  }

  /** Stepping forward never passes the last slide */
  lemma {:induction false} NextSaturates(t: Tracker, n: nat)
    requires Valid(t)
    ensures Run(t, seq(n, _ => NextStep)).current == if t.current + n < t.total then t.current + n else t.total - 1
    decreases n
  {
    if n > 0 {
      var rest := seq(n - 1, _ => NextStep);
      assert seq(n, _ => NextStep) == [NextStep] + rest;
      assert ([NextStep] + rest)[1..] == rest;
      NextSaturates(Next(t), n - 1);
    }
  }

  /** Stepping back never passes the first slide */
  lemma {:induction false} PreviousSaturates(t: Tracker, n: nat)
    requires t.current >= 0
    ensures Run(t, seq(n, _ => PreviousStep)).current == if t.current >= n then t.current - n else 0
    decreases n
  {
    if n > 0 {
      var rest := seq(n - 1, _ => PreviousStep);
      assert seq(n, _ => PreviousStep) == [PreviousStep] + rest;
      assert ([PreviousStep] + rest)[1..] == rest;
      PreviousSaturates(Previous(t), n - 1);
    }
  }

  /** Next then Previous returns to the start, except at the last slide */
  lemma NextPrevious(t: Tracker)
    requires 0 <= t.current < t.total - 1
    ensures Previous(Next(t)) == t
  {
  }

  /** An empty deck stays at 0 under next and previous */
  lemma EmptyDeckStays(n: nat, m: nat)
    ensures Run(For(0), seq(n, _ => NextStep) + seq(m, _ => PreviousStep)) == For(0)
  {
    StaysAtZero(For(0), seq(n, _ => NextStep) + seq(m, _ => PreviousStep));
  }

  lemma {:induction false} StaysAtZero(t: Tracker, steps: seq<Step>)
    requires t == For(0)
    requires forall i :: 0 <= i < |steps| ==> steps[i] == NextStep || steps[i] == PreviousStep
    ensures Run(t, steps) == t
    decreases |steps|
  {
    if steps != [] {
      StaysAtZero(Apply(t, steps[0]), steps[1..]);
    }
  }
}
