/** The three-step booking wizard: a step index, four navigation buttons and a progress bar. */
module Booking {

  /** The steps the wizard shows: contact information, thermal profile, confirmation. */
  ghost predicate IsStep(step: int)
  {
    1 <= step <= 3
  }

  const InitialStep: int := 1

  /** The wizard's navigation buttons. */
  datatype WizardButton =
    | ConfigureDetails  // on step 1
    | Back              // on step 2
    | Finalize          // on step 2
    | ResetForm         // on step 3

  /** The buttons on screen at a step: each step's panel is rendered only when the step equals it,
      so a button is only ever on screen at a step of the wizard. */
  predicate Rendered(step: int, b: WizardButton)
    ensures Rendered(step, b) ==> IsStep(step)
  {
    match b
    case ConfigureDetails => step == 1
    case Back => step == 2
    case Finalize => step == 2
    case ResetForm => step == 3
  }

  /** The step a click moves to: each button's handler assigns a literal step, whatever the step
      was. The literal is a step of the wizard, and from a step where the button is on screen the
      move is one of 1->2, 2->1, 2->3, 3->1. */
  function Target(b: WizardButton): (next: int)
    ensures IsStep(next)
    ensures forall step :: Rendered(step, b) ==> (step, next) in {(1, 2), (2, 1), (2, 3), (3, 1)}
  {
    match b
    case ConfigureDetails => 2
    case Back => 1
    case Finalize => 3
    case ResetForm => 1
  }

  /** Every transition a rendered button offers, and no other, is one of 1->2, 2->1, 2->3, 3->1. */
  lemma TransitionsExactly(from: int, to: int)
    ensures (exists b :: Rendered(from, b) && Target(b) == to)
        <==> (from, to) in {(1, 2), (2, 1), (2, 3), (3, 1)}
  {
    if (from, to) == (1, 2) { assert Rendered(from, ConfigureDetails); }
    else if (from, to) == (2, 1) { assert Rendered(from, Back); }
    else if (from, to) == (2, 3) { assert Rendered(from, Finalize); }
    else if (from, to) == (3, 1) { assert Rendered(from, ResetForm); }
  }

  /** The step after a series of clicks, from the initial step. A button that is not on screen
      cannot be clicked, so such an entry of the series is no event and leaves the step alone. */
  function Run(clicks: seq<WizardButton>): (r: int)
    ensures IsStep(r)
    decreases |clicks|
  {
    if clicks == [] then InitialStep
    else
      var before := Run(clicks[..|clicks| - 1]);
      var b := clicks[|clicks| - 1];
      if Rendered(before, b) then Target(b) else before
  }

  /** Every step is reachable: the wizard is not stuck on a subset of its steps. */
  lemma EveryStepReachable()
    ensures Run([]) == 1
    ensures Run([ConfigureDetails]) == 2
    ensures Run([ConfigureDetails, Finalize]) == 3
    ensures Run([ConfigureDetails, Finalize, ResetForm]) == 1
  {
    assert [ConfigureDetails][..0] == [];
    assert [ConfigureDetails, Finalize][..1] == [ConfigureDetails];
    assert [ConfigureDetails, Finalize, ResetForm][..2] == [ConfigureDetails, Finalize];
  }

  /** The progress bar draws segments 1..n. */
  function Segments(n: nat): (r: seq<int>)
    ensures |r| == n && forall i :: 0 <= i < n ==> r[i] == i + 1
  {
    if n == 0 then [] else Segments(n - 1) + [n]
  }

  /** The number of segments highlighted at a step: those `s` with `step >= s`. */
  function CountHighlighted(segments: seq<int>, step: int): (n: nat)
    ensures n <= |segments|
    decreases |segments|
  {
    if segments == [] then 0
    else CountHighlighted(segments[..|segments| - 1], step)
         + (if step >= segments[|segments| - 1] then 1 else 0)
  }

  /** On a bar of n segments, `step` clamped to 0..n segments are highlighted. */
  lemma {:induction false} HighlightedIsClampedStep(n: nat, step: int)
    ensures CountHighlighted(Segments(n), step) == if step < 0 then 0 else if step > n then n else step
    decreases n
  {
    if n > 0 {
      assert Segments(n)[..n - 1] == Segments(n - 1);
      HighlightedIsClampedStep(n - 1, step);
    }
  }

  /** The three-segment bar highlights exactly as many segments as the current step number. */
  lemma ProgressMatchesStep(step: int)
    requires IsStep(step)
    ensures CountHighlighted(Segments(3), step) == step
  {
    HighlightedIsClampedStep(3, step);
  }
}
