/** The page-level state of the storefront component: the active category filter, the comparison
    selection and the booking wizard's step, each replaced by an event handler. */
module Storefront {
  import opened SeqUtil
  import opened Catalog
  import opened Comparison
  import opened Booking

  class Storefront {
    var filter: Filter
    var compareList: seq<string>
    var bookingStep: int

    /** What every handler keeps: a well-formed selection and a step of the wizard. */
    ghost predicate Valid()
      reads this
    {
      WellFormed(compareList) && IsStep(bookingStep)
    }

    /** The page opens on "All", with nothing selected, on the wizard's first step. */
    constructor ()
      ensures Valid()
      ensures filter == All && compareList == [] && bookingStep == InitialStep
    {
      filter := All;
      compareList := [];
      bookingStep := InitialStep;
    }

    /** The products the grid shows for the active filter. */
    function FilteredProducts(): (r: seq<Product>)
      reads this
      ensures forall p :: p in r <==> p in MockProducts && Matches(filter, p)
      ensures filter.All? ==> r == MockProducts
      ensures IsSubsequence(r, MockProducts)
    {
      if filter.All? then Filtered(filter, MockProducts)
      else
        InCategoryIsSubsequence(filter.category, MockProducts);
        Filtered(filter, MockProducts)
    }

    /** A category button replaces the filter and nothing else. */
    method SetFilter(f: Filter)
      requires Valid()
      modifies this
      ensures Valid()
      ensures filter == f && compareList == old(compareList) && bookingStep == old(bookingStep)
    {
      filter := f;
    }

    /** A card's compare button toggles its identifier in the selection and changes nothing else. */
    method ToggleCompare(id: string)
      requires Valid()
      modifies this
      ensures Valid()
      ensures compareList == Toggle(old(compareList), id)
      ensures old(id in compareList) ==> id !in compareList && IsSubsequence(compareList, old(compareList))
      ensures old(id !in compareList) ==> compareList != [] && compareList[|compareList| - 1] == id
      ensures filter == old(filter) && bookingStep == old(bookingStep)
    {
      ToggleKeepsWellFormed(compareList, id);
      compareList := Toggle(compareList, id);
    }

    /** A wizard button assigns its literal step; from a button on screen the move is one of
        1->2, 2->1, 2->3, 3->1. */
    method ClickWizard(b: WizardButton)
      requires Valid()
      modifies this
      ensures Valid()
      ensures bookingStep == Target(b)
      ensures old(Rendered(bookingStep, b)) ==> (old(bookingStep), bookingStep) in {(1, 2), (2, 1), (2, 3), (3, 1)}
      ensures filter == old(filter) && compareList == old(compareList)
    {
      TransitionsExactly(bookingStep, Target(b));
      bookingStep := Target(b);
    }

    /** The number of highlighted progress segments equals the step. */
    function HighlightedSegments(): (n: nat)
      reads this
      requires Valid()
      ensures n == bookingStep
    {
      ProgressMatchesStep(bookingStep);
      CountHighlighted(Segments(3), bookingStep)
    }
  }
}
