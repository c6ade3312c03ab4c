/** `src/features/quotes/helpers/getPricingErrorWithHighestPriority.ts`: of the
  * errors the last-look and the RFQ pricing reported, the one to show. */
module PricingError {
  import opened Wrappers

  datatype PricingErrorType =
    | Unknown | NoServersFound | NoServerWalletFound | NoPricingFound
    | NoOrdersFound | OrdersExpired | BelowMinimumAmount | FormulaicPricingNotSupported

  /** `errorPriority`. */
  function ErrorPriority(e: PricingErrorType): (r: nat)
    ensures r <= 7
  {
    match e
    case Unknown => 0
    case NoServersFound => 1
    case NoServerWalletFound => 2
    case NoPricingFound => 3
    case NoOrdersFound => 4
    case OrdersExpired => 5
    case BelowMinimumAmount => 6
    case FormulaicPricingNotSupported => 7
  }

  /** Every error has its own priority. */
  lemma ErrorPriorityInjective(a: PricingErrorType, b: PricingErrorType)
    ensures ErrorPriority(a) == ErrorPriority(b) ==> a == b
  {
  }

  /** The rank of a reported error; no error ranks below every error. */
  function Rank(e: Option<PricingErrorType>): (r: int)
    ensures e.None? <==> r == -1
    ensures r >= -1
  {
    if e.Some? then ErrorPriority(e.value) else -1
  }

  /** `getPricingErrorWithHighestPriority`: the first error only when it ranks
    * strictly higher, the second otherwise. */
  function PricingErrorWithHighestPriority(first: Option<PricingErrorType>, second: Option<PricingErrorType>): (r: Option<PricingErrorType>)
    ensures r == first || r == second
    ensures r.None? <==> first.None? && second.None?
    ensures Rank(r) >= Rank(first) && Rank(r) >= Rank(second)
    ensures first != second && r == first ==> Rank(first) > Rank(second)
  {
    if Rank(first) > Rank(second) then first else second
  }

  /** The choice is the higher-ranked error whichever way round they come,
    * and agreeing inputs give that error. */
  lemma HighestPrioritySymmetric(a: Option<PricingErrorType>, b: Option<PricingErrorType>)
    ensures PricingErrorWithHighestPriority(a, b) == PricingErrorWithHighestPriority(b, a)
    ensures PricingErrorWithHighestPriority(a, a) == a
  {
    if a.Some? && b.Some? && Rank(a) == Rank(b) {
      ErrorPriorityInjective(a.value, b.value);
    }
  }
}
