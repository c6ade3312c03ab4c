/** `src/entities/FullOrder/FullOrderHelpers.ts`: recognising a full order. */
module FullOrderHelpers {
  import opened Entities

  /** The property test of `isFullOrder` on an object. */
  predicate IsFullOrder(o: Order)
  {
    {Signer, Sender, AffiliateWallet, AffiliateAmount, V, R, S} <= o.fields
  }

  /** `isFullOrder` on any value: `null` and non-objects are never full orders. */
  predicate IsFullOrderValue(v: JsValue)
  {
    v.Obj? && IsFullOrder(v.obj)
  }

  lemma IsFullOrderValueGuards(v: JsValue)
    ensures v.Null? ==> !IsFullOrderValue(v)
    ensures v.Primitive? ==> !IsFullOrderValue(v)
    ensures IsFullOrderValue(v) <==> v.Obj? && {Signer, Sender, AffiliateWallet, AffiliateAmount, V, R, S} <= v.obj.fields
  {
  }
}
