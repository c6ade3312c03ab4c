/** `src/routes.ts`: the application's paths. */
module Routes {
  import opened StringHelpers

  datatype AppRoute =
    | Approvals | MakeOtcOrder | MakeLimitOrder | MyOtcOrders | MyLimitOrders
    | OtcOrder | LimitOrder | Swap
  {
    /** The enum's string value, the path segment. */
    function Segment(): (r: string)
      ensures r != [] && '/' !in r
    {
      match this
      case Approvals => "approvals"
      case MakeOtcOrder => "make-otc-order"
      case MakeLimitOrder => "make-limit-order"
      case MyOtcOrders => "my-otc-orders"
      case MyLimitOrders => "my-limit-orders"
      case OtcOrder => "otc-order"
      case LimitOrder => "limit-order"
      case Swap => "swap"
    }
  }

  /** The routes shown without a navigation bar. */
  const StandAloneRoutes: seq<AppRoute> := [Approvals, OtcOrder, LimitOrder]

  /** Exactly the approvals, order and limit-order pages stand alone. */
  lemma StandAloneRoutesAre(route: AppRoute)
    ensures route in StandAloneRoutes <==> route.Segment() in {"approvals", "otc-order", "limit-order"}
  {
  }

  /** The builders that take no argument: "/" and the segment. */
  function SimpleRoute(route: AppRoute): (r: string)
    requires route !in {OtcOrder, LimitOrder}
    ensures r == "/" + route.Segment()
    ensures |r| >= 2 && r[0] == '/' && '/' !in r[1..]
  {
    "/" + route.Segment()
  }

  /** `routes.otcOrder`. */
  function OtcOrderRoute(compressedOrder: string): (r: string)
    ensures r == "/otc-order/" + compressedOrder
  {
    "/" + OtcOrder.Segment() + "/" + compressedOrder
  }

  /** `routes.cancelOtcOrder`. */
  function CancelOtcOrderRoute(compressedOrder: string): (r: string)
    ensures r == OtcOrderRoute(compressedOrder) + "/cancel"
  {
    "/" + OtcOrder.Segment() + "/" + compressedOrder + "/cancel"
  }

  /** `routes.limitOrder`. */
  function LimitOrderRoute(senderWallet: string, senderToken: string, signerToken: string, chainId: nat): (r: string)
    ensures r == "/limit-order/" + senderWallet + "/" + senderToken + "/" + signerToken + "/" + NatToString(chainId)
  {
    "/" + LimitOrder.Segment() + "/" + senderWallet + "/" + senderToken + "/" + signerToken + "/" + NatToString(chainId)
  }

  /** The parameter a path under "/otc-order/" carries: the way back from
    * `OtcOrderRoute`. */
  function OtcOrderParameter(path: string): (r: string)
  {
    var prefix := "/" + OtcOrder.Segment() + "/";
    if |path| >= |prefix| && path[..|prefix|] == prefix then path[|prefix|..] else ""
  }

  /** The order page path gives back the compressed order it was built from, so
    * different orders get different pages. */
  lemma OtcOrderRouteRoundTrip(compressedOrder: string)
    ensures OtcOrderParameter(OtcOrderRoute(compressedOrder)) == compressedOrder
  {
    var prefix := "/" + OtcOrder.Segment() + "/";
    assert OtcOrderRoute(compressedOrder) == prefix + compressedOrder;
    assert (prefix + compressedOrder)[..|prefix|] == prefix;
    assert (prefix + compressedOrder)[|prefix|..] == compressedOrder;
  }

  /** The cancel page is the order page with "/cancel" appended. */
  lemma CancelIsUnderOtcOrder(compressedOrder: string)
    ensures CancelOtcOrderRoute(compressedOrder) == OtcOrderRoute(compressedOrder) + "/cancel"
  {
  }

  /** Route builders for distinct pages never give the same path. */
  lemma SegmentsDistinct(a: AppRoute, b: AppRoute)
    requires a != b
    ensures a.Segment() != b.Segment()
  {
  }

  /** The last segment of a limit-order path reads back as the chain id. */
  lemma LimitOrderRouteEndsWithChain(senderWallet: string, senderToken: string, signerToken: string, chainId: nat)
    ensures var path := LimitOrderRoute(senderWallet, senderToken, signerToken, chainId);
      var tail := NatToString(chainId);
      |path| > |tail| && path[|path| - |tail|..] == tail && path[|path| - |tail| - 1] == '/' &&
      DecimalValue(tail) == chainId
  {
    var path := LimitOrderRoute(senderWallet, senderToken, signerToken, chainId);
    var tail := NatToString(chainId);
    var head := "/" + LimitOrder.Segment() + "/" + senderWallet + "/" + senderToken + "/" + signerToken + "/";
    assert path == head + tail;
    assert path[|path| - |tail|..] == tail;
    assert path[|path| - |tail| - 1] == head[|head| - 1];
    NatToStringRoundTrip(chainId);
  }
}
