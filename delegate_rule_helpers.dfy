/** `src/entities/DelegateRule/DelegateRuleHelpers.ts`: recognising delegate rules
  * and their events, matching events to submitted transactions, and keeping the
  * latest rule per token pair. */
module DelegateRuleHelpers {
  import opened Wrappers
  import opened Entities
  import opened StringHelpers
  import opened Seqs
  import opened FullOrderHelpers
  import opened OrderERC20Helpers

  /** The property test of `isDelegateRule` on an object. */
  predicate IsDelegateRule(o: Order)
  {
    {SenderWallet, SenderToken, SignerToken} <= o.fields
  }

  /** `isDelegateRule` on any value. It has no `null` guard, so `null` makes the
    * `in` operator throw: `None` is that TypeError. */
  function IsDelegateRuleValue(v: JsValue): (r: Option<bool>)
    ensures r.None? <==> v.Null?
    ensures r == Some(true) <==> v.Obj? && IsDelegateRule(v.obj)
  {
    match v
    case Null => None
    case Primitive => Some(false)
    case Obj(o) => Some(IsDelegateRule(o))
  }

  /** The three shapes by the fields each declares. */
  predicate IsFullOrderShape(o: Order) { o.fields == FullOrderFieldSet }
  predicate IsFullOrderERC20Shape(o: Order) { o.fields == FullOrderERC20FieldSet }
  predicate IsDelegateRuleShape(o: Order) { o.fields == DelegateRuleFieldSet }

  /** The classifiers are not exclusive: an ERC-20 order also passes the
    * delegate-rule test, so callers must try `isFullOrderERC20` first. */
  lemma ShapeClassification(o: Order)
    ensures IsFullOrderShape(o) ==>
      IsFullOrder(o) && !IsFullOrderERC20(o) && !IsOrderERC20(o) && !IsDelegateRule(o)
    ensures IsFullOrderERC20Shape(o) ==>
      !IsFullOrder(o) && IsFullOrderERC20(o) && IsOrderERC20(o) && IsDelegateRule(o)
    ensures IsDelegateRuleShape(o) ==>
      !IsFullOrder(o) && !IsFullOrderERC20(o) && !IsOrderERC20(o) && IsDelegateRule(o)
  {
  }

  predicate IsDelegateSetRuleEvent(e: TransactionEvent)
  {
    e.name == Some("SetRule")
  }

  predicate IsUnsetRuleEvent(e: TransactionEvent)
  {
    e.name == Some("UnsetRule")
  }

  predicate IsDelegatedSwapEvent(e: TransactionEvent)
  {
    e.name == Some("DelegatedSwapFor")
  }

  /** At most one event predicate holds, and none holds for an event without a name. */
  lemma EventPredicatesExclusive(e: TransactionEvent)
    ensures !(IsDelegateSetRuleEvent(e) && IsUnsetRuleEvent(e))
    ensures !(IsDelegateSetRuleEvent(e) && IsDelegatedSwapEvent(e))
    ensures !(IsUnsetRuleEvent(e) && IsDelegatedSwapEvent(e))
    ensures e.name.None? ==> !IsDelegateSetRuleEvent(e) && !IsUnsetRuleEvent(e) && !IsDelegatedSwapEvent(e)
  {
  }

  /** `findMatchingDelegateSetRuleTransaction`: addresses case-insensitively,
    * amounts, expiry and chain exactly. */
  predicate MatchesSetRuleTransaction(t: SubmittedTransaction, e: TransactionEvent)
    requires t.SetRuleTx?
  {
    CompareAddresses(t.rule.senderWallet, e.senderWallet) &&
    CompareAddresses(t.rule.senderToken, e.senderToken) &&
    t.rule.senderAmount == e.senderAmount &&
    CompareAddresses(t.rule.signerToken, e.signerToken) &&
    t.rule.signerAmount == e.signerAmount &&
    t.rule.expiry == e.expiry &&
    t.rule.chainId == e.chainId
  }

  /** `findMatchingUnsetRuleTransaction`. */
  predicate MatchesUnsetRuleTransaction(t: SubmittedTransaction, e: TransactionEvent)
    requires t.UnsetRuleTx?
  {
    CompareAddresses(t.unsetSenderWallet, e.senderWallet) &&
    CompareAddresses(t.unsetSenderToken.address, e.senderToken) &&
    CompareAddresses(t.unsetSignerToken.address, e.signerToken) &&
    t.unsetChainId == e.chainId
  }

  /** `findMatchingDelegatedSwapTransaction`. */
  predicate MatchesDelegatedSwapTransaction(t: SubmittedTransaction, e: TransactionEvent)
    requires t.DelegatedSwapTx?
  {
    CompareAddresses(t.delegateRule.senderWallet, e.senderWallet) &&
    CompareAddresses(t.order.signerWallet, e.signerWallet) &&
    t.order.nonce == e.nonce &&
    t.delegateRule.chainId == e.chainId
  }

  /** An event whose addresses are written in another case matches the same
    * transactions. */
  lemma MatchersIgnoreAddressCase(t: SubmittedTransaction, e: TransactionEvent)
    ensures t.SetRuleTx? ==> (MatchesSetRuleTransaction(t, e) <==>
      MatchesSetRuleTransaction(t, e.(senderWallet := ToLower(e.senderWallet),
        senderToken := ToLower(e.senderToken), signerToken := ToLower(e.signerToken))))
    ensures t.UnsetRuleTx? ==> (MatchesUnsetRuleTransaction(t, e) <==>
      MatchesUnsetRuleTransaction(t, e.(senderWallet := ToLower(e.senderWallet),
        senderToken := ToLower(e.senderToken), signerToken := ToLower(e.signerToken))))
    ensures t.DelegatedSwapTx? ==> (MatchesDelegatedSwapTransaction(t, e) <==>
      MatchesDelegatedSwapTransaction(t, e.(senderWallet := ToLower(e.senderWallet),
        signerWallet := ToLower(e.signerWallet))))
  {
    ToLowerIdempotent(e.senderWallet);
    ToLowerIdempotent(e.senderToken);
    ToLowerIdempotent(e.signerToken);
    ToLowerIdempotent(e.signerWallet);
  }

  /** The key a rule is de-duplicated by: its sender wallet and token pair, exactly
    * as written. */
  function RuleKey(rule: Order): string
  {
    rule.senderWallet + "-" + rule.senderToken + "-" + rule.signerToken
  }

  /** The rule `getUniqueDelegateRules` keeps per key: the latest in the list. */
  ghost function LastWithKey(rules: seq<Order>, k: string): Order
    requires k in KeysOf(rules, RuleKey)
  {
    var last := rules[|rules| - 1];
    if RuleKey(last) == k then last
    else
      assert k in KeysOf(rules[..|rules| - 1], RuleKey) by {
        var i :| 0 <= i < |rules| && RuleKey(rules[i]) == k;
        assert rules[..|rules| - 1][i] == rules[i];
      }
      LastWithKey(rules[..|rules| - 1], k)
  }

  lemma {:induction false} KeysOfReverse(rules: seq<Order>)
    ensures KeysOf(Reverse(rules), RuleKey) == KeysOf(rules, RuleKey)
  {
    var rev := Reverse(rules);
    forall k | k in KeysOf(rev, RuleKey) ensures k in KeysOf(rules, RuleKey) {
      var i :| 0 <= i < |rev| && RuleKey(rev[i]) == k;
      ReverseAt(rules, i);
    }
    forall k | k in KeysOf(rules, RuleKey) ensures k in KeysOf(rev, RuleKey) {
      var i :| 0 <= i < |rules| && RuleKey(rules[i]) == k;
      ReverseAt(rules, |rules| - 1 - i);
    }
  }

  lemma {:induction false} FirstOfReverseIsLast(rules: seq<Order>, k: string)
    requires k in KeysOf(rules, RuleKey)
    ensures k in KeysOf(Reverse(rules), RuleKey)
    ensures FirstWithKey(Reverse(rules), RuleKey, k) == LastWithKey(rules, k)
  {
    KeysOfReverse(rules);
    var rev := Reverse(rules);
    var init := rules[..|rules| - 1];
    ReverseInit(rules);
    assert rev[0] == rules[|rules| - 1];
    if RuleKey(rules[|rules| - 1]) != k {
      assert k in KeysOf(init, RuleKey) by {
        var i :| 0 <= i < |rules| && RuleKey(rules[i]) == k;
        assert init[i] == rules[i];
      }
      FirstOfReverseIsLast(init, k);
      assert rev[1..] == Reverse(init);
    }
  }

  /** What `getUniqueDelegateRules` computes: the rules walked from the end,
    * keeping the first seen per key, so the values come out in key-insertion
    * order, latest rule first. */
  function UniqueDelegateRulesSpec(rules: seq<Order>): seq<Order>
  {
    KeepFirst(Reverse(rules), RuleKey)
  }

  /** One rule per key present in the input, each the latest rule with that key,
    * and as many rules as there are distinct keys. */
  lemma UniqueDelegateRulesProperties(rules: seq<Order>)
    ensures IsSubsequence(UniqueDelegateRulesSpec(rules), Reverse(rules))
    ensures KeysOf(UniqueDelegateRulesSpec(rules), RuleKey) == KeysOf(rules, RuleKey)
    ensures |UniqueDelegateRulesSpec(rules)| == |KeysOf(rules, RuleKey)|
    ensures forall i, j :: 0 <= i < j < |UniqueDelegateRulesSpec(rules)| ==>
      RuleKey(UniqueDelegateRulesSpec(rules)[i]) != RuleKey(UniqueDelegateRulesSpec(rules)[j])
    ensures forall x :: x in UniqueDelegateRulesSpec(rules) ==>
      RuleKey(x) in KeysOf(rules, RuleKey) && x == LastWithKey(rules, RuleKey(x))
  {
    var rev := Reverse(rules);
    KeepFirstIsSubsequence(rev, RuleKey);
    KeepFirstSpec(rev, RuleKey);
    KeepFirstLength(rev, RuleKey);
    KeysOfReverse(rules);
    forall x | x in UniqueDelegateRulesSpec(rules)
      ensures RuleKey(x) in KeysOf(rules, RuleKey) && x == LastWithKey(rules, RuleKey(x))
    {
      FirstOfReverseIsLast(rules, RuleKey(x));
    }
  }

  /** `getUniqueDelegateRules` (DelegateRuleHelpers.ts:93-108): the reduce walks
    * the indices forward and reads the rule at the mirrored index, filling the
    * accumulator object in place; `inserted` records the order in which keys were
    * added, which is the order `Object.values` returns them in. */
  method GetUniqueDelegateRules(rules: seq<Order>) returns (result: seq<Order>)
    ensures result == UniqueDelegateRulesSpec(rules)
  {
    var acc: map<string, Order> := map[];
    var inserted: seq<Order> := [];
    ghost var rev := Reverse(rules);
    var index := 0;
    while index < |rules|
      invariant 0 <= index <= |rules|
      invariant inserted == KeepFirst(rev[..index], RuleKey)
      invariant acc.Keys == KeysOf(rev[..index], RuleKey)
    {
      var rule := rules[|rules| - index - 1];
      var key := RuleKey(rule);
      ReverseAt(rules, index);
      KeepFirstPrefixStep(rev, index, RuleKey);
      if key !in acc {
        acc := acc[key := rule];
        inserted := inserted + [rule];
      }
      index := index + 1;
    }
    assert rev[..|rules|] == rev;
    result := inserted;
  }
}
