/**
 * The buy-order accumulator: a trade history and a price lookup folded into
 * one {amount, spent, value} record per bought symbol.
 */
module Holdings {

  import opened Results
  import opened Numbers
  import opened Text
  import opened Prices

  /** A historical trade, with its numeric fields already through `float()`. */
  datatype Order = Order(kind: string, symbol: string, amount: Decimal, price: Decimal)

  /** The running record of one symbol. */
  datatype Holding = Holding(amount: real, spent: real, value: real)

  /**
   * The holding summary: a Python dict, so its keys in insertion order as
   * well as the record of each key.
   */
  datatype Summary = Summary(keys: seq<string>, holdings: map<string, Holding>)

  const Zero := Holding(0.0, 0.0, 0.0)

  const Empty := Summary([], map[])

  /** The keys list has no repeats and lists exactly the dict's keys. */
  ghost predicate WellFormed(s: Summary) {
    && (forall i, j :: 0 <= i < j < |s.keys| ==> s.keys[i] != s.keys[j])
    && (forall k :: k in s.holdings <==> k in s.keys)
  }

  /** An order that changes the summary: a Buy whose upper-cased symbol is not a GUSD pair. */
  predicate Qualifies(o: Order) {
    o.kind == "Buy" && !Contains(Upper(o.symbol), "GUSD")
  }

  /** A qualifying order can be folded in: both fields parse and its symbol has a price. */
  predicate Priceable(o: Order, prices: PriceMap) {
    o.amount.Parsed? && o.price.Parsed? && Upper(o.symbol) in prices
  }

  /**
   * The cost an order adds to `spent`: price times amount, rounded to the
   * cent by `round2` (Python's `round(_, 2)`, passed in so that nothing below
   * depends on how it rounds).
   */
  function Cost(o: Order, round2: real -> real): real
    requires o.amount.Parsed? && o.price.Parsed?
  {
    round2(o.price.v * o.amount.v)
  }

  /**
   * One pass of the loop body: skip unless qualifying, otherwise add the
   * amount and the rounded cost to the symbol's record (created at zero the
   * first time) and recompute its value from the new amount.
   */
  function AddOrder(s: Summary, o: Order, prices: PriceMap, round2: real -> real): (r: Result<Summary>)
    ensures !Qualifies(o) ==> r == Ok(s)
    ensures Qualifies(o) ==> (r.Ok? <==> Priceable(o, prices))
    ensures r.Err? ==> (r.error == ParseError <==> !o.amount.Parsed? || !o.price.Parsed?)
    ensures r.Ok? && Qualifies(o) ==>
      var sym := Upper(o.symbol);
      var before := if sym in s.holdings then s.holdings[sym] else Zero;
      && r.value.holdings.Keys == s.holdings.Keys + {sym}
      && r.value.keys == (if sym in s.holdings then s.keys else s.keys + [sym])
      && (forall k :: k in s.holdings && k != sym ==> r.value.holdings[k] == s.holdings[k])
      && r.value.holdings[sym].amount == before.amount + o.amount.v
      && r.value.holdings[sym].spent == before.spent + Cost(o, round2)
      && r.value.holdings[sym].value == r.value.holdings[sym].amount * prices[sym]
  {
    if !Qualifies(o) then Ok(s)
    else if !o.amount.Parsed? || !o.price.Parsed? then Err(ParseError)
    else
      var sym := Upper(o.symbol);
      if sym !in prices then Err(MissingPrice(sym))
      else
        var before := if sym in s.holdings then s.holdings[sym] else Zero;
        var amount := before.amount + o.amount.v;
        var keys := if sym in s.holdings then s.keys else s.keys + [sym];
        Ok(Summary(keys, s.holdings[sym := Holding(amount, before.spent + Cost(o, round2), amount * prices[sym])]))
  }

  /** The summary after the whole history, or the error of the first order that fails. */
  function Accumulate(orders: seq<Order>, prices: PriceMap, round2: real -> real): Result<Summary>
    decreases |orders|
  {
    if |orders| == 0 then Ok(Empty)
    else
      match Accumulate(orders[..|orders| - 1], prices, round2)
      case Err(e) => Err(e)
      case Ok(s) => AddOrder(s, orders[|orders| - 1], prices, round2)
  }

  /** The accumulation loop of `get_crypto_holding_summary`. */
  method HoldingSummary(orders: seq<Order>, prices: PriceMap, round2: real -> real) returns (r: Result<Summary>)
    ensures r == Accumulate(orders, prices, round2)
  {
    var keys: seq<string> := [];
    var buyOrderTokens: map<string, Holding> := map[];
    var i := 0;
    while i < |orders|
      invariant i <= |orders|
      invariant Accumulate(orders[..i], prices, round2) == Ok(Summary(keys, buyOrderTokens))
    {
      var order := orders[i];
      assert orders[..i + 1][..i] == orders[..i];
      ghost var before := Summary(keys, buyOrderTokens);
      if order.kind == "Buy" {
        var symbol := Upper(order.symbol);
        if !Contains(symbol, "GUSD") {
          if !order.amount.Parsed? || !order.price.Parsed? {
            FailureSticks(orders, prices, round2, i + 1);
            return Err(ParseError);
          }
          var amount := order.amount.v;
          var spent := Cost(order, round2);
          if symbol !in buyOrderTokens {
            buyOrderTokens := buyOrderTokens[symbol := Zero];
            keys := keys + [symbol];
          }
          var h := buyOrderTokens[symbol];
          ghost var start := if symbol in before.holdings then before.holdings[symbol] else Zero;
          h := h.(amount := h.amount + amount);
          h := h.(spent := h.spent + spent);
          assert h == Holding(start.amount + order.amount.v, start.spent + Cost(order, round2), start.value);
          if symbol !in prices {
            FailureSticks(orders, prices, round2, i + 1);
            return Err(MissingPrice(symbol));
          }
          h := h.(value := h.amount * prices[symbol]);
          buyOrderTokens := buyOrderTokens[symbol := h];
          ghost var expected := AddOrder(before, order, prices, round2);
          assert expected.value.holdings[symbol] == h;
          assert expected.value.holdings == buyOrderTokens;
          assert AddOrder(before, order, prices, round2) == Ok(Summary(keys, buyOrderTokens));
        }
      }
      i := i + 1;
    }
    assert orders[..i] == orders;
    r := Ok(Summary(keys, buyOrderTokens));
  }

  /** Once a prefix of the history has failed, the whole history fails the same way. */
  lemma {:induction false} FailureSticks(orders: seq<Order>, prices: PriceMap, round2: real -> real, k: nat)
    requires k <= |orders| && Accumulate(orders[..k], prices, round2).Err?
    ensures Accumulate(orders, prices, round2) == Accumulate(orders[..k], prices, round2)
    decreases |orders|
  {
    if k < |orders| {
      var init := orders[..|orders| - 1];
      assert init[..k] == orders[..k];
      FailureSticks(init, prices, round2, k);
    } else {
      assert orders[..k] == orders;
    }
  }

  /** `get_crypto_holding_summary`: convert the feed first, then fold the history. */
  method CryptoHoldingSummary(quotes: seq<Quote>, orders: seq<Order>) returns (r: Result<Summary>)
    ensures PriceTable(quotes).Err? ==> r == Err(PriceTable(quotes).error)
    ensures PriceTable(quotes).Ok? ==> r == Accumulate(orders, PriceTable(quotes).value, Round2)
  {
    var priceDict := ConvertPriceList(quotes);
    if priceDict.Err? {
      return Err(priceDict.error);
    }
    r := HoldingSummary(orders, priceDict.value, Round2);
  }

  // ---------------------------------------------------------------------
  // Reference definitions: what the summary should hold
  // ---------------------------------------------------------------------

  /** The upper-cased symbols of the qualifying orders, in history order. */
  function BoughtSymbols(orders: seq<Order>): (r: seq<string>)
    decreases |orders|
  {
    if |orders| == 0 then []
    else
      var last := orders[|orders| - 1];
      BoughtSymbols(orders[..|orders| - 1]) + (if Qualifies(last) then [Upper(last.symbol)] else [])
  }

  /** The first occurrence of each element, in order. */
  function Dedup(xs: seq<string>): seq<string>
    decreases |xs|
  {
    if |xs| == 0 then []
    else
      var d := Dedup(xs[..|xs| - 1]);
      if xs[|xs| - 1] in d then d else d + [xs[|xs| - 1]]
  }

  /** Total units bought of symbol k by the qualifying orders. */
  function AmountBought(orders: seq<Order>, k: string): real
    decreases |orders|
  {
    if |orders| == 0 then 0.0
    else
      var o := orders[|orders| - 1];
      AmountBought(orders[..|orders| - 1], k) + BoughtAmount(o, k)
  }

  /** What one order adds to the amount bought of k. */
  function BoughtAmount(o: Order, k: string): real {
    if Buys(o, k) && o.amount.Parsed? then o.amount.v else 0.0
  }

  /** What one order adds to the money spent on k: its own rounded cost. */
  function BoughtCost(o: Order, k: string, round2: real -> real): real {
    if Buys(o, k) && o.amount.Parsed? && o.price.Parsed? then Cost(o, round2) else 0.0
  }

  /** Sum, over the qualifying orders for k, of each order's own rounded cost. */
  function SpentOn(orders: seq<Order>, k: string, round2: real -> real): real
    decreases |orders|
  {
    if |orders| == 0 then 0.0
    else
      var o := orders[|orders| - 1];
      SpentOn(orders[..|orders| - 1], k, round2) + BoughtCost(o, k, round2)
  }

  // ---------------------------------------------------------------------
  // Properties of the accumulation
  // ---------------------------------------------------------------------

  /** A history without a qualifying order (in particular, without a Buy) yields an empty summary. */
  lemma {:induction false} NothingBoughtEmpty(orders: seq<Order>, prices: PriceMap, round2: real -> real)
    requires forall i :: 0 <= i < |orders| ==> !Qualifies(orders[i])
    ensures Accumulate(orders, prices, round2) == Ok(Empty)
    decreases |orders|
  {
    if |orders| > 0 {
      var init := orders[..|orders| - 1];
      assert forall i :: 0 <= i < |init| ==> init[i] == orders[i];
      NothingBoughtEmpty(init, prices, round2);
    }
  }

  /** An order that does not qualify can be removed from anywhere in the history. */
  lemma {:induction false} SkippedOrderIrrelevant(pre: seq<Order>, o: Order, post: seq<Order>, prices: PriceMap, round2: real -> real)
    requires !Qualifies(o)
    ensures Accumulate(pre + [o] + post, prices, round2) == Accumulate(pre + post, prices, round2)
    decreases |post|
  {
    var with := pre + [o] + post;
    var without := pre + post;
    if |post| == 0 {
      assert with[..|with| - 1] == pre;
      assert without == pre;
    } else {
      var init := post[..|post| - 1];
      assert with[..|with| - 1] == pre + [o] + init;
      assert without[..|without| - 1] == pre + init;
      assert with[|with| - 1] == without[|without| - 1];
      SkippedOrderIrrelevant(pre, o, init, prices, round2);
    }
  }

  /**
   * The run succeeds exactly when every qualifying order parses and has a
   * price: a Buy for an unquoted symbol is fatal, never skipped.
   */
  lemma {:induction false} AccumulateSucceeds(orders: seq<Order>, prices: PriceMap, round2: real -> real)
    ensures Accumulate(orders, prices, round2).Ok? <==>
      forall i :: 0 <= i < |orders| && Qualifies(orders[i]) ==> Priceable(orders[i], prices)
    decreases |orders|
  {
    if |orders| > 0 {
      var init := orders[..|orders| - 1];
      AccumulateSucceeds(init, prices, round2);
      assert forall i :: 0 <= i < |init| ==> init[i] == orders[i];
    }
  }

  /** The error names a real culprit: an unparsable field, or a bought symbol without a price. */
  lemma {:induction false} AccumulateFailure(orders: seq<Order>, prices: PriceMap, round2: real -> real)
    requires Accumulate(orders, prices, round2).Err?
    ensures match Accumulate(orders, prices, round2).error
      case ParseError =>
        exists i :: 0 <= i < |orders| && Qualifies(orders[i]) && !(orders[i].amount.Parsed? && orders[i].price.Parsed?)
      case MissingPrice(k) =>
        && k !in prices
        && exists i :: 0 <= i < |orders| && Qualifies(orders[i]) && Upper(orders[i].symbol) == k
    decreases |orders|
  {
    var n := |orders| - 1;
    var init := orders[..n];
    if Accumulate(init, prices, round2).Err? {
      AccumulateFailure(init, prices, round2);
      match Accumulate(orders, prices, round2).error
      case ParseError =>
        var i :| 0 <= i < |init| && Qualifies(init[i]) && !(init[i].amount.Parsed? && init[i].price.Parsed?);
        assert orders[i] == init[i];
      case MissingPrice(k) =>
        var i :| 0 <= i < |init| && Qualifies(init[i]) && Upper(init[i].symbol) == k;
        assert orders[i] == init[i];
    }
  }

  /** A qualifying history order whose symbol has no price entry makes the whole run fail. */
  lemma MissingPriceIsFatal(orders: seq<Order>, i: nat, prices: PriceMap, round2: real -> real)
    requires i < |orders| && Qualifies(orders[i]) && Upper(orders[i].symbol) !in prices
    ensures Accumulate(orders, prices, round2).Err?
  {
    AccumulateSucceeds(orders, prices, round2);
  }

  lemma {:induction false} DedupFacts(xs: seq<string>)
    ensures forall x :: x in Dedup(xs) <==> x in xs
    ensures forall i, j :: 0 <= i < j < |Dedup(xs)| ==> Dedup(xs)[i] != Dedup(xs)[j]
    decreases |xs|
  {
    if |xs| > 0 {
      var init := xs[..|xs| - 1];
      DedupFacts(init);
      assert xs == init + [xs[|xs| - 1]];
    }
  }

  /** Order o is a qualifying purchase of symbol k. */
  predicate Buys(o: Order, k: string) {
    Qualifies(o) && Upper(o.symbol) == k
  }

  lemma {:induction false} BoughtSymbolsMembers(orders: seq<Order>, k: string)
    ensures k in BoughtSymbols(orders) <==> exists i :: 0 <= i < |orders| && Buys(orders[i], k)
    decreases |orders|
  {
    if |orders| > 0 {
      var init := orders[..|orders| - 1];
      var o := orders[|orders| - 1];
      BoughtSymbolsMembers(init, k);
      assert BoughtSymbols(orders) == BoughtSymbols(init) + (if Qualifies(o) then [Upper(o.symbol)] else []);
      if exists i :: 0 <= i < |orders| && Buys(orders[i], k) {
        var i :| 0 <= i < |orders| && Buys(orders[i], k);
        if i < |init| { assert Buys(init[i], k); }
      }
      if exists i :: 0 <= i < |init| && Buys(init[i], k) {
        var i :| 0 <= i < |init| && Buys(init[i], k);
        assert Buys(orders[i], k);
      }
    }
  }

  /**
   * The summary is a proper dict, and its keys are the bought symbols in
   * the order in which each was first bought.
   */
  lemma {:induction false} SummaryKeys(orders: seq<Order>, prices: PriceMap, round2: real -> real)
    requires Accumulate(orders, prices, round2).Ok?
    ensures WellFormed(Accumulate(orders, prices, round2).value)
    ensures Accumulate(orders, prices, round2).value.keys == Dedup(BoughtSymbols(orders))
    decreases |orders|
  {
    if |orders| > 0 {
      var init := orders[..|orders| - 1];
      var o := orders[|orders| - 1];
      SummaryKeys(init, prices, round2);
      var bought := BoughtSymbols(init);
      DedupFacts(bought);
      var s0 := Accumulate(init, prices, round2).value;
      if Qualifies(o) {
        var sym := Upper(o.symbol);
        var xs := bought + [sym];
        assert BoughtSymbols(orders) == xs;
        assert xs[..|xs| - 1] == bought;
        assert sym in s0.holdings <==> sym in Dedup(bought);
      } else {
        assert BoughtSymbols(orders) == bought;
      }
    }
  }

  /**
   * Every key is the upper-cased symbol of some qualifying Buy order (and every
   * such symbol is a key), so no key contains "GUSD".
   */
  lemma KeysAreBoughtSymbols(orders: seq<Order>, prices: PriceMap, round2: real -> real)
    requires Accumulate(orders, prices, round2).Ok?
    ensures forall k :: k in Accumulate(orders, prices, round2).value.holdings <==>
      exists i :: 0 <= i < |orders| && Buys(orders[i], k)
    ensures forall k :: k in Accumulate(orders, prices, round2).value.holdings ==> !Contains(k, "GUSD")
  {
    var s := Accumulate(orders, prices, round2).value;
    SummaryKeys(orders, prices, round2);
    DedupFacts(BoughtSymbols(orders));
    forall k ensures k in s.holdings <==> exists i :: 0 <= i < |orders| && Buys(orders[i], k) {
      BoughtSymbolsMembers(orders, k);
    }
  }

  /**
   * The record of symbol k: `amount` is the sum of the amounts bought,
   * `spent` the sum of the per-order rounded costs, `value` that amount at
   * k's price; when k is not a key, nothing was bought of it.
   */
  lemma {:induction false} SummaryRecordOf(orders: seq<Order>, prices: PriceMap, round2: real -> real, k: string)
    requires Accumulate(orders, prices, round2).Ok?
    ensures var s := Accumulate(orders, prices, round2).value;
      if k in s.holdings then
        && k in prices
        && s.holdings[k] == Holding(AmountBought(orders, k), SpentOn(orders, k, round2), AmountBought(orders, k) * prices[k])
      else AmountBought(orders, k) == 0.0 && SpentOn(orders, k, round2) == 0.0
    decreases |orders|
  {
    if |orders| > 0 {
      var init := orders[..|orders| - 1];
      var o := orders[|orders| - 1];
      var prior := Accumulate(init, prices, round2);
      assert prior.Ok?;
      assert Accumulate(orders, prices, round2) == AddOrder(prior.value, o, prices, round2);
      assert AmountBought(orders, k) == AmountBought(init, k) + BoughtAmount(o, k);
      assert SpentOn(orders, k, round2) == SpentOn(init, k, round2) + BoughtCost(o, k, round2);
      SummaryRecordOf(init, prices, round2, k);
      RecordStep(prior.value, o, prices, round2, k, AmountBought(init, k), SpentOn(init, k, round2));
    }
  }

  /** One order moves k's record from (amt, spent) by exactly what it adds to each sum. */
  lemma RecordStep(s0: Summary, o: Order, prices: PriceMap, round2: real -> real, k: string, amt: real, spent: real)
    requires AddOrder(s0, o, prices, round2).Ok?
    requires k in s0.holdings ==> k in prices && s0.holdings[k] == Holding(amt, spent, amt * prices[k])
    requires k !in s0.holdings ==> amt == 0.0 && spent == 0.0
    ensures var s := AddOrder(s0, o, prices, round2).value;
      var a := amt + BoughtAmount(o, k);
      var sp := spent + BoughtCost(o, k, round2);
      if k in s.holdings then k in prices && s.holdings[k] == Holding(a, sp, a * prices[k])
      else a == 0.0 && sp == 0.0
  {
  }
}
