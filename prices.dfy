/** The price snapshot normaliser: a price feed folded into a pair -> price lookup. */
module Prices {

  import opened Results

  /** One record of the price feed: a trading pair and its price field. */
  datatype Quote = Quote(pair: string, price: Decimal)

  type PriceMap = map<string, real>

  /**
   * The lookup built from the feed, record by record: a later record for a
   * pair overwrites an earlier one, and the first unparsable price aborts.
   */
  function PriceTable(quotes: seq<Quote>): Result<PriceMap>
    decreases |quotes|
  {
    if |quotes| == 0 then Ok(map[])
    else
      var last := quotes[|quotes| - 1];
      match PriceTable(quotes[..|quotes| - 1])
      case Err(e) => Err(e)
      case Ok(m) =>
        if last.price.Unparsable? then Err(ParseError) else Ok(m[last.pair := last.price.v])
  }

  /** Record i carries the last occurrence of its pair in the feed. */
  predicate IsLastFor(quotes: seq<Quote>, i: nat)
    requires i < |quotes|
  {
    forall j :: i < j < |quotes| ==> quotes[j].pair != quotes[i].pair
  }

  /** `convert_price_list_to_dict`. */
  method ConvertPriceList(quotes: seq<Quote>) returns (r: Result<PriceMap>)
    ensures r == PriceTable(quotes)
  {
    var priceDict: PriceMap := map[];
    var i := 0;
    while i < |quotes|
      invariant i <= |quotes|
      invariant PriceTable(quotes[..i]) == Ok(priceDict)
    {
      var group := quotes[i];
      assert quotes[..i + 1][..i] == quotes[..i];
      if group.price.Unparsable? {
        FailureSticks(quotes, i + 1);
        return Err(ParseError);
      }
      priceDict := priceDict[group.pair := group.price.v];
      i := i + 1;
    }
    assert quotes[..i] == quotes;
    r := Ok(priceDict);
  }

  /** Once a prefix of the feed has failed, the whole feed fails the same way. */
  lemma {:induction false} FailureSticks(quotes: seq<Quote>, k: nat)
    requires k <= |quotes| && PriceTable(quotes[..k]).Err?
    ensures PriceTable(quotes) == PriceTable(quotes[..k])
    decreases |quotes|
  {
    if k < |quotes| {
      var init := quotes[..|quotes| - 1];
      assert init[..k] == quotes[..k];
      FailureSticks(init, k);
    } else {
      assert quotes[..k] == quotes;
    }
  }

  /** The feed converts exactly when every price parses. */
  lemma {:induction false} PriceTableSucceeds(quotes: seq<Quote>)
    ensures PriceTable(quotes).Ok? <==> forall i :: 0 <= i < |quotes| ==> quotes[i].price.Parsed?
    decreases |quotes|
  {
    if |quotes| > 0 {
      var init := quotes[..|quotes| - 1];
      PriceTableSucceeds(init);
      assert forall i :: 0 <= i < |init| ==> init[i] == quotes[i];
    }
  }

  /** Some record of the feed is for pair k. */
  predicate Quoted(quotes: seq<Quote>, k: string) {
    exists i :: 0 <= i < |quotes| && quotes[i].pair == k
  }

  lemma QuotedExtend(quotes: seq<Quote>, k: string)
    requires |quotes| > 0
    ensures Quoted(quotes, k) <==> Quoted(quotes[..|quotes| - 1], k) || quotes[|quotes| - 1].pair == k
  {
    var init := quotes[..|quotes| - 1];
    if Quoted(quotes, k) {
      var i :| 0 <= i < |quotes| && quotes[i].pair == k;
      if i < |init| { assert init[i].pair == k; }
    }
    if Quoted(init, k) {
      var i :| 0 <= i < |init| && init[i].pair == k;
      assert quotes[i].pair == k;
    }
  }

  /** Every pair of the feed is a key of the lookup, and no other key exists. */
  lemma {:induction false} PriceTableKeys(quotes: seq<Quote>)
    requires PriceTable(quotes).Ok?
    ensures forall k :: k in PriceTable(quotes).value <==> Quoted(quotes, k)
    decreases |quotes|
  {
    if |quotes| > 0 {
      var init := quotes[..|quotes| - 1];
      PriceTableKeys(init);
      forall k ensures k in PriceTable(quotes).value <==> Quoted(quotes, k) {
        QuotedExtend(quotes, k);
      }
    }
  }

  /** Each pair maps to the price of the last record for that pair. */
  lemma {:induction false} PriceTableLastWins(quotes: seq<Quote>)
    requires PriceTable(quotes).Ok?
    ensures var m := PriceTable(quotes).value;
      forall i :: 0 <= i < |quotes| && IsLastFor(quotes, i) ==>
        quotes[i].price.Parsed? && quotes[i].pair in m && m[quotes[i].pair] == quotes[i].price.v
    decreases |quotes|
  {
    if |quotes| > 0 {
      var n := |quotes| - 1;
      var init := quotes[..n];
      PriceTableLastWins(init);
      var m := PriceTable(quotes).value;
      forall i | 0 <= i < |quotes| && IsLastFor(quotes, i)
        ensures quotes[i].price.Parsed? && quotes[i].pair in m && m[quotes[i].pair] == quotes[i].price.v
      {
        if i < n {
          assert quotes[n].pair != quotes[i].pair;
          assert quotes[i] == init[i];
          assert IsLastFor(init, i) by {
            forall j | i < j < |init| ensures init[j].pair != init[i].pair {
              assert init[j] == quotes[j];
            }
          }
        }
      }
    }
  }
}
