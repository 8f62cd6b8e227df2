/** Worked examples: concrete runs of the whole transform. */
module Scenarios {

  import opened Results
  import opened Numbers
  import opened Text
  import opened Prices
  import opened Holdings
  import opened Report

  // One BTC buy of 0.1 at 48000 against a quote of 50000: spent 4800.00,
  // value 5000.00, and a green TOTAL delta of 200.00.

  const BtcQuotes := [Quote("BTCUSD", Parsed(50000.0))]
  const BtcOrders := [Order("Buy", "BTCUSD", Parsed(0.1), Parsed(48000.0))]

  lemma BitcoinPrices()
    ensures PriceTable(BtcQuotes) == Ok(map["BTCUSD" := 50000.0])
  {
    assert BtcQuotes[..0] == [];
  }

  lemma BitcoinQualifies()
    ensures Qualifies(BtcOrders[0]) && Upper("BTCUSD") == "BTCUSD"
  {
    assert Upper("BTCUSD") == "BTCUSD";
    AbsentWithoutFirstChar("BTCUSD", "GUSD");
  }

  const BtcHolding := Holding(0.1, 4800.0, 5000.0)
  const BtcSummary := Summary(["BTCUSD"], map["BTCUSD" := BtcHolding])

  lemma BitcoinSummary()
    ensures PriceTable(BtcQuotes).Ok?
    ensures Accumulate(BtcOrders, PriceTable(BtcQuotes).value, Round2) == Ok(BtcSummary)
  {
    BitcoinPrices();
    assert BtcOrders[..0] == [];
    BitcoinQualifies();
    assert Cents(48000.0 * 0.1) == 480000;
    assert Cost(BtcOrders[0], Round2) == 4800.0;
    assert Accumulate(BtcOrders, map["BTCUSD" := 50000.0], Round2)
      == AddOrder(Empty, BtcOrders[0], map["BTCUSD" := 50000.0], Round2);
    assert [] + ["BTCUSD"] == ["BTCUSD"];
  }

  /** A single key renders as its own entry row. */
  lemma SingleEntryRows(k: string, holdings: map<string, Holding>)
    requires k in holdings
    ensures EntryRows([k], holdings) == EntryRow(k, holdings[k])
  {
    assert [k][..0] == [];
  }

  lemma BitcoinEntryRows()
    ensures EntryRows(BtcSummary.keys, BtcSummary.holdings) == EntryRow("BTCUSD", BtcHolding)
  {
    SingleEntryRows("BTCUSD", BtcSummary.holdings);
  }

  lemma BitcoinTotals()
    ensures RunningTotal(SpentColumn(BtcSummary.keys, BtcSummary.holdings)) == Float(4800.0)
    ensures RunningTotal(ValueColumn(BtcSummary.keys, BtcSummary.holdings)) == Float(5000.0)
  {
    assert SpentColumn(BtcSummary.keys, BtcSummary.holdings) == [4800.0];
    assert ValueColumn(BtcSummary.keys, BtcSummary.holdings) == [5000.0];
    assert [4800.0][..0] == [] && [5000.0][..0] == [];
  }

  /** The summary renders as its one entry row followed by TOTAL over 4800.0 and 5000.0. */
  lemma BitcoinRows()
    ensures TokenRows(BtcSummary) == EntryRow("BTCUSD", BtcHolding) + TotalRow(Float(4800.0), Float(5000.0))
  {
    BitcoinEntryRows();
    BitcoinTotals();
  }

  /**
   * The whole chain: the feed converts, the history folds over it, and the
   * rows end in the TOTAL row whose delta cell reads as a green 200.00.
   */
  lemma BitcoinEndToEnd()
    ensures PriceTable(BtcQuotes).Ok?
    ensures Accumulate(BtcOrders, PriceTable(BtcQuotes).value, Round2).Ok?
    ensures var s := Accumulate(BtcOrders, PriceTable(BtcQuotes).value, Round2).value;
      && (forall k :: k in s.keys ==> k in s.holdings)
      && TokenRows(s) == EntryRow("BTCUSD", BtcHolding) + TotalRow(Float(4800.0), Float(5000.0))
    ensures ReadDeltaCell(TokenColor(Float(4800.0), Float(5000.0))) == Some((true, ShownCents(20000)))
  {
    BitcoinSummary();
    BitcoinRows();
    BitcoinTotalDelta();
  }

  lemma BitcoinLabel()
    ensures Label("BTCUSD") == "BTC"
  {
    AbsentWithoutFirstChar("BTC", "USD");
    LabelOfPair("BTC");
    assert "BTC" + "USD" == "BTCUSD";
  }

  lemma BitcoinTotalDelta()
    ensures ReadDeltaCell(TokenColor(Float(4800.0), Float(5000.0))) == Some((true, ShownCents(20000)))
  {
    ReadTokenColor(Float(4800.0), Float(5000.0));
    assert Cents(5000.0 - 4800.0) == 20000;
  }

  lemma BitcoinTotalText()
    ensures RoundedText(Sub(Float(5000.0), Float(4800.0))) == "200.0"
  {
    assert Cents(5000.0 - 4800.0) == 20000;
    assert NatText(200) == "200";
    assert FracText(0) == "0";
    assert CentsText(20000) == "200" + "." + "0";
  }

  // Three buys of a third of a unit at 0.01: each cost rounds to 0.00, so
  // `spent` is 0.00, although the rounded total cost would be 0.01.

  const Third := Order("Buy", "ETHUSD", Parsed(1.0 / 3.0), Parsed(0.01))
  const ThirdOrders := [Third, Third, Third]
  const EthPrices := map["ETHUSD" := 1500.0]

  lemma ThirdQualifies()
    ensures Qualifies(Third) && Upper(Third.symbol) == "ETHUSD"
  {
    assert Upper("ETHUSD") == "ETHUSD";
    AbsentWithoutFirstChar("ETHUSD", "GUSD");
  }

  lemma SpentSumsRoundedCosts()
    ensures Accumulate(ThirdOrders, EthPrices, Round2).Ok?
    ensures "ETHUSD" in Accumulate(ThirdOrders, EthPrices, Round2).value.holdings
    ensures Accumulate(ThirdOrders, EthPrices, Round2).value.holdings["ETHUSD"].spent == 0.0
    ensures Round2(3.0 * (0.01 * (1.0 / 3.0))) == 0.01
  {
    ThirdQualifies();
    AccumulateSucceeds(ThirdOrders, EthPrices, Round2);
    KeysAreBoughtSymbols(ThirdOrders, EthPrices, Round2);
    assert Buys(ThirdOrders[0], "ETHUSD");
    SummaryRecordOf(ThirdOrders, EthPrices, Round2, "ETHUSD");
    assert Cents(0.01 * (1.0 / 3.0)) == 0;
    assert Cost(Third, Round2) == 0.0;
    assert ThirdOrders[..2] == [Third, Third];
    assert ThirdOrders[..2][..1] == [Third];
    assert ThirdOrders[..2][..1][..0] == [];
    assert SpentOn([Third], "ETHUSD", Round2) == 0.0;
    assert SpentOn([Third, Third], "ETHUSD", Round2) == 0.0;
    assert SpentOn(ThirdOrders, "ETHUSD", Round2) == 0.0;
    assert Cents(3.0 * (0.01 * (1.0 / 3.0))) == 1;
  }

  // A Buy for a symbol with no quote fails the run instead of being skipped.

  const Unquoted := Order("Buy", "ZZZUSD", Parsed(1.0), Parsed(2.0))

  lemma UnquotedBuyFails()
    ensures Accumulate([Unquoted], map["BTCUSD" := 50000.0], Round2) == Err(MissingPrice("ZZZUSD"))
  {
    assert [Unquoted][..0] == [];
    assert Upper("ZZZUSD") == "ZZZUSD";
    AbsentWithoutFirstChar("ZZZUSD", "GUSD");
  }
}
