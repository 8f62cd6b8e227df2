/** The report renderer: the holding summary as an HTML table, delta-coloured. */
module Report {

  import opened Results
  import opened Numbers
  import opened Text
  import opened Holdings

  // ---------------------------------------------------------------------
  // generate_toke_color
  // ---------------------------------------------------------------------

  /** Green exactly when the holding is worth more than was spent; break-even is red. */
  function Color(spent: Num, value: Num): string {
    if spent.Val() < value.Val() then "green" else "red"
  }

  /** The delta cell: value - spent rounded to the cent, in the holding's colour. */
  function TokenColor(spent: Num, value: Num): string {
    BoldOpen(Color(spent, value)) + RoundedText(Sub(value, spent)) + BoldClose
  }

  /** The opening tag of a delta cell in the given colour. */
  function BoldOpen(color: string): string {
    "<b style='color:" + color + "'>"
  }

  const GreenOpen := BoldOpen("green")
  const RedOpen := BoldOpen("red")
  const BoldClose := "</b>"

  /** The text strictly between `open` and `close`, when t is framed by them. */
  function Between(t: string, open: string, close: string): Option<string> {
    if |open| + |close| <= |t| && t[..|open|] == open && t[|t| - |close|..] == close
    then Some(t[|open|..|t| - |close|])
    else None
  }

  /** What a reader sees in a delta cell: whether it is green, and the number shown. */
  function ReadDeltaCell(t: string): Option<(bool, Shown)> {
    match Between(t, GreenOpen, BoldClose)
    case Some(inner) =>
      (match ReadNumber(inner) case None => None case Some(v) => Some((true, v)))
    case None =>
      match Between(t, RedOpen, BoldClose)
      case Some(inner) =>
        (match ReadNumber(inner) case None => None case Some(v) => Some((false, v)))
      case None => None
  }

  lemma BetweenFrame(open: string, inner: string, close: string)
    ensures Between(open + inner + close, open, close) == Some(inner)
  {
    var t := open + inner + close;
    assert t[..|open|] == open;
    assert t[|t| - |close|..] == close;
    assert t[|open|..|t| - |close|] == inner;
  }

  /** A red cell is not read as a green one. */
  lemma RedIsNotGreen(inner: string)
    ensures Between(RedOpen + inner + BoldClose, GreenOpen, BoldClose).None?
  {
    var t := RedOpen + inner + BoldClose;
    if |GreenOpen| + |BoldClose| <= |t| {
      assert t[..|GreenOpen|][16] == 'r' != GreenOpen[16];
    }
  }

  lemma ReadGreenCell(inner: string)
    requires ReadNumber(inner).Some?
    ensures ReadDeltaCell(GreenOpen + inner + BoldClose) == Some((true, ReadNumber(inner).value))
  {
    BetweenFrame(GreenOpen, inner, BoldClose);
  }

  lemma ReadRedCell(inner: string)
    requires ReadNumber(inner).Some?
    ensures ReadDeltaCell(RedOpen + inner + BoldClose) == Some((false, ReadNumber(inner).value))
  {
    RedIsNotGreen(inner);
    BetweenFrame(RedOpen, inner, BoldClose);
  }

  /** A cell in either colour, showing round(n, 2), reads back as that colour and number. */
  lemma ReadCell(green: bool, n: Num)
    ensures ReadDeltaCell((if green then GreenOpen else RedOpen) + RoundedText(n) + BoldClose)
         == Some((green, ShownOf(n)))
  {
    ReadRoundedText(n);
    if green {
      ReadGreenCell(RoundedText(n));
    } else {
      ReadRedCell(RoundedText(n));
    }
  }

  /**
   * The delta cell is green exactly when spent < value, and it shows
   * round(value - spent, 2).
   */
  lemma ReadTokenColor(spent: Num, value: Num)
    ensures ReadDeltaCell(TokenColor(spent, value)) == Some((spent.Val() < value.Val(), ShownOf(Sub(value, spent))))
  {
    var green := spent.Val() < value.Val();
    assert TokenColor(spent, value) == (if green then GreenOpen else RedOpen) + RoundedText(Sub(value, spent)) + BoldClose;
    ReadCell(green, Sub(value, spent));
  }

  /** Break-even renders in the loss colour. */
  lemma BreakEvenIsRed()
    ensures TokenColor(Float(100.0), Float(100.0)) == "<b style='color:red'>0.0</b>"
  {
    assert Cents(0.0) == 0;
    assert NatText(0) == "0";
  }

  // ---------------------------------------------------------------------
  // generate_token_rows
  // ---------------------------------------------------------------------

  /** The display label of a key: the key with every "USD" removed. */
  function Label(key: string): string {
    RemoveAll(key, "USD")
  }

  /** A pair "XUSD" whose asset X holds no "USD" is labelled X. */
  lemma LabelOfPair(asset: string)
    requires !Contains(asset, "USD")
    ensures Label(asset + "USD") == asset
  {
    RemoveUsdSuffix(asset);
    RemoveAllAbsent(asset, "USD");
  }

  /** The label is the key itself exactly when the key holds no "USD". */
  lemma LabelUnchanged(key: string)
    ensures Label(key) == key <==> !Contains(key, "USD")
  {
    if Contains(key, "USD") {
      RemoveAllPresent(key, "USD");
    } else {
      RemoveAllAbsent(key, "USD");
    }
  }

  /** The row of one summary entry: label, delta cell, spent and value. */
  function EntryRow(key: string, h: Holding): string {
    "<tr> <td>" + Label(key) + "</td> <td>" + TokenColor(Float(h.spent), Float(h.value))
      + "</td> <td>" + RoundedText(Float(h.spent)) + "</td> <td>" + RoundedText(Float(h.value)) + "</td> </tr>"
  }

  /** The closing TOTAL row. */
  function TotalRow(totalSpent: Num, totalValue: Num): string {
    "<tr> <td><b>TOTAL</b></td> <td>" + TokenColor(totalSpent, totalValue)
      + "</td> <td>" + RoundedText(totalSpent) + "</td> <td>" + RoundedText(totalValue) + "</td> </tr>"
  }

  /** The entry rows of the keys, in order. */
  function EntryRows(keys: seq<string>, holdings: map<string, Holding>): string
    requires forall k :: k in keys ==> k in holdings
    decreases |keys|
  {
    if |keys| == 0 then ""
    else
      var k := keys[|keys| - 1];
      EntryRows(keys[..|keys| - 1], holdings) + EntryRow(k, holdings[k])
  }

  /** The entries' spent amounts, in key order. */
  function SpentColumn(keys: seq<string>, holdings: map<string, Holding>): (r: seq<real>)
    requires forall k :: k in keys ==> k in holdings
    ensures |r| == |keys| && forall i :: 0 <= i < |keys| ==> r[i] == holdings[keys[i]].spent
  {
    seq(|keys|, i requires 0 <= i < |keys| => holdings[keys[i]].spent)
  }

  /** The entries' values, in key order. */
  function ValueColumn(keys: seq<string>, holdings: map<string, Holding>): (r: seq<real>)
    requires forall k :: k in keys ==> k in holdings
    ensures |r| == |keys| && forall i :: 0 <= i < |keys| ==> r[i] == holdings[keys[i]].value
  {
    seq(|keys|, i requires 0 <= i < |keys| => holdings[keys[i]].value)
  }

  /** `0 + xs[0] + xs[1] + ...` in Python: an int 0 until the first float is added. */
  function RunningTotal(xs: seq<real>): Num
    decreases |xs|
  {
    if |xs| == 0 then Int(0) else Add(RunningTotal(xs[..|xs| - 1]), Float(xs[|xs| - 1]))
  }

  /** The plain sum. */
  function Sum(xs: seq<real>): real
    decreases |xs|
  {
    if |xs| == 0 then 0.0 else xs[0] + Sum(xs[1..])
  }

  lemma {:induction false} SumSnoc(xs: seq<real>, x: real)
    ensures Sum(xs + [x]) == Sum(xs) + x
    decreases |xs|
  {
    if |xs| > 0 {
      assert (xs + [x])[1..] == xs[1..] + [x];
      SumSnoc(xs[1..], x);
    }
  }

  /** The running total is the sum, and stays the int 0 only when nothing was added. */
  lemma {:induction false} RunningTotalIsSum(xs: seq<real>)
    ensures RunningTotal(xs) == if |xs| == 0 then Int(0) else Float(Sum(xs))
    decreases |xs|
  {
    if |xs| > 0 {
      var init := xs[..|xs| - 1];
      RunningTotalIsSum(init);
      assert xs == init + [xs[|xs| - 1]];
      SumSnoc(init, xs[|xs| - 1]);
    }
  }

  /** All the rows: one per entry in the dict's order, then the TOTAL row. */
  function TokenRows(s: Summary): string
    requires forall k :: k in s.keys ==> k in s.holdings
  {
    EntryRows(s.keys, s.holdings)
      + TotalRow(RunningTotal(SpentColumn(s.keys, s.holdings)), RunningTotal(ValueColumn(s.keys, s.holdings)))
  }

  /** Extending the rendered prefix of the keys by one entry. */
  lemma RowsStep(keys: seq<string>, holdings: map<string, Holding>, i: nat)
    requires forall k :: k in keys ==> k in holdings
    requires i < |keys|
    ensures EntryRows(keys[..i + 1], holdings) == EntryRows(keys[..i], holdings) + EntryRow(keys[i], holdings[keys[i]])
  {
    assert keys[..i + 1][..i] == keys[..i];
  }

  lemma ColumnsStep(keys: seq<string>, holdings: map<string, Holding>, i: nat)
    requires forall k :: k in keys ==> k in holdings
    requires i < |keys|
    ensures RunningTotal(SpentColumn(keys[..i + 1], holdings))
      == Add(RunningTotal(SpentColumn(keys[..i], holdings)), Float(holdings[keys[i]].spent))
    ensures RunningTotal(ValueColumn(keys[..i + 1], holdings))
      == Add(RunningTotal(ValueColumn(keys[..i], holdings)), Float(holdings[keys[i]].value))
  {
    assert SpentColumn(keys[..i + 1], holdings)[..i] == SpentColumn(keys[..i], holdings);
    assert ValueColumn(keys[..i + 1], holdings)[..i] == ValueColumn(keys[..i], holdings);
  }

  /** `generate_token_rows`. */
  method GenerateTokenRows(s: Summary) returns (tokensHtml: string)
    requires forall k :: k in s.keys ==> k in s.holdings
    ensures tokensHtml == TokenRows(s)
  {
    tokensHtml := "";
    var totalSpent := Int(0);
    var totalValue := Int(0);
    var i := 0;
    while i < |s.keys|
      invariant i <= |s.keys|
      invariant tokensHtml == EntryRows(s.keys[..i], s.holdings)
      invariant totalSpent == RunningTotal(SpentColumn(s.keys[..i], s.holdings))
      invariant totalValue == RunningTotal(ValueColumn(s.keys[..i], s.holdings))
    {
      var k := s.keys[i];
      var v := s.holdings[k];
      var spent := v.spent;
      var value := v.value;
      totalSpent := Add(totalSpent, Float(spent));
      totalValue := Add(totalValue, Float(value));
      tokensHtml := tokensHtml + EntryRow(k, v);
      RowsStep(s.keys, s.holdings, i);
      ColumnsStep(s.keys, s.holdings, i);
      i := i + 1;
    }
    assert s.keys[..i] == s.keys;
    tokensHtml := tokensHtml + TotalRow(totalSpent, totalValue);
  }

  /**
   * The TOTAL row's figures: the sums of spent and of value over all entries,
   * or the int 0 when the summary is empty.
   */
  lemma TotalsAreSums(s: Summary)
    requires forall k :: k in s.keys ==> k in s.holdings
    ensures TokenRows(s) == EntryRows(s.keys, s.holdings) + TotalRow(
      if |s.keys| == 0 then Int(0) else Float(Sum(SpentColumn(s.keys, s.holdings))),
      if |s.keys| == 0 then Int(0) else Float(Sum(ValueColumn(s.keys, s.holdings))))
  {
    RunningTotalIsSum(SpentColumn(s.keys, s.holdings));
    RunningTotalIsSum(ValueColumn(s.keys, s.holdings));
  }

  /**
   * An empty summary renders only the TOTAL row, over the int zeros the
   * totals start from: red, and shown as "0" rather than "0.0".
   */
  lemma EmptySummaryRows()
    ensures TokenRows(Empty) == TotalRow(Int(0), Int(0))
    ensures TokenColor(Int(0), Int(0)) == "<b style='color:red'>0</b>"
    ensures RoundedText(Int(0)) == "0"
  {
    assert SpentColumn(Empty.keys, Empty.holdings) == [];
    assert ValueColumn(Empty.keys, Empty.holdings) == [];
    assert RoundedText(Int(0)) == "0";
    assert TokenRows(Empty) == "" + TotalRow(Int(0), Int(0));
  }

  // ---------------------------------------------------------------------
  // generate_html
  // ---------------------------------------------------------------------

  const Style := "<style> td { text-align: center; vertical-align: middle; }</style>"
  const TableOpen := "<table style=\"width:100%; border: 1px solid black;\">"
  const TableHeader := "<tr> <th>Symbol</th> <th>Delta</th> <th>Spent</th> <th>Value</th> </tr>"
  const TableClose := "</table>"

  /** `generate_html`: the rows inside the styled table with its header row. */
  function GenerateHtml(s: Summary): string
    requires forall k :: k in s.keys ==> k in s.holdings
  {
    Style + TableOpen + TableHeader + TokenRows(s) + TableClose
  }

  /** The rows of a report, recovered from its fixed frame. */
  function ReportRows(html: string): Option<string> {
    Between(html, Style + TableOpen + TableHeader, TableClose)
  }

  /** A report is its fixed frame around exactly the rows of the summary. */
  lemma ReadReportRows(s: Summary)
    requires forall k :: k in s.keys ==> k in s.holdings
    ensures ReportRows(GenerateHtml(s)) == Some(TokenRows(s))
  {
    BetweenFrame(Style + TableOpen + TableHeader, TokenRows(s), TableClose);
  }
}
