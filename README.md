# Gemini holding-summary report, modelled in Dafny

The modelled program is a scheduled job, `gemini_stats_labmda.py`. It fetches a Gemini account's trade
history and the exchange's live price feed. It folds every buy order into a per-symbol record
`{amount, spent, value}` and renders the records as an HTML table. In that table, each symbol's
delta (value − spent) is coloured green or red. The job then emails the table.

This project models the deterministic transform between the fetches and the email:

- **Price snapshot normaliser** (`Prices`): `convert_price_list_to_dict` becomes the loop method
  `ConvertPriceList`. It is proved equal to the function `PriceTable` (later records overwrite earlier
  ones; an unparsable price aborts).
- **Buy-order accumulator** (`Holdings`): the loop of `get_crypto_holding_summary` becomes the method
  `HoldingSummary`. It runs over pre-parsed orders and the price map, updating a map of records in
  place. It is proved equal to `Accumulate`, the fold of the single-order step `AddOrder`:
  - only `type == "Buy"` orders are kept;
  - the symbol is upper-cased, and any symbol containing `GUSD` is skipped;
  - a zeroed record is created the first time a symbol appears;
  - the amount and the rounded cost are added;
  - `value` is recomputed from the new amount;
  - a symbol without a price is an error.

  The dict's insertion order is kept as `Summary.keys`, because the report iterates in that order.
- **Report renderer** (`Report`): `generate_toke_color`, `generate_token_rows` (a loop method with
  running totals) and `generate_html`.
- Shared pieces:
  - `Numbers`: `round(x, 2)`, Python's int/float distinction, and the text of a rounded number.
  - `Text`: `upper`, `in`, and `replace("USD", "")`.
  - `Results`: the error and parsed-field types.
- `Scenarios`: worked examples. They cover one BTC buy end to end, three tiny orders whose rounded
  costs sum to 0.00, and a buy of an unquoted symbol.

Modelling choices:

- Quantities are `real`. `float()` on a field is modelled by the datatype
  `Decimal = Parsed(v) | Unparsable`. An `Unparsable` value raises `ParseError`, but only where the
  code actually calls `float()`. Orders that are not Buy, and GUSD orders, are never parsed.
- The accumulator takes the rounding function as a parameter `round2: real -> real`. All of its
  properties hold for any rounding. The composed `CryptoHoldingSummary` and the scenarios pass
  `Numbers.Round2` (nearest cent, ties to even, on exact reals).
- The running totals of `generate_token_rows` start as the Python int `0`. So an empty summary renders
  its TOTAL row as `0`, where a non-empty one shows a float such as `4800.0`. `Numbers.Num` models this.
- Figures are printed as Python prints a rounded float: `200.0`, not `200.00`.
- When a pair repeats in the feed, the last record wins, so the lookup depends on the feed's order.

## Model

| member | source | states |
|---|---|---|
| `Prices.ConvertPriceList` | gemini_stats_labmda.py:79-84 | the loop that writes `price_dict[pair]` returns exactly `PriceTable(quotes)` |
| `Prices.PriceTableSucceeds` | gemini_stats_labmda.py:81-83 | converting the feed succeeds if and only if every record's price parses |
| `Prices.PriceTableKeys` | gemini_stats_labmda.py:81-83 | the lookup's keys are exactly the pairs of the feed, and no other key exists |
| `Prices.PriceTableLastWins` | gemini_stats_labmda.py:82-83 | each pair maps to the price of the last record with that pair |
| `Prices.FailureSticks` | gemini_stats_labmda.py:83 | a failed prefix of the feed makes the whole conversion fail with the same error |
| `Holdings.AddOrder` | gemini_stats_labmda.py:90-98 | a non-qualifying order leaves the summary unchanged; a qualifying one succeeds iff both fields parse and its symbol has a price; ParseError iff a field does not parse; on success only the upper-cased symbol's record changes (starting from {0,0,0} on first sight, appended to the key order), its amount and spent grow by the amount and the rounded cost, and its value becomes the new amount times the price |
| `Holdings.HoldingSummary` | gemini_stats_labmda.py:88-99 | the accumulation loop, which updates the dict in place, returns exactly `Accumulate(orders, prices, round2)`, including which error ends the run |
| `Holdings.FailureSticks` | gemini_stats_labmda.py:93-98 | a failed prefix of the history makes the whole run fail with the same error: no partial summary |
| `Holdings.CryptoHoldingSummary` | gemini_stats_labmda.py:86-99 | a price-feed error aborts the run before the history is used; otherwise the result is the accumulation over the converted prices with `round(_, 2)` |
| `Holdings.NothingBoughtEmpty` | gemini_stats_labmda.py:88-92 | a history with no qualifying order, in particular one with no Buy order, yields the empty summary |
| `Holdings.SkippedOrderIrrelevant` | gemini_stats_labmda.py:90-92 | removing a non-Buy or GUSD order from anywhere in the history does not change the result |
| `Holdings.AccumulateSucceeds` | gemini_stats_labmda.py:93-98 | the run succeeds if and only if every qualifying order parses and its upper-cased symbol has a price |
| `Holdings.AccumulateFailure` | gemini_stats_labmda.py:93-98 | a ParseError points to a qualifying order with an unparsable field; `MissingPrice(k)` means k is unquoted and some qualifying order bought k |
| `Holdings.MissingPriceIsFatal` | gemini_stats_labmda.py:98 | a qualifying Buy of a symbol with no price entry makes the run fail rather than being skipped |
| `Holdings.SummaryKeys` | gemini_stats_labmda.py:91-95 | the summary's key order has no repeats, matches its records, and is the qualifying symbols in order of first purchase |
| `Holdings.KeysAreBoughtSymbols` | gemini_stats_labmda.py:90-95 | a key is present iff some qualifying Buy order's upper-cased symbol equals it; no key contains "GUSD" |
| `Holdings.SummaryRecordOf` | gemini_stats_labmda.py:93-98 | every key has a price; its amount is the sum of the amounts bought; spent is the sum of each order's rounded cost (not the rounded sum); value is that amount times the price; a symbol that is not a key was never bought |
| `Numbers.Cents` | gemini_stats_labmda.py:94 | `round(x, 2)` in cents: an integer within half a cent of 100·x, and even on a tie |
| `Numbers.Round2` | gemini_stats_labmda.py:94 | `round(x, 2)` lies within 0.005 of x |
| `Numbers.Add` | gemini_stats_labmda.py:118-119 | Python `+` adds the values; the result is an int only when both operands are ints |
| `Numbers.Sub` | gemini_stats_labmda.py:107 | Python `-` subtracts the values; the result is an int only when both operands are ints |
| `Numbers.ReadRoundedText` | gemini_stats_labmda.py:107 | the text printed for `round(n, 2)` reads back as exactly that int, or that float's value in cents |
| `Text.Upper` | gemini_stats_labmda.py:91 | `upper()` keeps the length, turns each ASCII lower-case letter into its capital, and leaves every other character alone |
| `Text.RemoveAllAbsent` | gemini_stats_labmda.py:120 | `replace(p, "")` leaves text without p unchanged |
| `Text.RemoveAllPresent` | gemini_stats_labmda.py:120 | `replace(p, "")` shortens text that contains p |
| `Text.RemoveUsdSuffix` | gemini_stats_labmda.py:120 | removing "USD" from `a + "USD"` gives the same as removing it from a |
| `Report.ReadTokenColor` | gemini_stats_labmda.py:102-107 | the delta cell reads back as green exactly when spent < value (break-even is red), showing `round(value - spent, 2)` |
| `Report.BreakEvenIsRed` | gemini_stats_labmda.py:103-107 | spent = value = 100.00 renders `<b style='color:red'>0.0</b>` |
| `Report.LabelOfPair` | gemini_stats_labmda.py:120 | the pair `X + "USD"` is labelled X when X holds no "USD" |
| `Report.LabelUnchanged` | gemini_stats_labmda.py:120 | the displayed label equals the key exactly when the key holds no "USD" |
| `Report.GenerateTokenRows` | gemini_stats_labmda.py:110-122 | the loop with running totals produces `TokenRows(s)`: one row per key in dict order, then the TOTAL row over the running totals |
| `Report.RunningTotalIsSum` | gemini_stats_labmda.py:112-119 | a running total is the int 0 for no entries, otherwise the float sum of the entries |
| `Report.TotalsAreSums` | gemini_stats_labmda.py:118-121 | the TOTAL row shows the sums of spent and of value over all entries, or the int 0 when there are none |
| `Report.EmptySummaryRows` | gemini_stats_labmda.py:111-121 | an empty summary renders just the TOTAL row of int zeros: red, shown as `0` |
| `Report.ReadReportRows` | gemini_stats_labmda.py:124-129 | the report is the fixed style, table and header frame around exactly the rows |
| `Scenarios.BitcoinPrices` | gemini_stats_labmda.py:79-84 | the feed `[BTCUSD: 50000]` converts to that one-entry lookup |
| `Scenarios.BitcoinSummary` | gemini_stats_labmda.py:79-99 | over the converted feed `[BTCUSD: 50000]`, a Buy of 0.1 BTCUSD at 48000 yields `{BTCUSD: amount 0.1, spent 4800.0, value 5000.0}` |
| `Scenarios.BitcoinRows` | gemini_stats_labmda.py:110-122 | that summary renders as its one entry row followed by the TOTAL row over 4800.0 and 5000.0 |
| `Scenarios.BitcoinEndToEnd` | gemini_stats_labmda.py:79-122 | feed, history and rows joined: the TOTAL row built from the converted feed and the history has a delta cell that reads as a green 200.00 |
| `Scenarios.BitcoinLabel` | gemini_stats_labmda.py:120 | BTCUSD is displayed as BTC |
| `Scenarios.BitcoinTotalDelta` | gemini_stats_labmda.py:102-107 | spent 4800 against value 5000 reads as a green delta of 200.00 |
| `Scenarios.BitcoinTotalText` | gemini_stats_labmda.py:107 | that delta is printed as `200.0` |
| `Scenarios.SpentSumsRoundedCosts` | gemini_stats_labmda.py:94-97 | three buys of 1/3 unit at 0.01 give spent 0.0, although the rounded total cost is 0.01 |
| `Scenarios.UnquotedBuyFails` | gemini_stats_labmda.py:98 | a Buy of ZZZUSD with no quote fails with `MissingPrice("ZZZUSD")` |

## Left out

- `get_secret` (AWS Secrets Manager), `private_api_call`, `public_api_call`, `get_all_trades`, `get_current_asset_prices`: foreign I/O. This also covers HTTP, HMAC-SHA384 signing, base64 and JSON, and the clock-based nonce. The price feed and trade history are parameters instead.
- `send_email` and `lambda_handler`: SMTP/MIME transport, configuration wiring and the date in the subject are I/O or clock reads.
- `logging` and `traceback` side effects.
- IEEE-754 floats: quantities are exact reals. `Numbers.Round2` rounds the exact value to the nearest cent, ties to even, whereas Python rounds the binary float. For example, `round(2.675, 2)` is 2.67 in Python.
- `float()` string parsing: an order or quote field is given already parsed, or as `Unparsable`.
- A record missing its `pair`, `type` or `symbol` key (`dict.get` returning `None`) is not modelled. Every record is taken to carry these fields.
- `str.upper` beyond ASCII (e.g. `ß` becoming `SS`) is not modelled.
- Numbers.RoundedText: prints a rounded float in plain positional form. Python's exponent form for magnitudes of 10^16 and above, and the signed zero `-0.0` printed for a tiny negative delta, are not modelled.
- Holdings.HoldingSummary: on failure it returns an error and drops its partial dict. In the source, that partial state sits in a local variable that the exception discards, so nobody can observe it.
