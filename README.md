# Stock trading simulator and grade tracker: a Dafny model

This project models two small console programs.

The main part is the accounting engine of the stock-trading simulator (`src/StockTradingPlatform.java`):

- A `Stock` has a fixed symbol and a mutable price.
- A `Transaction` is an immutable log entry: symbol, BUY/SELL, quantity, price at the time of the trade.
- A `Portfolio` holds a cash balance, a symbol-to-quantity holdings map and an append-only history.
  It changes only through `buy` and `sell`. Each either applies completely or is refused with no state change.
  `getNetWorth` marks the holdings to market; a held symbol missing from the market counts as nothing.
- The front end (`buyStock`, `sellStock`) upper-cases the typed symbol and looks it up in the market.
  An unknown symbol is refused before the portfolio is touched.

The second part is the statistics loop of the grade tracker (`src/StudentGradeTracker.java`):
appending a student, and the loop that computes the sum, the highest and the lowest grade.

## How the model is built

- `JavaInt.dfy` (module `JavaInt`): Java's 32-bit `int`. `Wrap32` gives the two's-complement result of an
  exact integer. `WrapAdd` shows that wrapping after each step equals wrapping once at the end.
- `Trading.dfy` (module `Trading`): `Stock` is a class with a fixed symbol and a `price` field; no operation in the
  model changes the price. `Portfolio` is a class whose fields `Buy` and `Sell` update in place.
  `Portfolio.Buy` and `Portfolio.Sell` also tie the new state to the value-level functions `AfterBuy` and `AfterSell`
  on a `Snapshot` (cash, holdings, history). The lemmas are stated over those functions.
  - Ledger invariant `Consistent`: the cash equals the opening cash plus the cash flow of the history, and the
    holdings equal the replay of the history. `Portfolio.Valid()` is this invariant, and every method keeps it,
    whatever the price and quantity.
  - Solvency `Solvent`: no negative cash and no negative holding. `buy` and `sell` keep it only under
    hypotheses the source never checks. For `buy` they are quantity ≥ 0 and no `int` overflow of the holding,
    at any price. For `sell` they are quantity ≥ 0 and price ≥ 0. Concrete lemmas show each hypothesis is needed.
    The price hypothesis always holds in the program: prices start positive, and only the random daily update,
    which is not modelled, changes them.
  - Net worth is a sum over the key set of the holdings, taken in an arbitrary order. `SumOverRemove` shows the
    order does not matter, which is what makes a `HashMap` iteration order irrelevant. Trading at the quoted price
    keeps the net worth when the new holding does not overflow. A buy that is made, from a non-negative holding
    that does not overflow, followed by a sell of the same quantity at the same price restores the cash, every
    holding (as `getOrDefault` reads it) and the net worth.
- `Platform.dfy` (module `TradingPlatform`): the front end's symbol lookup and the sample start state.
- `Grades.dfy` (module `GradeTracker`): the student list and the statistics loop. The loop is modelled as written,
  lowest-grade bug included, and also with that bug fixed.

Money (cash, prices, `price * qty`) is exact `real` arithmetic, not `double`. Quantities, holdings, grades and the
grade sum are Java `int`s, with their wrap-around written out.

The code never checks `qty > 0`: `Integer.parseInt` accepts zero and negative numbers, and neither `buy` nor `sell`
refuses them. The model follows the code. Trades with such quantities are allowed, and
`Trading.NegativeQuantityBreaksSolvency` shows their effect.

## Model

| member | source | states |
|---|---|---|
| `JavaInt.Wrap32` | src/StockTradingPlatform.java:74 | Java `int` addition: the result is a 32-bit value, and it equals the exact sum whenever that sum is in range |
| `JavaInt.WrapAdd` | src/StudentGradeTracker.java:52 | wrapping the running value after each `+=` gives the same `int` as wrapping the exact total once |
| `Trading.Stock.constructor` | src/StockTradingPlatform.java:9-12 | a new stock has the given symbol and initial price |
| `Trading.Portfolio.constructor` | src/StockTradingPlatform.java:61-65 | a new portfolio has the given cash, no holdings and an empty history, and its ledger is consistent |
| `Trading.OpeningIsConsistent` | src/StockTradingPlatform.java:61-65 | the opening state satisfies the ledger invariant, and is solvent when the initial cash is not negative |
| `Trading.AfterBuy` | src/StockTradingPlatform.java:67-77 | the state `buy` leaves: unchanged exactly when `price*qty` exceeds the cash; otherwise cash minus `price*qty`, the symbol's holding at old-or-0 plus `qty` as an `int`, and one BUY entry with symbol, quantity and price appended |
| `Trading.AfterSell` | src/StockTradingPlatform.java:79-90 | the state `sell` leaves: unchanged exactly when `qty` exceeds the held quantity (0 if absent); otherwise cash plus `price*qty`, the holding at `have - qty` as an `int`, and one SELL entry appended |
| `Trading.NetWorth` | src/StockTradingPlatform.java:92-103 | the value `getNetWorth` computes, cash plus the worth of every quoted holding; holdings with no quote add nothing, so a portfolio holding only unquoted symbols is worth its cash |
| `Trading.SumOverUnquoted` | src/StockTradingPlatform.java:97-100 | symbols missing from the market contribute nothing to the valuation |
| `Trading.Portfolio.Buy` | src/StockTradingPlatform.java:67-77 | if `price*qty` exceeds the cash, nothing changes; otherwise cash drops by `price*qty`, only the traded symbol's holding becomes old-or-0 plus `qty` (as an `int`), exactly one BUY entry with symbol, quantity and current price is appended, and the ledger stays consistent |
| `Trading.Portfolio.Sell` | src/StockTradingPlatform.java:79-90 | if `qty` exceeds the held quantity (0 if absent), nothing changes; otherwise the holding becomes `have - qty`, cash rises by `price*qty`, exactly one SELL entry is appended, and the ledger stays consistent |
| `Trading.Portfolio.GetNetWorth` | src/StockTradingPlatform.java:92-103 | the loop over the holdings, in any order, returns the cash plus each quoted holding's `price*qty`; symbols absent from the market add nothing |
| `Trading.AppendTrade` | src/StockTradingPlatform.java:73-75 | appending a trade adds its cash flow to the history's total and applies its quantity change to the replayed holdings |
| `Trading.ReplayHoldsNetQuantity` | src/StockTradingPlatform.java:74-85 | every holding equals the net quantity the history bought in that symbol, wrapped once to an `int` |
| `Trading.BuyKeepsLedger` | src/StockTradingPlatform.java:67-77 | `buy` preserves "cash = opening cash + cash flow of history, holdings = replay of history" for every price and quantity |
| `Trading.SellKeepsLedger` | src/StockTradingPlatform.java:79-90 | `sell` preserves the same ledger invariant for every price and quantity |
| `Trading.BuyKeepsSolvent` | src/StockTradingPlatform.java:67-77 | with quantity ≥ 0 and no `int` overflow of the new holding, `buy` keeps cash and every holding non-negative, at any price |
| `Trading.SellKeepsSolvent` | src/StockTradingPlatform.java:79-90 | with quantity ≥ 0 and price ≥ 0, `sell` keeps cash and every holding non-negative |
| `Trading.NegativeQuantityBreaksSolvency` | src/StockTradingPlatform.java:171-185 | the unchecked quantity matters: buying -1 share leaves a holding of -1, and selling -1 of a share never held makes the cash -150 |
| `Trading.NegativePriceBreaksSolvency` | src/StockTradingPlatform.java:86-87 | `sell` needs a non-negative price: selling 1 share at -1 from no cash leaves cash at -1 |
| `Trading.HoldingOverflowBreaksSolvency` | src/StockTradingPlatform.java:74 | buying 1 more share on top of `Integer.MAX_VALUE` wraps the holding to `Integer.MIN_VALUE` |
| `Trading.TradesTouchOnlyTheirSymbol` | src/StockTradingPlatform.java:67-90 | `buy` and `sell` leave every other symbol's holding unchanged, keep every earlier history entry in place and add at most one entry |
| `Trading.SumOverRemove` | src/StockTradingPlatform.java:94-101 | the valuation sum does not depend on iteration order: any held symbol can be taken out first |
| `Trading.SumOverAgree` | src/StockTradingPlatform.java:94-101 | two holdings maps worth the same on every summed symbol have the same valuation |
| `Trading.SumOverNonNegative` | src/StockTradingPlatform.java:94-101 | with non-negative holdings and prices, the valuation is non-negative |
| `Trading.ValuationUpdate` | src/StockTradingPlatform.java:92-103 | writing one holding changes the valuation by exactly the change in that holding's worth (0 when it is not quoted) |
| `Trading.NetWorthOfSolventIsNonNegative` | src/StockTradingPlatform.java:92-103 | a solvent portfolio at non-negative prices has a non-negative net worth |
| `Trading.BuyAtQuoteKeepsNetWorth` | src/StockTradingPlatform.java:67-77 | buying at the market's own quote (no overflow) leaves the net worth unchanged, whether the buy is made or refused |
| `Trading.SellAtQuoteKeepsNetWorth` | src/StockTradingPlatform.java:79-90 | selling at the market's own quote (no overflow) leaves the net worth unchanged, whether the sell is made or refused |
| `Trading.BuyThenSellRestores` | src/StockTradingPlatform.java:67-103 | a successful `buy(s, q)` then `sell(s, q)` at the same price restores the cash, every holding and the net worth at any quotes, and logs exactly the two trades; the holding must start non-negative, since from a negative holding `sell` refuses the second trade |
| `TradingPlatform.ToUpper` | src/StockTradingPlatform.java:164 | upper-casing keeps the length and upper-cases each ASCII letter in place |
| `TradingPlatform.ToUpperIsIdempotent` | src/StockTradingPlatform.java:177 | an upper-cased symbol has no lower-case letter left, so upper-casing again changes nothing |
| `TradingPlatform.Platform.constructor` | src/StockTradingPlatform.java:132-141 | the start state: AAPL 150, GOOG 2800, TSLA 700, AMZN 3300, each filed under its own symbol, and a fresh portfolio with 10000 cash |
| `TradingPlatform.Platform.BuyStock` | src/StockTradingPlatform.java:162-173 | an unknown upper-cased symbol is refused with the portfolio unchanged; a known one runs `buy` at that stock's price |
| `TradingPlatform.Platform.SellStock` | src/StockTradingPlatform.java:175-186 | an unknown upper-cased symbol is refused with the portfolio unchanged; a known one runs `sell` at that stock's price |
| `TradingPlatform.SampleSession` | src/StockTradingPlatform.java:67-90 | worked example: "aapl" resolves to AAPL; buying 10 at 150 from 10000 leaves 8500 and 10 shares, and selling 5 leaves 9250, 5 shares and 2 log entries |
| `GradeTracker.GradeBook.constructor` | src/StudentGradeTracker.java:16 | the student list starts empty |
| `GradeTracker.GradeBook.AddStudent` | src/StudentGradeTracker.java:34 | adding appends the new student at the end; the earlier entries and their order are unchanged |
| `GradeTracker.TotalOfAppend` | src/StudentGradeTracker.java:51-52 | appending a student adds exactly their grade to the total |
| `GradeTracker.LowestIsMinimum` | src/StudentGradeTracker.java:55-56 | `Lowest`, the intended lowest grade, is the minimum: no grade is smaller, and some student has it |
| `GradeTracker.SumStep` | src/StudentGradeTracker.java:52 | adding the next grade to the wrapped sum of a prefix gives the wrapped sum of the prefix one longer |
| `GradeTracker.LowestStep` | src/StudentGradeTracker.java:50-56 | with the fixed update, keeping the smaller of `lowest` and the next grade, starting from `Integer.MAX_VALUE`, gives the lowest grade of the prefix seen so far |
| `GradeTracker.ComputeStatistics` | src/StudentGradeTracker.java:46-57 | as written: an empty list gives no data; otherwise `sum` is the grade total as an `int` (exact when in range), `highest` is ≥ every grade and is some student's grade, and `lowest` is the last student's grade |
| `GradeTracker.LowestIsLastNotMinimum` | src/StudentGradeTracker.java:55-56 | for grades [1, 2] the as-written `lowest` (the last grade, 2) differs from the lowest grade, 1 |
| `GradeTracker.SumOverflowWraps` | src/StudentGradeTracker.java:50-52 | grades `Integer.MAX_VALUE` and 1 sum to `Integer.MIN_VALUE` in the `int` accumulator |
| `GradeTracker.ComputeStatisticsFixed` | src/StudentGradeTracker.java:46-57 | with `lowest` replaced only by smaller grades: the same sum and highest, and `lowest` is the lowest grade |

## Left out

- `Stock.updatePrice` and the "next day" loop that calls it (`updatePrices`): they use `Math.random()` and `double` rounding, so they are not part of this model. No model operation changes a price.
- `Stock.getSymbol` and `Stock.getPrice` are the reads of the `symbol` and `price` fields; they have no member of their own.
- Java `double` arithmetic: cash, prices and `price * qty` are exact reals, so the IEEE rounding in `cost > cash`, in `cash -= cost` and in the net-worth `total` is not modelled.
- The grade average (`(double) sum / students.size()`): a floating-point division.
- All console I/O: the `Scanner` reads, the menu loops (`run` and the `while (true)` in `main`), `showMenu`, `showMarket`, `showPortfolio`, `showHistory`, the printed messages and the `toString` methods. The typed symbol, quantity, name and grade are method parameters. Every `println` that reports an outcome is returned as a value instead (`bought`, `sold`, `Outcome`, `Report`).
- `Integer.parseInt` and `nextInt` failures on malformed input, and the extra `sc.nextInt()` after the menu choice: input plumbing.
- `TradingPlatform.ToUpper`: only the ASCII letters a-z are mapped. Java's `toUpperCase` also maps non-ASCII characters, some to ASCII (U+017F long s becomes `S`) and some to several characters (`ß` becomes `SS`). It also leaves out the default-locale rules (under a Turkish locale `i` becomes `İ`). So an input such as "TſLA", which Java resolves to TSLA, is refused by the model. No ticker contains `I`, so the locale changes no lookup.
- `Portfolio.GetNetWorth`: `HashMap` order is modelled as an arbitrary choice of the next key. The contract holds for every order.
- `Trading.BuyKeepsSolvent` needs "no `int` overflow of the new holding" as a hypothesis: without it the wrapped holding turns negative (`Trading.HoldingOverflowBreaksSolvency`).
- `Trading.BuyAtQuoteKeepsNetWorth` needs "no `int` overflow of the new holding": a wrapped holding is worth a different amount from the cash paid for it.
- `Trading.SellAtQuoteKeepsNetWorth` needs "no `int` overflow of the new holding" for the same reason (selling `Integer.MIN_VALUE` shares wraps `have - qty`).
- `Trading.BuyThenSellRestores` needs the buy to be made, the starting holding to be non-negative and no `int` overflow of the new holding. A refused buy makes the sell act alone. From a negative holding `have`, the buy leaves `have + qty < qty`, so the sell is refused. A wrapped holding no longer covers the sell.

## Findings

| source | as written | input that shows it | evidently intended | confidence | as-written member | corrected member |
|---|---|---|---|---|---|---|
| src/StudentGradeTracker.java:55-56 | `if (s.grade < lowest) ;` has an empty body, so `lowest = s.grade;` runs for every student | grades [1, 2]: "Lowest Score" is 2 | `lowest` is replaced only by a smaller grade, giving 1 | high; not executed | `GradeTracker.ComputeStatistics`, `GradeTracker.LowestIsLastNotMinimum` | `GradeTracker.ComputeStatisticsFixed` |
