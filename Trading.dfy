/** The accounting core of the stock-trading simulator: stocks, the transaction log and the
    portfolio (cash, holdings, history) with its buy, sell and net-worth operations.

    Money (cash and prices) is exact `real` arithmetic. Share quantities are Java `int`s, so
    the holdings update wraps around exactly as the source's `int` addition does. */
module Trading {
  import opened JavaInt

  /** A tradable instrument. The symbol never changes; the price is the mutable quote. */
  class Stock {
    const symbol: string
    var price: real

    constructor (symbol: string, initPrice: real)
      ensures this.symbol == symbol && price == initPrice
    {
      this.symbol := symbol;
      price := initPrice;
    }
  }

  /** The two kinds of log entry ("BUY" / "SELL" in the source). */
  datatype Side = Buy | Sell

  /** One executed trade, with the price at the time of the trade. */
  datatype Transaction = Transaction(symbol: string, side: Side, quantity: Int32, price: real)

  /** The whole state of a portfolio, as a value. */
  datatype Snapshot = Snapshot(cash: real, holdings: map<string, Int32>, history: seq<Transaction>)

  /** The money `qty` shares at `price` are worth (`price * qty` in the source). */
  function Value(price: real, qty: int): real {
    price * qty as real
  }

  /** Shares at a non-negative price are worth a non-negative amount. */
  lemma ValueNonNegative(price: real, qty: int)
    requires price >= 0.0 && qty >= 0
    ensures Value(price, qty) >= 0.0
  {
  }

  /** `holdings.getOrDefault(sym, 0)`. */
  function Held(holdings: map<string, Int32>, sym: string): Int32 {
    if sym in holdings then holdings[sym] else 0
  }

  /** The state after `buy(stock, qty)` at the given price: all of it, or nothing when the
      cost exceeds the cash. */
  function AfterBuy(s: Snapshot, sym: string, price: real, qty: Int32): (r: Snapshot)
    ensures Value(price, qty) > s.cash ==> r == s
    ensures Value(price, qty) <= s.cash ==>
              && r.cash == s.cash - Value(price, qty)
              && Held(r.holdings, sym) == Wrap32(Held(s.holdings, sym) + qty)
              && r.history == s.history + [Transaction(sym, Buy, qty, price)]
  {
    var cost := Value(price, qty);
    if cost > s.cash then s
    else Snapshot(s.cash - cost,
                  s.holdings[sym := Wrap32(Held(s.holdings, sym) + qty)],
                  s.history + [Transaction(sym, Buy, qty, price)])
  }

  /** The state after `sell(stock, qty)` at the given price: all of it, or nothing when more
      shares are asked for than are held. */
  function AfterSell(s: Snapshot, sym: string, price: real, qty: Int32): (r: Snapshot)
    ensures qty > Held(s.holdings, sym) ==> r == s
    ensures qty <= Held(s.holdings, sym) ==>
              && r.cash == s.cash + Value(price, qty)
              && Held(r.holdings, sym) == Wrap32(Held(s.holdings, sym) - qty)
              && r.history == s.history + [Transaction(sym, Sell, qty, price)]
  {
    var have := Held(s.holdings, sym);
    if qty > have then s
    else Snapshot(s.cash + Value(price, qty),
                  s.holdings[sym := Wrap32(have - qty)],
                  s.history + [Transaction(sym, Sell, qty, price)])
  }

  // ---------- Invariants: no negative cash or holdings, no leakage ----------

  /** Neither the cash nor any holding is negative. */
  ghost predicate Solvent(s: Snapshot) {
    s.cash >= 0.0 && forall sym :: sym in s.holdings ==> s.holdings[sym] >= 0
  }

  /** The cash a trade moves: out for a buy, in for a sell. */
  function Flow(t: Transaction): real {
    match t.side
    case Buy => -(Value(t.price, t.quantity))
    case Sell => Value(t.price, t.quantity)
  }

  /** The total cash the history has moved, oldest entry first. */
  function CashFlow(history: seq<Transaction>): real {
    if history == [] then 0.0 else CashFlow(history[..|history| - 1]) + Flow(history[|history| - 1])
  }

  /** The change in the holding of `sym` that a trade makes. */
  function Delta(t: Transaction, sym: string): int {
    if t.symbol != sym then 0
    else match t.side
      case Buy => t.quantity as int
      case Sell => -(t.quantity as int)
  }

  /** The exact net number of `sym` shares the history has bought. */
  function NetQuantity(history: seq<Transaction>, sym: string): int {
    if history == [] then 0 else NetQuantity(history[..|history| - 1], sym) + Delta(history[|history| - 1], sym)
  }

  /** The holdings map that replaying the history on an empty portfolio produces, each trade
      applied the way `buy` and `sell` apply it: read the held quantity (0 if absent), add or
      subtract the traded quantity as a Java `int`, and write it back. */
  function Replay(history: seq<Transaction>): map<string, Int32> {
    if history == [] then map[]
    else
      var t, before := history[|history| - 1], Replay(history[..|history| - 1]);
      before[t.symbol := Wrap32(Held(before, t.symbol) + Delta(t, t.symbol))]
  }

  /** The ledger agrees with the balance: the cash is the initial cash plus what the history
      moved, and the holdings are exactly what replaying the history gives. */
  ghost predicate Consistent(s: Snapshot, initialCash: real) {
    s.cash == initialCash + CashFlow(s.history) && s.holdings == Replay(s.history)
  }

  /** A fresh portfolio holds nothing, has traded nothing and is consistent with its cash. */
  lemma {:induction false} OpeningIsConsistent(initialCash: real)
    ensures Consistent(Snapshot(initialCash, map[], []), initialCash)
    ensures initialCash >= 0.0 ==> Solvent(Snapshot(initialCash, map[], []))
  {
  }

  /** Appending one trade to a history adds its cash flow and replays it on the holdings. */
  lemma {:induction false} AppendTrade(history: seq<Transaction>, t: Transaction)
    ensures CashFlow(history + [t]) == CashFlow(history) + Flow(t)
    ensures Replay(history + [t]) == Replay(history)[t.symbol := Wrap32(Held(Replay(history), t.symbol) + Delta(t, t.symbol))]
  {
    assert (history + [t])[..|history|] == history;
  }

  /** Every replayed holding is the exact net quantity the history traded in that symbol,
      wrapped once to a Java `int`: the per-trade wrap-around loses nothing more. */
  lemma {:induction false} ReplayHoldsNetQuantity(history: seq<Transaction>, sym: string)
    ensures Held(Replay(history), sym) == Wrap32(NetQuantity(history, sym))
  {
    if history != [] {
      var prefix, t := history[..|history| - 1], history[|history| - 1];
      ReplayHoldsNetQuantity(prefix, sym);
      if t.symbol == sym {
        WrapAdd(NetQuantity(prefix, sym), Delta(t, sym));
      }
    }
  }

  /** `buy` keeps the ledger consistent, whatever the price and quantity. */
  lemma {:induction false} BuyKeepsLedger(s: Snapshot, initialCash: real, sym: string, price: real, qty: Int32)
    requires Consistent(s, initialCash)
    ensures Consistent(AfterBuy(s, sym, price, qty), initialCash)
  {
    if Value(price, qty) <= s.cash {
      AppendTrade(s.history, Transaction(sym, Buy, qty, price));
    }
  }

  /** `sell` keeps the ledger consistent, whatever the price and quantity. */
  lemma {:induction false} SellKeepsLedger(s: Snapshot, initialCash: real, sym: string, price: real, qty: Int32)
    requires Consistent(s, initialCash)
    ensures Consistent(AfterSell(s, sym, price, qty), initialCash)
  {
    if qty <= Held(s.holdings, sym) {
      AppendTrade(s.history, Transaction(sym, Sell, qty, price));
    }
  }

  /** With a non-negative quantity and no `int` overflow of the new holding, `buy` keeps cash
      and holdings non-negative, whatever the price: a buy that is made never costs more than
      the cash, and at a negative price it only adds cash. */
  lemma BuyKeepsSolvent(s: Snapshot, sym: string, price: real, qty: Int32)
    requires Solvent(s) && qty >= 0
    requires Held(s.holdings, sym) + qty <= MAX_INT
    ensures Solvent(AfterBuy(s, sym, price, qty))
  {
  }

  /** With a non-negative price and quantity, `sell` keeps cash and holdings non-negative. */
  lemma SellKeepsSolvent(s: Snapshot, sym: string, price: real, qty: Int32)
    requires Solvent(s) && price >= 0.0 && qty >= 0
    ensures Solvent(AfterSell(s, sym, price, qty))
  {
    ValueNonNegative(price, qty);
  }

  /** The quantity is never checked: a negative `buy` leaves a negative holding, and a
      negative `sell` of a share never held drives the cash below zero. */
  lemma NegativeQuantityBreaksSolvency()
    ensures var s := Snapshot(0.0, map[], []);
            && Solvent(s)
            && Held(AfterBuy(s, "AAPL", 150.0, -1).holdings, "AAPL") == -1
            && AfterSell(s, "AAPL", 150.0, -1).cash == -150.0
  {
  }

  /** A negative price would let `sell` drive the cash below zero: selling one share at -1
      from no cash leaves -1. No price in the market is negative, since they start positive and
      only the random daily update changes them. */
  lemma NegativePriceBreaksSolvency()
    ensures var s := Snapshot(0.0, map["AAPL" := 1], []);
            && Solvent(s)
            && AfterSell(s, "AAPL", -1.0, 1).cash == -1.0
  {
  }

  /** Buying past `Integer.MAX_VALUE` shares wraps the holding round to a negative number. */
  lemma HoldingOverflowBreaksSolvency()
    ensures var s := Snapshot(1.0, map["AAPL" := MAX_INT], []);
            && Solvent(s)
            && Held(AfterBuy(s, "AAPL", 0.01, 1).holdings, "AAPL") == MIN_INT
  {
  }

  /** A trade touches only the traded symbol's holding and only appends to the history. */
  lemma TradesTouchOnlyTheirSymbol(s: Snapshot, sym: string, price: real, qty: Int32)
    ensures forall other :: other != sym ==>
              && Held(AfterBuy(s, sym, price, qty).holdings, other) == Held(s.holdings, other)
              && Held(AfterSell(s, sym, price, qty).holdings, other) == Held(s.holdings, other)
    ensures AfterBuy(s, sym, price, qty).history[..|s.history|] == s.history
    ensures AfterSell(s, sym, price, qty).history[..|s.history|] == s.history
    ensures |AfterBuy(s, sym, price, qty).history| <= |s.history| + 1
    ensures |AfterSell(s, sym, price, qty).history| <= |s.history| + 1
  {
  }

  // ---------- Net worth: cash plus holdings marked to market ----------

  /** What the holding of `sym` is worth at the given prices; nothing when it is not quoted. */
  function Worth(holdings: map<string, Int32>, prices: map<string, real>, sym: string): real {
    if sym in holdings && sym in prices then Value(prices[sym], holdings[sym]) else 0.0
  }

  /** The worth of the holdings of the given symbols, summed in an arbitrary order. */
  ghost function SumOver(syms: set<string>, holdings: map<string, Int32>, prices: map<string, real>): real
    decreases syms
  {
    if syms == {} then 0.0
    else var sym :| sym in syms; Worth(holdings, prices, sym) + SumOver(syms - {sym}, holdings, prices)
  }

  /** The net worth: cash plus every holding worth its quoted price. Holdings of symbols that
      are not quoted add nothing, so a portfolio holding only such symbols is worth its cash. */
  ghost function NetWorth(s: Snapshot, prices: map<string, real>): (r: real)
    ensures (forall sym :: sym in s.holdings ==> sym !in prices) ==> r == s.cash
  {
    SumOverUnquoted(s.holdings.Keys, s.holdings, prices);
    s.cash + SumOver(s.holdings.Keys, s.holdings, prices)
  }

  /** Symbols without a quote contribute nothing to the sum. */
  lemma {:induction false} SumOverUnquoted(syms: set<string>, holdings: map<string, Int32>, prices: map<string, real>)
    ensures (forall sym :: sym in syms ==> sym !in prices) ==> SumOver(syms, holdings, prices) == 0.0
    decreases syms
  {
    if syms != {} && forall sym :: sym in syms ==> sym !in prices {
      var sym :| sym in syms;
      SumOverRemove(syms, sym, holdings, prices);
      SumOverUnquoted(syms - {sym}, holdings, prices);
    }
  }

  /** The sum does not depend on the order: any symbol can be taken out first. */
  lemma {:induction false} SumOverRemove(syms: set<string>, sym: string, holdings: map<string, Int32>, prices: map<string, real>)
    requires sym in syms
    ensures SumOver(syms, holdings, prices) == Worth(holdings, prices, sym) + SumOver(syms - {sym}, holdings, prices)
    decreases syms
  {
    var first :| first in syms && SumOver(syms, holdings, prices) ==
      Worth(holdings, prices, first) + SumOver(syms - {first}, holdings, prices);
    if first != sym {
      SumOverRemove(syms - {first}, sym, holdings, prices);
      SumOverRemove(syms - {sym}, first, holdings, prices);
      assert syms - {first} - {sym} == syms - {sym} - {first};
    }
  }

  /** Two holdings maps worth the same on every symbol summed have the same sum. */
  lemma {:induction false} SumOverAgree(syms: set<string>, h1: map<string, Int32>, h2: map<string, Int32>, prices: map<string, real>)
    requires forall sym :: sym in syms ==> Worth(h1, prices, sym) == Worth(h2, prices, sym)
    ensures SumOver(syms, h1, prices) == SumOver(syms, h2, prices)
    decreases syms
  {
    if syms != {} {
      var sym :| sym in syms;
      SumOverRemove(syms, sym, h1, prices);
      SumOverRemove(syms, sym, h2, prices);
      SumOverAgree(syms - {sym}, h1, h2, prices);
    }
  }

  /** With non-negative holdings and prices, every partial sum is non-negative. */
  lemma {:induction false} SumOverNonNegative(syms: set<string>, holdings: map<string, Int32>, prices: map<string, real>)
    requires forall sym :: sym in holdings ==> holdings[sym] >= 0
    requires forall sym :: sym in prices ==> prices[sym] >= 0.0
    ensures SumOver(syms, holdings, prices) >= 0.0
    decreases syms
  {
    if syms != {} {
      var sym :| sym in syms;
      SumOverRemove(syms, sym, holdings, prices);
      SumOverNonNegative(syms - {sym}, holdings, prices);
      if sym in holdings && sym in prices {
        ValueNonNegative(prices[sym], holdings[sym]);
      }
    }
  }

  /** Writing one holding changes the valuation by exactly the change in that holding's worth. */
  lemma {:induction false} ValuationUpdate(holdings: map<string, Int32>, sym: string, v: Int32, prices: map<string, real>)
    ensures var h := holdings[sym := v];
            SumOver(h.Keys, h, prices)
            == SumOver(holdings.Keys, holdings, prices) - Worth(holdings, prices, sym) + Worth(h, prices, sym)
  {
    var h := holdings[sym := v];
    SumOverRemove(h.Keys, sym, h, prices);
    SumOverAgree(h.Keys - {sym}, h, holdings, prices);
    if sym in holdings {
      SumOverRemove(holdings.Keys, sym, holdings, prices);
      assert h.Keys - {sym} == holdings.Keys - {sym};
    } else {
      assert h.Keys - {sym} == holdings.Keys;
    }
  }

  /** A solvent portfolio at non-negative prices has a non-negative net worth. */
  lemma NetWorthOfSolventIsNonNegative(s: Snapshot, prices: map<string, real>)
    requires Solvent(s)
    requires forall sym :: sym in prices ==> prices[sym] >= 0.0
    ensures NetWorth(s, prices) >= 0.0
  {
    SumOverNonNegative(s.holdings.Keys, s.holdings, prices);
  }

  /** Multiplying a price by a sum of quantities. */
  lemma Distribute(price: real, a: int, b: int)
    ensures Value(price, a + b) == Value(price, a) + Value(price, b)
  {
  }

  /** Exchanging cash for a change in one holding of equal worth leaves the net worth unchanged. */
  lemma {:induction false} ExchangeKeepsNetWorth(s: Snapshot, r: Snapshot, sym: string, prices: map<string, real>)
    requires sym in r.holdings && r.holdings == s.holdings[sym := r.holdings[sym]]
    requires r.cash + Worth(r.holdings, prices, sym) == s.cash + Worth(s.holdings, prices, sym)
    ensures NetWorth(r, prices) == NetWorth(s, prices)
  {
    ValuationUpdate(s.holdings, sym, r.holdings[sym], prices);
  }

  /** Buying at the quoted price swaps cash for shares of equal worth: the net worth is unchanged
      (when the new holding does not overflow). */
  lemma BuyAtQuoteKeepsNetWorth(s: Snapshot, sym: string, prices: map<string, real>, qty: Int32)
    requires sym in prices
    requires MIN_INT <= Held(s.holdings, sym) + qty <= MAX_INT
    ensures NetWorth(AfterBuy(s, sym, prices[sym], qty), prices) == NetWorth(s, prices)
  {
    var r := AfterBuy(s, sym, prices[sym], qty);
    if r != s {
      var price, have := prices[sym], Held(s.holdings, sym);
      assert r.holdings[sym] == have + qty;
      assert Worth(r.holdings, prices, sym) == Worth(s.holdings, prices, sym) + Value(price, qty) by {
        Distribute(price, have, qty);
      }
      ExchangeKeepsNetWorth(s, r, sym, prices);
    }
  }

  /** Selling at the quoted price swaps shares for cash of equal worth: the net worth is unchanged
      (when the new holding does not overflow). */
  lemma SellAtQuoteKeepsNetWorth(s: Snapshot, sym: string, prices: map<string, real>, qty: Int32)
    requires sym in prices
    requires MIN_INT <= Held(s.holdings, sym) - qty <= MAX_INT
    ensures NetWorth(AfterSell(s, sym, prices[sym], qty), prices) == NetWorth(s, prices)
  {
    var r := AfterSell(s, sym, prices[sym], qty);
    if r != s {
      var price, have := prices[sym], Held(s.holdings, sym);
      assert r.holdings[sym] == have - qty;
      assert Worth(r.holdings, prices, sym) + Value(price, qty) == Worth(s.holdings, prices, sym) by {
        Distribute(price, have - qty, qty);
      }
      ExchangeKeepsNetWorth(s, r, sym, prices);
    }
  }

  /** A successful `buy(sym, qty)` followed by `sell(sym, qty)` at the same price restores the
      cash, the holding and the net worth at any quotes; the history records both trades.
      The holding must start non-negative: from a negative holding `have`, a buy of `qty`
      leaves `have + qty < qty` shares, so `sell` refuses the second trade. */
  lemma BuyThenSellRestores(s: Snapshot, sym: string, price: real, qty: Int32, prices: map<string, real>)
    requires Value(price, qty) <= s.cash
    requires 0 <= Held(s.holdings, sym) && Held(s.holdings, sym) + qty <= MAX_INT
    ensures var r := AfterSell(AfterBuy(s, sym, price, qty), sym, price, qty);
            && r.cash == s.cash
            && (forall other :: Held(r.holdings, other) == Held(s.holdings, other))
            && r.history == s.history + [Transaction(sym, Buy, qty, price), Transaction(sym, Sell, qty, price)]
            && NetWorth(r, prices) == NetWorth(s, prices)
  {
    var have := Held(s.holdings, sym);
    var r := AfterSell(AfterBuy(s, sym, price, qty), sym, price, qty);
    assert r.holdings == s.holdings[sym := have];
    ValuationUpdate(s.holdings, sym, have, prices);
  }

  // ---------- The portfolio object ----------

  /** The portfolio: cash, a symbol-to-quantity map and an append-only trade log, updated in place. */
  class Portfolio {
    var cash: real
    var holdings: map<string, Int32>
    var history: seq<Transaction>
    ghost const initialCash: real

    /** The portfolio's state as a value. */
    function Model(): Snapshot
      reads this
    {
      Snapshot(cash, holdings, history)
    }

    /** The ledger is consistent with the opening cash. */
    ghost predicate Valid()
      reads this
    {
      Consistent(Model(), initialCash)
    }

    constructor (initialCash: real)
      ensures Valid() && this.initialCash == initialCash
      ensures cash == initialCash && holdings == map[] && history == []
    {
      cash := initialCash;
      holdings := map[];
      history := [];
      this.initialCash := initialCash;
      new;
      OpeningIsConsistent(initialCash);
    }

    /** `buy`: pay `price * qty` for `qty` shares if the cash covers it; otherwise change nothing. */
    method Buy(stock: Stock, qty: Int32) returns (bought: bool)
      requires Valid()
      modifies this
      ensures Valid()
      ensures Model() == AfterBuy(old(Model()), stock.symbol, stock.price, qty)
      ensures bought == (Value(stock.price, qty) <= old(cash))
      ensures bought ==> && cash == old(cash) - Value(stock.price, qty)
                         && holdings == old(holdings)[stock.symbol := Wrap32(Held(old(holdings), stock.symbol) + qty)]
                         && history == old(history) + [Transaction(stock.symbol, Side.Buy, qty, stock.price)]
      ensures !bought ==> cash == old(cash) && holdings == old(holdings) && history == old(history)
    {
      var sym, price := stock.symbol, stock.price;
      ghost var after := AfterBuy(Model(), sym, price, qty);
      BuyKeepsLedger(Model(), initialCash, sym, price, qty);
      var cost := Value(price, qty);
      if cost > cash {
        return false;
      }
      cash := cash - cost;
      holdings := holdings[sym := Wrap32(Held(holdings, sym) + qty)];
      history := history + [Transaction(sym, Side.Buy, qty, price)];
      bought := true;
      assert Model() == after;
    }

    /** `sell`: receive `price * qty` for `qty` held shares; asking for more than is held changes nothing. */
    method Sell(stock: Stock, qty: Int32) returns (sold: bool)
      requires Valid()
      modifies this
      ensures Valid()
      ensures Model() == AfterSell(old(Model()), stock.symbol, stock.price, qty)
      ensures sold == (qty <= Held(old(holdings), stock.symbol))
      ensures sold ==> && holdings == old(holdings)[stock.symbol := Wrap32(Held(old(holdings), stock.symbol) - qty)]
                       && cash == old(cash) + Value(stock.price, qty)
                       && history == old(history) + [Transaction(stock.symbol, Side.Sell, qty, stock.price)]
      ensures !sold ==> cash == old(cash) && holdings == old(holdings) && history == old(history)
    {
      var sym, price := stock.symbol, stock.price;
      ghost var after := AfterSell(Model(), sym, price, qty);
      SellKeepsLedger(Model(), initialCash, sym, price, qty);
      var have := Held(holdings, sym);
      if qty > have {
        return false;
      }
      holdings := holdings[sym := Wrap32(have - qty)];
      var revenue := Value(price, qty);
      cash := cash + revenue;
      history := history + [Transaction(sym, Side.Sell, qty, price)];
      sold := true;
      assert Model() == after;
    }

    /** `getNetWorth`: the cash plus each holding at its market price, visiting the holdings in
        whatever order the map yields them; symbols missing from the market count as nothing. */
    method GetNetWorth(market: map<string, Stock>) returns (total: real)
      ensures total == NetWorth(Model(), Prices(market))
    {
      ghost var prices := Prices(market);
      total := cash;
      var rest := holdings.Keys;
      while rest != {}
        invariant rest <= holdings.Keys
        invariant total + SumOver(rest, holdings, prices) == NetWorth(Model(), prices)
        decreases rest
      {
        var sym :| sym in rest;
        SumOverRemove(rest, sym, holdings, prices);
        var qty := holdings[sym];
        if sym in market {
          var s := market[sym];
          total := total + Value(s.price, qty);
        }
        rest := rest - {sym};
      }
    }
  }

  /** The quoted price of every stock in the market. */
  function Prices(market: map<string, Stock>): map<string, real>
    reads market.Values
  {
    map sym | sym in market :: market[sym].price
  }
}
