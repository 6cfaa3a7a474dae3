/** The trading front end: the market of stocks, the user's portfolio, and the symbol lookup
    that accepts or rejects a buy or sell request before the portfolio is touched. */
module TradingPlatform {
  import opened JavaInt
  import opened Trading

  /** An ASCII letter's upper-case form; every other character is unchanged. */
  function UpperChar(c: char): char {
    if 'a' <= c <= 'z' then (c as int - 32) as char else c
  }

  /** `String.toUpperCase` on the ASCII letters: each character is upper-cased in place. */
  function ToUpper(s: string): (r: string)
    ensures |r| == |s|
    ensures forall i :: 0 <= i < |s| ==> r[i] == UpperChar(s[i])
  {
    if s == [] then [] else [UpperChar(s[0])] + ToUpper(s[1..])
  }

  /** Upper-casing leaves no lower-case ASCII letter behind, so doing it twice is doing it once. */
  lemma ToUpperIsIdempotent(s: string)
    ensures forall i :: 0 <= i < |s| ==> !('a' <= ToUpper(s)[i] <= 'z')
    ensures ToUpper(ToUpper(s)) == ToUpper(s)
  {
  }

  /** How a buy or sell request ended: the symbol was not in the market, the portfolio refused
      the trade (not enough cash or shares), or the trade was made. */
  datatype Outcome = NotFound | Refused | Done

  class Platform {
    const market: map<string, Stock>
    const portfolio: Portfolio

    /** Every stock is filed under its own symbol, and the portfolio's ledger is consistent. */
    ghost predicate Valid()
      reads this, portfolio
    {
      (forall sym :: sym in market ==> market[sym].symbol == sym) && portfolio.Valid()
    }

    /** The sample start: four quoted stocks and 10000 in cash. */
    constructor ()
      ensures Valid() && fresh(portfolio)
      ensures market.Keys == {"AAPL", "GOOG", "TSLA", "AMZN"}
      ensures market["AAPL"].price == 150.0 && market["GOOG"].price == 2800.0
      ensures market["TSLA"].price == 700.0 && market["AMZN"].price == 3300.0
      ensures portfolio.Model() == Snapshot(10000.0, map[], [])
    {
      var aapl := new Stock("AAPL", 150.0);
      var goog := new Stock("GOOG", 2800.0);
      var tsla := new Stock("TSLA", 700.0);
      var amzn := new Stock("AMZN", 3300.0);
      market := map["AAPL" := aapl, "GOOG" := goog, "TSLA" := tsla, "AMZN" := amzn];
      portfolio := new Portfolio(10000.0);
    }

    /** `buyStock`: upper-case the symbol, look it up, and only for a listed stock ask the portfolio to buy. */
    method BuyStock(input: string, qty: Int32) returns (outcome: Outcome)
      requires Valid()
      modifies portfolio
      ensures Valid()
      ensures ToUpper(input) !in market ==> outcome == NotFound && portfolio.Model() == old(portfolio.Model())
      ensures ToUpper(input) in market ==>
                var sym := ToUpper(input);
                && portfolio.Model() == AfterBuy(old(portfolio.Model()), sym, market[sym].price, qty)
                && (outcome == Done <==> Value(market[sym].price, qty) <= old(portfolio.cash))
                && outcome != NotFound
    {
      var sym := ToUpper(input);
      if sym !in market {
        return NotFound;
      }
      var s := market[sym];
      var bought := portfolio.Buy(s, qty);
      outcome := if bought then Done else Refused;
    }

    /** `sellStock`: upper-case the symbol, look it up, and only for a listed stock ask the portfolio to sell. */
    method SellStock(input: string, qty: Int32) returns (outcome: Outcome)
      requires Valid()
      modifies portfolio
      ensures Valid()
      ensures ToUpper(input) !in market ==> outcome == NotFound && portfolio.Model() == old(portfolio.Model())
      ensures ToUpper(input) in market ==>
                var sym := ToUpper(input);
                && portfolio.Model() == AfterSell(old(portfolio.Model()), sym, market[sym].price, qty)
                && (outcome == Done <==> qty <= Held(old(portfolio.holdings), sym))
                && outcome != NotFound
    {
      var sym := ToUpper(input);
      if sym !in market {
        return NotFound;
      }
      var s := market[sym];
      var sold := portfolio.Sell(s, qty);
      outcome := if sold then Done else Refused;
    }
  }

  /** A worked example: the ticker typed as "aapl" resolves to "AAPL";
      from 10000 in cash, buying 10 at 150 leaves 8500 and 10 shares, and then selling 5 at 150
      leaves 9250 and 5 shares, with two trades logged. */
  lemma SampleSession()
    ensures ToUpper("aapl") == "AAPL"
    ensures var s1 := AfterBuy(Snapshot(10000.0, map[], []), "AAPL", 150.0, 10);
            && s1.cash == 8500.0 && Held(s1.holdings, "AAPL") == 10 && |s1.history| == 1
            && var s2 := AfterSell(s1, "AAPL", 150.0, 5);
               s2.cash == 9250.0 && Held(s2.holdings, "AAPL") == 5 && |s2.history| == 2
  {
    var r := ToUpper("aapl");
    assert r[0] == 'A' && r[1] == 'A' && r[2] == 'P' && r[3] == 'L';
  }
}
