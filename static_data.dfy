/**
 * The static-data arbitrage of api/static_data.py: rate lookups in a table
 * read from a JSON file (here a parameter), conversion, and the three-hop
 * search whose profit is a fraction compared with a fractional threshold.
 */
module StaticData {
  import opened Wrappers
  import opened Sequences

  /** The `rates` object of rates.json: source id → target id → rate. */
  type RateData = map<string, map<string, real>>

  /** Whether `rates[source][target]` is stored. */
  predicate Stored(rates: RateData, source: string, target: string)
  {
    source in rates && target in rates[source]
  }

  /** `get_exchange_rate` (api/static_data.py:109-132). */
  function ExchangeRate(rates: RateData, source: string, target: string): real
  {
    if Stored(rates, source, target) then rates[source][target]
    else if Stored(rates, target, source) then
      var inverse := rates[target][source];
      if inverse > 0.0 then 1.0 / inverse else 0.0
    else 0.0
  }

  /** A stored direct entry is returned as it is, whatever the reverse entry holds. */
  lemma DirectWins(rates: RateData, source: string, target: string)
    requires Stored(rates, source, target)
    ensures ExchangeRate(rates, source, target) == rates[source][target]
  {
  }

  /**
   * Without a direct entry, the rate is the reciprocal of a positive reverse
   * entry, so the two directions multiply to one; it is zero when the
   * reverse entry is missing or not positive.
   */
  lemma InverseLookup(rates: RateData, source: string, target: string)
    requires !Stored(rates, source, target)
    ensures Stored(rates, target, source) && rates[target][source] > 0.0 ==>
      ExchangeRate(rates, source, target) * ExchangeRate(rates, target, source) == 1.0
    ensures ExchangeRate(rates, source, target) != 0.0 <==> Stored(rates, target, source) && rates[target][source] > 0.0
  {
    if Stored(rates, target, source) && rates[target][source] > 0.0 {
      var r := rates[target][source];
      assert ExchangeRate(rates, source, target) == 1.0 / r;
      assert ExchangeRate(rates, target, source) == r;
    }
  }

  /** `convert_currency` (api/static_data.py:135-151). */
  function ConvertCurrency(rates: RateData, amount: real, source: string, target: string): real
  {
    if source == target then amount
    else
      var rate := ExchangeRate(rates, source, target);
      if rate > 0.0 then amount * rate else 0.0
  }

  /**
   * Converting to the same currency keeps the amount whatever the table
   * holds; otherwise the amount is multiplied by a positive rate, and it is
   * zero (no error) when there is none.
   */
  lemma ConvertMeaning(rates: RateData, amount: real, source: string, target: string)
    ensures source == target ==> ConvertCurrency(rates, amount, source, target) == amount
    ensures source != target && ExchangeRate(rates, source, target) <= 0.0 ==> ConvertCurrency(rates, amount, source, target) == 0.0
    ensures source != target && ExchangeRate(rates, source, target) > 0.0 ==>
      ConvertCurrency(rates, amount, source, target) == amount * ExchangeRate(rates, source, target)
  {
  }

  /** With a positive rate stored in one direction only, converting there and back returns the amount. */
  lemma ConvertRoundTrip(rates: RateData, amount: real, source: string, target: string)
    requires source != target && Stored(rates, source, target) && !Stored(rates, target, source)
    requires rates[source][target] > 0.0
    ensures ConvertCurrency(rates, ConvertCurrency(rates, amount, source, target), target, source) == amount
  {
    var r := rates[source][target];
    assert ConvertCurrency(rates, amount, source, target) == amount * r;
    assert ExchangeRate(rates, target, source) == 1.0 / r;
    assert amount * r * (1.0 / r) == amount;
  }

  /** The integer nearest to `y`, ties going to the even one, as Python's `round` does. */
  function HalfEven(y: real): (n: int)
    ensures y - 0.5 <= n as real <= y + 0.5
    ensures (n as real == y - 0.5 || n as real == y + 0.5) ==> n % 2 == 0
    ensures y == y.Floor as real ==> n == y.Floor
  {
    var f := y.Floor;
    var d := y - f as real;
    if d > 0.5 then f + 1
    else if d < 0.5 then f
    else if f % 2 == 0 then f
    else f + 1
  }

  /** `round(x, n)` on the real value `x`, where `scale` is 10 to the power n. */
  function RoundScaled(x: real, scale: real): real
    requires scale > 0.0
  {
    HalfEven(x * scale) as real / scale
  }

  /** `round(x, 2)`. */
  function Round2(x: real): real
  {
    RoundScaled(x, 100.0)
  }

  /** `round(x, 4)`. */
  function Round4(x: real): real
  {
    RoundScaled(x, 10000.0)
  }

  /** Rounding moves a value by at most half a unit in the last kept place. */
  lemma RoundBound(x: real, scale: real)
    requires scale > 0.0
    ensures x - 0.5 / scale <= RoundScaled(x, scale) <= x + 0.5 / scale
  {
    var n := HalfEven(x * scale) as real;
    ScaleBack(n, x, scale);
  }

  lemma ScaleBack(n: real, x: real, p: real)
    requires p > 0.0 && x * p - 0.5 <= n <= x * p + 0.5
    ensures x - 0.5 / p <= n / p <= x + 0.5 / p
  {
    assert n / p - (x - 0.5 / p) == (n - (x * p - 0.5)) / p;
    assert (x + 0.5 / p) - n / p == ((x * p + 0.5) - n) / p;
  }

  /** A value that already has no more decimals than the scale keeps is left as it is. */
  lemma RoundExact(x: real, scale: real)
    requires scale > 0.0 && x * scale == (x * scale).Floor as real
    ensures RoundScaled(x, scale) == x
  {
    assert HalfEven(x * scale) as real == x * scale;
    assert x * scale / scale == x;
  }

  /** One step of a reported path. */
  datatype StaticStep = StaticStep(source: string, target: string, rate: real, amountIn: real, amountOut: real)

  /** One reported opportunity (without its `path_description` text). */
  datatype StaticOpportunity = StaticOpportunity(
    path: seq<string>,
    startingAmount: real,
    finalAmount: real,
    profitAmount: real,
    profitPercentage: real,
    steps: seq<StaticStep>)

  function PercentageOf(o: StaticOpportunity): real
  {
    o.profitPercentage
  }

  /** The profit as a fraction of the starting amount, zero for a non-positive amount. */
  function Fraction(profit: real, amount: real): real
  {
    if amount > 0.0 then profit / amount else 0.0
  }

  /** `amount` exchanged at `rate`. */
  function Exchanged(amount: real, rate: real): real
  {
    amount * rate
  }

  /** The final amount of the path start → b → c → start. */
  function PathFinal(rates: RateData, start: string, b: string, c: string, amount: real): real
  {
    Exchanged(Exchanged(Exchanged(amount, ExchangeRate(rates, start, b)), ExchangeRate(rates, b, c)), ExchangeRate(rates, c, start))
  }

  /**
   * The dictionary `find_arbitrage_opportunities` appends for the path
   * start → b → c → start, from its rates and amounts: the amounts after the
   * first hop are rounded to four decimals and the percentage, the profit
   * fraction times 100, to two.
   */
  function Report(start: string, b: string, c: string, amount: real, ab: real, bc: real, ca: real,
                  amountB: real, amountC: real, final: real, profit: real, fraction: real): StaticOpportunity
  {
    StaticOpportunity(
      [start, b, c, start], amount, Round4(final), Round4(profit), Round2(fraction * 100.0),
      [StaticStep(start, b, ab, amount, Round4(amountB)),
       StaticStep(b, c, bc, Round4(amountB), Round4(amountC)),
       StaticStep(c, start, ca, Round4(amountC), Round4(final))])
  }

  /**
   * The body of the inner loop of `find_arbitrage_opportunities`
   * (api/static_data.py:187-245): the opportunity of the path
   * start → b → c → start, or None when a rate is not positive or the
   * profit fraction falls short of `minProfit`.
   */
  function PathOpportunity(rates: RateData, start: string, b: string, c: string, amount: real, minProfit: real): (r: Option<StaticOpportunity>)
    ensures r.Some? <==>
        && ExchangeRate(rates, start, b) > 0.0 && ExchangeRate(rates, b, c) > 0.0 && ExchangeRate(rates, c, start) > 0.0
        && Fraction(PathFinal(rates, start, b, c, amount) - amount, amount) >= minProfit
  {
    var ab := ExchangeRate(rates, start, b);
    var bc := ExchangeRate(rates, b, c);
    var ca := ExchangeRate(rates, c, start);
    if ab <= 0.0 || bc <= 0.0 || ca <= 0.0 then None
    else
      var amountB := Exchanged(amount, ab);
      var amountC := Exchanged(amountB, bc);
      var final := Exchanged(amountC, ca);
      var profit := final - amount;
      var fraction := Fraction(profit, amount);
      if fraction < minProfit then None
      else Some(Report(start, b, c, amount, ab, bc, ca, amountB, amountC, final, profit, fraction))
  }

  /**
   * A reported path start → b → c → start lists its three hops in order,
   * each at the positive rate `ExchangeRate` gives, each hop starting with
   * what the previous one ended with; its final amount and percentage are
   * the rounded path product and profit fraction.
   */
  lemma PathReportShape(rates: RateData, start: string, b: string, c: string, amount: real, minProfit: real)
    requires PathOpportunity(rates, start, b, c, amount, minProfit).Some?
    ensures
      var o := PathOpportunity(rates, start, b, c, amount, minProfit).value;
      var fraction := Fraction(PathFinal(rates, start, b, c, amount) - amount, amount);
      && o.path == [start, b, c, start]
      && o.startingAmount == amount
      && o.profitPercentage == Round2(fraction * 100.0)
      && o.finalAmount == Round4(PathFinal(rates, start, b, c, amount))
      && |o.steps| == 3
      && (forall k :: 0 <= k < 3 ==> o.steps[k].source == o.path[k] && o.steps[k].target == o.path[k + 1])
      && (forall k :: 0 <= k < 3 ==> o.steps[k].rate == ExchangeRate(rates, o.path[k], o.path[k + 1]) > 0.0)
      && (forall k :: 0 <= k < 2 ==> o.steps[k + 1].amountIn == o.steps[k].amountOut)
  {
    var ab := ExchangeRate(rates, start, b);
    var bc := ExchangeRate(rates, b, c);
    var ca := ExchangeRate(rates, c, start);
    var final := PathFinal(rates, start, b, c, amount);
    var fraction := Fraction(final - amount, amount);
    var amountB := Exchanged(amount, ab);
    var amountC := Exchanged(amountB, bc);
    var o := Report(start, b, c, amount, ab, bc, ca, amountB, amountC, final, final - amount, fraction);
    assert PathOpportunity(rates, start, b, c, amount, minProfit).value == o;
    assert o.steps[0] == StaticStep(start, b, ab, amount, Round4(amountB));
    assert o.steps[1] == StaticStep(b, c, bc, Round4(amountB), Round4(amountC));
    assert o.steps[2] == StaticStep(c, start, ca, Round4(amountC), Round4(final));
  }

  /** The opportunities of row `b` over the currencies `cs`, in enumeration order. */
  function RowFound(rates: RateData, cs: seq<string>, start: string, b: string, amount: real, minProfit: real): seq<StaticOpportunity>
  {
    if cs == [] then []
    else
      var c := cs[|cs| - 1];
      RowFound(rates, cs[..|cs| - 1], start, b, amount, minProfit) +
        if c == start || c == b then []
        else match PathOpportunity(rates, start, b, c, amount, minProfit)
          case None => []
          case Some(o) => [o]
  }

  /** The opportunities of the rows `bs`, each over all currencies `cs`, in enumeration order. */
  function AllFound(rates: RateData, bs: seq<string>, cs: seq<string>, start: string, amount: real, minProfit: real): seq<StaticOpportunity>
  {
    if bs == [] then []
    else
      var b := bs[|bs| - 1];
      AllFound(rates, bs[..|bs| - 1], cs, start, amount, minProfit) +
        if b == start then [] else RowFound(rates, cs, start, b, amount, minProfit)
  }

  /** What `find_arbitrage_opportunities` returns: every reported path, best percentage first. */
  function Opportunities(rates: RateData, currencies: seq<string>, start: string, amount: real, minProfit: real): seq<StaticOpportunity>
  {
    SortDesc(AllFound(rates, currencies, currencies, start, amount, minProfit), PercentageOf)
  }

  /** `find_arbitrage_opportunities` (api/static_data.py:154-250), with the currency ids and rates passed in. */
  method FindArbitrageOpportunities(rates: RateData, currencies: seq<string>, start: string, amount: real, minProfit: real)
    returns (r: seq<StaticOpportunity>)
    ensures r == Opportunities(rates, currencies, start, amount, minProfit)
  {
    var opportunities: seq<StaticOpportunity> := [];
    for i := 0 to |currencies|
      invariant opportunities == AllFound(rates, currencies[..i], currencies, start, amount, minProfit)
    {
      var b := currencies[i];
      assert currencies[..i + 1][..i] == currencies[..i];
      if b != start {
        opportunities := ScanPaths(rates, currencies, start, b, amount, minProfit, opportunities);
      }
    }
    assert currencies[..|currencies|] == currencies;
    r := SortDesc(opportunities, PercentageOf);
  }

  /** The middle loop of `find_arbitrage_opportunities` for one intermediate currency b ≠ start, appending to `found`. */
  method ScanPaths(rates: RateData, currencies: seq<string>, start: string, b: string, amount: real, minProfit: real, found: seq<StaticOpportunity>)
    returns (opportunities: seq<StaticOpportunity>)
    ensures opportunities == found + RowFound(rates, currencies, start, b, amount, minProfit)
  {
    opportunities := found;
    for j := 0 to |currencies|
      invariant opportunities == found + RowFound(rates, currencies[..j], start, b, amount, minProfit)
    {
      var c := currencies[j];
      assert currencies[..j + 1][..j] == currencies[..j];
      if c != start && c != b {
        var path := TryPath(rates, start, b, c, amount, minProfit);
        if path.Some? {
          opportunities := opportunities + [path.value];
        }
      }
    }
    assert currencies[..|currencies|] == currencies;
  }

  /** The inner loop body of `find_arbitrage_opportunities`: three lookups, each ending the path when not positive. */
  method TryPath(rates: RateData, start: string, b: string, c: string, amount: real, minProfit: real) returns (r: Option<StaticOpportunity>)
    ensures r == PathOpportunity(rates, start, b, c, amount, minProfit)
  {
    var rateAB := ExchangeRate(rates, start, b);
    if rateAB <= 0.0 {
      return None;
    }
    var amountB := Exchanged(amount, rateAB);
    var rateBC := ExchangeRate(rates, b, c);
    if rateBC <= 0.0 {
      return None;
    }
    var amountC := Exchanged(amountB, rateBC);
    var rateCA := ExchangeRate(rates, c, start);
    if rateCA <= 0.0 {
      return None;
    }
    var final := Exchanged(amountC, rateCA);
    var profit := final - amount;
    var fraction := Fraction(profit, amount);
    if fraction < minProfit {
      return None;
    }
    r := Some(Report(start, b, c, amount, rateAB, rateBC, rateCA, amountB, amountC, final, profit, fraction));
  }

  /** Row `b` holds exactly the reported paths start → b → c → start for c in `cs`, c ≠ start, c ≠ b. */
  lemma {:induction false} RowFoundMeaning(rates: RateData, cs: seq<string>, start: string, b: string, amount: real, minProfit: real)
    ensures forall o :: o in RowFound(rates, cs, start, b, amount, minProfit) <==>
      exists c :: c in cs && c != start && c != b && PathOpportunity(rates, start, b, c, amount, minProfit) == Some(o)
  {
    if cs != [] {
      var pre := cs[..|cs| - 1];
      var c := cs[|cs| - 1];
      RowFoundMeaning(rates, pre, start, b, amount, minProfit);
      assert cs == pre + [c];
      forall o | (exists x :: x in cs && x != start && x != b && PathOpportunity(rates, start, b, x, amount, minProfit) == Some(o))
        ensures o in RowFound(rates, cs, start, b, amount, minProfit)
      {
        var x :| x in cs && x != start && x != b && PathOpportunity(rates, start, b, x, amount, minProfit) == Some(o);
        if x != c {
          assert x in pre;
        }
      }
    }
  }

  /** The rows `bs` hold exactly the reported paths start → b → c → start for b in `bs`, c in `cs`, pairwise distinct from start. */
  lemma {:induction false} AllFoundMeaning(rates: RateData, bs: seq<string>, cs: seq<string>, start: string, amount: real, minProfit: real)
    ensures forall o :: o in AllFound(rates, bs, cs, start, amount, minProfit) <==>
      exists b, c :: b in bs && c in cs && b != start && c != start && c != b && PathOpportunity(rates, start, b, c, amount, minProfit) == Some(o)
  {
    if bs != [] {
      var pre := bs[..|bs| - 1];
      var b := bs[|bs| - 1];
      AllFoundMeaning(rates, pre, cs, start, amount, minProfit);
      RowFoundMeaning(rates, cs, start, b, amount, minProfit);
      assert bs == pre + [b];
      forall o | o in AllFound(rates, bs, cs, start, amount, minProfit)
        ensures exists x, c :: x in bs && c in cs && x != start && c != start && c != x && PathOpportunity(rates, start, x, c, amount, minProfit) == Some(o)
      {
        if o !in AllFound(rates, pre, cs, start, amount, minProfit) {
          var c :| c in cs && c != start && c != b && PathOpportunity(rates, start, b, c, amount, minProfit) == Some(o);
          assert b in bs;
        } else {
          var x, c :| x in pre && c in cs && x != start && c != start && c != x && PathOpportunity(rates, start, x, c, amount, minProfit) == Some(o);
          assert x in bs;
        }
      }
      forall o | (exists x, c :: x in bs && c in cs && x != start && c != start && c != x && PathOpportunity(rates, start, x, c, amount, minProfit) == Some(o))
        ensures o in AllFound(rates, bs, cs, start, amount, minProfit)
      {
        var x, c :| x in bs && c in cs && x != start && c != start && c != x && PathOpportunity(rates, start, x, c, amount, minProfit) == Some(o);
        if x != b {
          assert x in pre;
        }
      }
    }
  }

  /**
   * The search reports exactly the profitable paths start → b → c → start
   * over distinct currencies other than start, best percentage first, with
   * ties in enumeration order and nothing cut off.
   */
  lemma OpportunitiesMeaning(rates: RateData, currencies: seq<string>, start: string, amount: real, minProfit: real)
    ensures var r := Opportunities(rates, currencies, start, amount, minProfit);
      && SortedDesc(r, PercentageOf)
      && multiset(r) == multiset(AllFound(rates, currencies, currencies, start, amount, minProfit))
      && (forall k :: WithKey(r, PercentageOf, k) == WithKey(AllFound(rates, currencies, currencies, start, amount, minProfit), PercentageOf, k))
      && forall o :: o in r <==>
        exists b, c :: b in currencies && c in currencies && b != start && c != start && c != b &&
          PathOpportunity(rates, start, b, c, amount, minProfit) == Some(o)
  {
    var all := AllFound(rates, currencies, currencies, start, amount, minProfit);
    SortDescPermutes(all, PercentageOf);
    SortDescSorted(all, PercentageOf);
    forall k ensures WithKey(SortDesc(all, PercentageOf), PercentageOf, k) == WithKey(all, PercentageOf, k) {
      SortDescStable(all, PercentageOf, k);
    }
    AllFoundMeaning(rates, currencies, currencies, start, amount, minProfit);
    forall o ensures o in SortDesc(all, PercentageOf) <==> o in all {
      assert o in SortDesc(all, PercentageOf) <==> o in multiset(SortDesc(all, PercentageOf));
    }
  }
}
