/**
 * `ArbitrageFinder` of api/models/arbitrage.py (backend/models/arbitrage.py
 * is the same file): three-step cycles start → A → B → start evaluated on a
 * rate matrix, kept when their profit percentage reaches the threshold, and
 * returned best first.
 */
module Arbitrage {
  import opened Wrappers
  import opened Sequences
  import opened RateTable
  import Rates

  /** `ArbitrageStep`: one conversion of a path. */
  datatype Step = Step(source: string, target: string, rate: real, amountBefore: real, amountAfter: real)

  /** `ArbitrageOpportunity`. */
  datatype Opportunity = Opportunity(
    startingCurrency: string,
    startingAmount: real,
    finalAmount: real,
    profitAmount: real,
    profitPercentage: real,
    steps: seq<Step>)

  function ProfitOf(o: Opportunity): real
  {
    o.profitPercentage
  }

  /** What `_evaluate_path` produces: `None`, a `ZeroDivisionError`, or an opportunity. */
  datatype Evaluation = NotViable | ZeroStartingAmount | Found(opportunity: Opportunity)

  /** The exceptions `find_opportunities` raises. */
  datatype FinderError = UnsupportedStartingCurrency(currency: string) | ZeroDivision

  /** The rate of a hop after slippage, `rate * (1 - slippage_per_step)`. */
  function Slipped(rate: real, slippage: real): real
  {
    rate * (1.0 - slippage)
  }

  /** What one hop turns `amount` into at `rate`. */
  function Exchanged(amount: real, rate: real): real
  {
    amount * rate
  }

  /** The amount held after the steps taken so far. */
  function Current(steps: seq<Step>, amount: real): real
  {
    if steps == [] then amount else steps[|steps| - 1].amountAfter
  }

  /**
   * The steps of the hop loop of `_evaluate_path` along `path`, or None when
   * a hop has an unregistered currency or no positive rate.
   */
  function Hops(t: Table, cs: seq<string>, slippage: real, path: seq<string>, amount: real): Option<seq<Step>>
    requires |path| >= 1
  {
    if |path| == 1 then Some([])
    else match Hops(t, cs, slippage, path[..|path| - 1], amount)
      case None => None
      case Some(steps) =>
        var source := path[|path| - 2];
        var target := path[|path| - 1];
        if source !in cs || target !in cs then None
        else
          var rate := Get(t, source, target);
          if rate <= 0.0 then None
          else
            var effective := Slipped(rate, slippage);
            var before := Current(steps, amount);
            Some(steps + [Step(source, target, effective, before, Exchanged(before, effective))])
  }

  /** Hop `k` of `path` can be taken: both currencies registered and a positive rate. */
  predicate Viable(t: Table, cs: seq<string>, path: seq<string>, k: int)
    requires 0 <= k < |path| - 1
  {
    path[k] in cs && path[k + 1] in cs && Get(t, path[k], path[k + 1]) > 0.0
  }

  /** Step `k` follows hop `k` of `path`, converting what the previous step produced at the slipped rate. */
  ghost predicate Link(t: Table, slippage: real, path: seq<string>, amount: real, steps: seq<Step>, k: int)
    requires 0 <= k < |steps| == |path| - 1
  {
    && steps[k].source == path[k]
    && steps[k].target == path[k + 1]
    && steps[k].rate == Slipped(Get(t, path[k], path[k + 1]), slippage)
    && steps[k].amountBefore == (if k == 0 then amount else steps[k - 1].amountAfter)
    && steps[k].amountAfter == Exchanged(steps[k].amountBefore, steps[k].rate)
  }

  /** The steps follow `path` hop by hop. */
  ghost predicate Chained(t: Table, slippage: real, path: seq<string>, amount: real, steps: seq<Step>)
  {
    && |steps| == |path| - 1
    && forall k :: 0 <= k < |steps| ==> Link(t, slippage, path, amount, steps, k)
  }

  /** The hop loop succeeds exactly when every hop is viable. */
  lemma {:induction false} HopsViable(t: Table, cs: seq<string>, slippage: real, path: seq<string>, amount: real)
    requires |path| >= 1
    ensures Hops(t, cs, slippage, path, amount).Some? <==> forall k :: 0 <= k < |path| - 1 ==> Viable(t, cs, path, k)
    decreases |path|
  {
    if |path| > 1 {
      var pre := path[..|path| - 1];
      var last := |path| - 2;
      HopsViable(t, cs, slippage, pre, amount);
      forall k | 0 <= k < |pre| - 1 ensures Viable(t, cs, pre, k) <==> Viable(t, cs, path, k) {
        assert pre[k] == path[k] && pre[k + 1] == path[k + 1];
      }
      assert pre[last] == path[last];
      if (forall k :: 0 <= k < |path| - 1 ==> Viable(t, cs, path, k)) {
        assert Viable(t, cs, path, last);
      } else {
        var k :| 0 <= k < |path| - 1 && !Viable(t, cs, path, k);
        if k < last {
          assert !Viable(t, cs, pre, k);
        }
      }
    }
  }

  /** The step of hop `i` of `path`, converting `before`. */
  function HopStep(t: Table, slippage: real, path: seq<string>, i: nat, before: real): Step
    requires i < |path| - 1
  {
    var effective := Slipped(Get(t, path[i], path[i + 1]), slippage);
    Step(path[i], path[i + 1], effective, before, Exchanged(before, effective))
  }

  /** One more viable hop appends one step to the hop loop's steps. */
  lemma HopsSnoc(t: Table, cs: seq<string>, slippage: real, path: seq<string>, amount: real, i: nat, steps: seq<Step>)
    requires i < |path| - 1 && Hops(t, cs, slippage, path[..i + 1], amount) == Some(steps)
    requires Viable(t, cs, path, i)
    ensures Hops(t, cs, slippage, path[..i + 2], amount) == Some(steps + [HopStep(t, slippage, path, i, Current(steps, amount))])
  {
    var q := path[..i + 2];
    assert q[..|q| - 1] == path[..i + 1];
    assert q[|q| - 2] == path[i] && q[|q| - 1] == path[i + 1];
    var e := Slipped(Get(t, path[i], path[i + 1]), slippage);
    var v := Hops(t, cs, slippage, q, amount).value;
    assert v[|steps|] == Step(path[i], path[i + 1], e, Current(steps, amount), Exchanged(Current(steps, amount), e));
    assert v == steps + [v[|steps|]];
    assert Hops(t, cs, slippage, q, amount).Some?;
    assert Hops(t, cs, slippage, q, amount) == Some(v);
    assert HopStep(t, slippage, path, i, Current(steps, amount)) == v[|steps|];
    assert v == steps + [HopStep(t, slippage, path, i, Current(steps, amount))];
  }

  /** The steps of a successful hop loop are chained along the path. */
  lemma {:induction false} HopsChained(t: Table, cs: seq<string>, slippage: real, path: seq<string>, amount: real)
    requires |path| >= 1 && Hops(t, cs, slippage, path, amount).Some?
    ensures Chained(t, slippage, path, amount, Hops(t, cs, slippage, path, amount).value)
    decreases |path|
  {
    if |path| > 1 {
      var pre := path[..|path| - 1];
      HopsChained(t, cs, slippage, pre, amount);
      var steps := Hops(t, cs, slippage, pre, amount).value;
      var all := Hops(t, cs, slippage, path, amount).value;
      var last := |path| - 2;
      assert all == steps + [all[last]];
      forall k | 0 <= k < |all| ensures Link(t, slippage, path, amount, all, k) {
        if k < last {
          assert Link(t, slippage, pre, amount, steps, k);
          assert all[k] == steps[k] && pre[k] == path[k] && pre[k + 1] == path[k + 1];
          if k > 0 {
            assert all[k - 1] == steps[k - 1];
          }
        } else if k > 0 {
          assert all[k - 1] == steps[k - 1];
        }
      }
    }
  }

  /** The product of the rates along `path`. */
  function PathProduct(t: Table, path: seq<string>): real
    requires |path| >= 1
  {
    if |path| == 1 then 1.0
    else PathProduct(t, path[..|path| - 1]) * Get(t, path[|path| - 2], path[|path| - 1])
  }

  /** Without slippage the amount after the last hop is the starting amount times the product of the rates. */
  lemma {:induction false} NoSlippageFinal(t: Table, cs: seq<string>, path: seq<string>, amount: real)
    requires |path| >= 1 && Hops(t, cs, 0.0, path, amount).Some?
    ensures Current(Hops(t, cs, 0.0, path, amount).value, amount) == amount * PathProduct(t, path)
    decreases |path|
  {
    if |path| > 1 {
      var pre := path[..|path| - 1];
      NoSlippageFinal(t, cs, pre, amount);
      var r := Get(t, path[|path| - 2], path[|path| - 1]);
      assert Current(Hops(t, cs, 0.0, path, amount).value, amount) == Current(Hops(t, cs, 0.0, pre, amount).value, amount) * (r * (1.0 - 0.0));
      assert amount * PathProduct(t, pre) * (r * 1.0) == amount * (PathProduct(t, pre) * r);
    }
  }

  /** A path through `start` and the intermediate currencies `a`, `b`. */
  function Cycle(start: string, a: string, b: string): seq<string>
  {
    [start, a, b, start]
  }

  /** The ordered pairs (xs[i], xs[j]), i ≠ j, for i below `i`, as `permutations(xs, 2)` yields them. */
  function Pairs(xs: seq<string>, i: nat): seq<(string, string)>
    requires i <= |xs|
  {
    if i == 0 then [] else Pairs(xs, i - 1) + Partners(xs, i - 1, |xs|)
  }

  /** The pairs (xs[i], xs[j]) for j below `j`, j ≠ i. */
  function Partners(xs: seq<string>, i: nat, j: nat): seq<(string, string)>
    requires i < |xs| && j <= |xs|
  {
    if j == 0 then []
    else Partners(xs, i, j - 1) + if j - 1 == i then [] else [(xs[i], xs[j - 1])]
  }

  lemma {:induction false} PartnersMeaning(xs: seq<string>, i: nat, j: nat)
    requires i < |xs| && j <= |xs|
    ensures forall p :: p in Partners(xs, i, j) <==> exists m :: 0 <= m < j && m != i && p == (xs[i], xs[m])
  {
    if j > 0 {
      PartnersMeaning(xs, i, j - 1);
    }
  }

  /** `permutations(xs, 2)`: the pairs of elements at two different positions. */
  lemma {:induction false} PairsMeaning(xs: seq<string>, i: nat)
    requires i <= |xs|
    ensures forall p :: p in Pairs(xs, i) <==> exists n, m :: 0 <= n < i && 0 <= m < |xs| && n != m && p == (xs[n], xs[m])
  {
    if i > 0 {
      PairsMeaning(xs, i - 1);
      PartnersMeaning(xs, i - 1, |xs|);
      forall p | p in Pairs(xs, i) ensures exists n, m :: 0 <= n < i && 0 <= m < |xs| && n != m && p == (xs[n], xs[m]) {
        if p in Partners(xs, i - 1, |xs|) {
          var m :| 0 <= m < |xs| && m != i - 1 && p == (xs[i - 1], xs[m]);
          assert 0 <= i - 1 < i && p == (xs[i - 1], xs[m]);
        } else {
          assert p in Pairs(xs, i - 1);
          var n, m :| 0 <= n < i - 1 && 0 <= m < |xs| && n != m && p == (xs[n], xs[m]);
          assert 0 <= n < i;
        }
      }
      forall p | exists n, m :: 0 <= n < i && 0 <= m < |xs| && n != m && p == (xs[n], xs[m]) ensures p in Pairs(xs, i) {
        var n, m :| 0 <= n < i && 0 <= m < |xs| && n != m && p == (xs[n], xs[m]);
        if n == i - 1 {
          assert p in Partners(xs, i - 1, |xs|);
        }
      }
    }
  }

  /** The summary `get_summary_stats` returns; `worst` is absent for an empty list. */
  datatype Summary = Summary(
    totalOpportunities: nat,
    bestProfitPercentage: real,
    averageProfitPercentage: real,
    totalProfitAmount: real,
    worstProfitPercentage: Option<real>)

  function SumProfits(os: seq<Opportunity>): real
  {
    if os == [] then 0.0 else SumProfits(os[..|os| - 1]) + os[|os| - 1].profitPercentage
  }

  function SumAmounts(os: seq<Opportunity>): real
  {
    if os == [] then 0.0 else SumAmounts(os[..|os| - 1]) + os[|os| - 1].profitAmount
  }

  function MaxProfit(os: seq<Opportunity>): (r: real)
    requires os != []
    ensures forall k :: 0 <= k < |os| ==> os[k].profitPercentage <= r
    ensures exists k :: 0 <= k < |os| && os[k].profitPercentage == r
  {
    if |os| == 1 then os[0].profitPercentage
    else
      var m := MaxProfit(os[..|os| - 1]);
      assert forall k :: 0 <= k < |os| - 1 ==> os[..|os| - 1][k] == os[k];
      if os[|os| - 1].profitPercentage > m then os[|os| - 1].profitPercentage else m
  }

  function MinProfit(os: seq<Opportunity>): (r: real)
    requires os != []
    ensures forall k :: 0 <= k < |os| ==> r <= os[k].profitPercentage
    ensures exists k :: 0 <= k < |os| && os[k].profitPercentage == r
  {
    if |os| == 1 then os[0].profitPercentage
    else
      var m := MinProfit(os[..|os| - 1]);
      assert forall k :: 0 <= k < |os| - 1 ==> os[..|os| - 1][k] == os[k];
      if os[|os| - 1].profitPercentage < m then os[|os| - 1].profitPercentage else m
  }

  /** `get_summary_stats` (api/models/arbitrage.py:247-266). */
  function SummaryStats(os: seq<Opportunity>): Summary
  {
    if os == [] then Summary(0, 0.0, 0.0, 0.0, None)
    else Summary(|os|, MaxProfit(os), SumProfits(os) / (|os| as real), SumAmounts(os), Some(MinProfit(os)))
  }

  lemma {:induction false} SumBounds(os: seq<Opportunity>, lo: real, hi: real)
    requires forall k :: 0 <= k < |os| ==> lo <= os[k].profitPercentage <= hi
    ensures (|os| as real) * lo <= SumProfits(os) <= (|os| as real) * hi
  {
    if os != [] {
      SumBounds(os[..|os| - 1], lo, hi);
    }
  }

  /**
   * For a non-empty list the worst percentage is at most the average, which
   * is at most the best; the best and worst are percentages of listed
   * opportunities.
   */
  lemma SummaryOrdered(os: seq<Opportunity>)
    requires os != []
    ensures var s := SummaryStats(os);
      && s.totalOpportunities == |os|
      && s.worstProfitPercentage.Some?
      && s.worstProfitPercentage.value <= s.averageProfitPercentage <= s.bestProfitPercentage
      && (exists k :: 0 <= k < |os| && os[k].profitPercentage == s.bestProfitPercentage)
      && (exists k :: 0 <= k < |os| && os[k].profitPercentage == s.worstProfitPercentage.value)
  {
    var lo := MinProfit(os);
    var hi := MaxProfit(os);
    SumBounds(os, lo, hi);
    MeanBounds(SumProfits(os), |os| as real, lo, hi);
  }

  /** A sum of n values between lo and hi, divided by n, lies between lo and hi. */
  lemma MeanBounds(sum: real, n: real, lo: real, hi: real)
    requires n > 0.0 && n * lo <= sum <= n * hi
    ensures lo <= sum / n <= hi
  {
    var q := sum / n;
    assert q * n == sum;
  }

  /** The summary of an empty list is all zeros, without a worst percentage. */
  lemma SummaryEmpty()
    ensures SummaryStats([]) == Summary(0, 0.0, 0.0, 0.0, None)
  {
  }

  /** `ArbitrageFinder` with its four settings. */
  datatype ArbitrageFinder = ArbitrageFinder(
    minProfitPercentage: real,
    maxSteps: int,
    slippagePerStep: real,
    maxResults: int)
  {
    /** `_evaluate_path` (api/models/arbitrage.py:137-204). */
    function Evaluate(t: Table, cs: seq<string>, path: seq<string>, amount: real): Evaluation
    {
      if |path| < 2 then NotViable
      else match Hops(t, cs, slippagePerStep, path, amount)
        case None => NotViable
        case Some(steps) =>
          var final := Current(steps, amount);
          if amount == 0.0 then ZeroStartingAmount
          else
            var profit := final - amount;
            var percentage := profit / amount * 100.0;
            if percentage < minProfitPercentage then NotViable
            else Found(Opportunity(path[0], amount, final, profit, percentage, steps))
    }

    /**
     * An evaluated opportunity starts at the path's first currency, follows
     * the path hop by hop at the slipped rates, and reaches the threshold;
     * its profit is measured against the starting amount. A path is dropped
     * exactly when it is too short, a hop is not viable, or the profit falls
     * short; a zero starting amount on a viable path divides by zero.
     */
    lemma EvaluateMeaning(t: Table, cs: seq<string>, path: seq<string>, amount: real)
      ensures Evaluate(t, cs, path, amount).Found? ==>
        var o := Evaluate(t, cs, path, amount).opportunity;
        && o.startingCurrency == path[0]
        && o.startingAmount == amount
        && Chained(t, slippagePerStep, path, amount, o.steps)
        && o.finalAmount == Current(o.steps, amount)
        && o.profitAmount == o.finalAmount - amount
        && o.profitPercentage == o.profitAmount / amount * 100.0
        && o.profitPercentage >= minProfitPercentage
      ensures Evaluate(t, cs, path, amount) == ZeroStartingAmount <==>
        |path| >= 2 && amount == 0.0 && forall k :: 0 <= k < |path| - 1 ==> Viable(t, cs, path, k)
      ensures Evaluate(t, cs, path, amount).Found? <==>
        && |path| >= 2 && amount != 0.0
        && (forall k :: 0 <= k < |path| - 1 ==> Viable(t, cs, path, k))
        && Hops(t, cs, slippagePerStep, path, amount).Some?
        && (Current(Hops(t, cs, slippagePerStep, path, amount).value, amount) - amount) / amount * 100.0 >= minProfitPercentage
    {
      if |path| >= 2 {
        HopsViable(t, cs, slippagePerStep, path, amount);
        if Hops(t, cs, slippagePerStep, path, amount).Some? {
          HopsChained(t, cs, slippagePerStep, path, amount);
        }
      }
    }

    /** `_evaluate_path`, with the hop loop as written. */
    method EvaluatePath(m: Rates.RateMatrix, path: seq<string>, amount: real) returns (r: Evaluation)
      ensures r == Evaluate(m.rates, m.currencies, path, amount)
    {
      if |path| < 2 {
        return NotViable;
      }
      var hops, final := RunHops(m, path, amount);
      if hops.None? {
        return NotViable;
      }
      if amount == 0.0 {
        return ZeroStartingAmount;
      }
      var profit := final - amount;
      var percentage := profit / amount * 100.0;
      if percentage < minProfitPercentage {
        return NotViable;
      }
      r := Found(Opportunity(path[0], amount, final, profit, percentage, hops.value));
    }

    /**
     * The hop loop of `_evaluate_path` (api/models/arbitrage.py:155-187): the
     * steps along the path and the amount reached, or None at the first hop
     * without a rate.
     */
    method RunHops(m: Rates.RateMatrix, path: seq<string>, amount: real) returns (hops: Option<seq<Step>>, current: real)
      requires |path| >= 2
      ensures hops == Hops(m.rates, m.currencies, slippagePerStep, path, amount)
      ensures hops.Some? ==> current == Current(hops.value, amount)
    {
      ghost var t, cs := m.rates, m.currencies;
      var steps: seq<Step> := [];
      current := amount;
      var i := 0;
      while i < |path| - 1
        invariant 0 <= i <= |path| - 1
        invariant Hops(t, cs, slippagePerStep, path[..i + 1], amount) == Some(steps)
        invariant current == Current(steps, amount)
      {
        var source := path[i];
        var target := path[i + 1];
        var got := m.GetRate(source, target);
        if got.Err? || got.value <= 0.0 {
          // an unsupported currency (caught) or a missing rate ends the path
          HopsStop(t, cs, slippagePerStep, path, amount, i + 2);
          return None, current;
        }
        var rate := got.value;
        var effective := Slipped(rate, slippagePerStep);
        var after := Exchanged(current, effective);
        HopsSnoc(t, cs, slippagePerStep, path, amount, i, steps);
        assert Step(source, target, effective, current, after) == HopStep(t, slippagePerStep, path, i, current);
        steps := steps + [Step(source, target, effective, current, after)];
        current := after;
        i := i + 1;
      }
      assert path[..i + 1] == path;
      hops := Some(steps);
    }

    /** The opportunities `find_opportunities` keeps from the candidate pairs, in order, or the division error. */
    function Scan(t: Table, cs: seq<string>, start: string, amount: real, ps: seq<(string, string)>): Result<seq<Opportunity>, FinderError>
    {
      if ps == [] then Ok([])
      else match Scan(t, cs, start, amount, ps[..|ps| - 1])
        case Err(e) => Err(e)
        case Ok(kept) =>
          var (a, b) := ps[|ps| - 1];
          match Evaluate(t, cs, Cycle(start, a, b), amount)
          case NotViable => Ok(kept)
          case ZeroStartingAmount => Err(ZeroDivision)
          case Found(o) => if o.profitPercentage >= minProfitPercentage then Ok(kept + [o]) else Ok(kept)
    }

    /** The candidate pairs of intermediate currencies. */
    function Candidates(cs: seq<string>, start: string): seq<(string, string)>
    {
      var others := Rates.Others(cs, start);
      Pairs(others, |others|)
    }

    /** `find_opportunities` (api/models/arbitrage.py:97-135). */
    function Search(t: Table, cs: seq<string>, start: string, amount: real): Result<seq<Opportunity>, FinderError>
    {
      if start !in cs then Err(UnsupportedStartingCurrency(start))
      else if maxSteps != 3 then Ok([])
      else match Scan(t, cs, start, amount, Candidates(cs, start))
        case Err(e) => Err(e)
        case Ok(kept) => Ok(SliceTo(SortDesc(kept, ProfitOf), maxResults))
    }

    /** `find_opportunities`, with the permutation loop as written. */
    method FindOpportunities(m: Rates.RateMatrix, start: string, amount: real) returns (r: Result<seq<Opportunity>, FinderError>)
      ensures r == Search(m.rates, m.currencies, start, amount)
    {
      if start !in m.currencies {
        return Err(UnsupportedStartingCurrency(start));
      }
      var opportunities: seq<Opportunity> := [];
      var others := Rates.Others(m.currencies, start);
      if maxSteps == 3 {
        var i := 0;
        ghost var done: seq<(string, string)> := [];
        while i < |others|
          invariant 0 <= i <= |others|
          invariant done == Pairs(others, i)
          invariant Scan(m.rates, m.currencies, start, amount, done).Ok?
          invariant Scan(m.rates, m.currencies, start, amount, done).value == opportunities
        {
          var row := ScanRow(m, start, amount, others, i, done, opportunities);
          if row.Err? {
            ScanAborts(m.rates, m.currencies, start, amount, i, |others|);
            return row;
          }
          opportunities := row.value;
          done := done + Partners(others, i, |others|);
          i := i + 1;
        }
      }
      SortDescPermutes(opportunities, ProfitOf);
      r := Ok(SliceTo(SortDesc(opportunities, ProfitOf), maxResults));
    }

    /** The inner loop of `find_opportunities`: the pairs of row `i`, continuing a scan that kept `kept`. */
    method ScanRow(m: Rates.RateMatrix, start: string, amount: real, others: seq<string>, i: nat, ghost done: seq<(string, string)>, kept: seq<Opportunity>)
      returns (r: Result<seq<Opportunity>, FinderError>)
      requires i < |others|
      requires Scan(m.rates, m.currencies, start, amount, done).Ok? && Scan(m.rates, m.currencies, start, amount, done).value == kept
      ensures r == Scan(m.rates, m.currencies, start, amount, done + Partners(others, i, |others|))
    {
      var opportunities := kept;
      assert done + Partners(others, i, 0) == done;
      var j := 0;
      while j < |others|
        invariant 0 <= j <= |others|
        invariant Scan(m.rates, m.currencies, start, amount, done + Partners(others, i, j)).Ok?
        invariant Scan(m.rates, m.currencies, start, amount, done + Partners(others, i, j)).value == opportunities
      {
        var cell := ScanCell(m, start, amount, others, i, j, done, opportunities);
        if cell.Err? {
          RowStops(m.rates, m.currencies, start, amount, done, others, i, j + 1);
          return cell;
        }
        opportunities := cell.value;
        j := j + 1;
      }
      r := Ok(opportunities);
    }

    /**
     * One pass of the inner loop of `find_opportunities`: the cycle through
     * others[i] and others[j] is evaluated unless i == j, and a profitable
     * result is kept.
     */
    method ScanCell(m: Rates.RateMatrix, start: string, amount: real, others: seq<string>, i: nat, j: nat, ghost done: seq<(string, string)>, kept: seq<Opportunity>)
      returns (r: Result<seq<Opportunity>, FinderError>)
      requires i < |others| && j < |others|
      requires Scan(m.rates, m.currencies, start, amount, done + Partners(others, i, j)).Ok?
      requires Scan(m.rates, m.currencies, start, amount, done + Partners(others, i, j)).value == kept
      ensures r == Scan(m.rates, m.currencies, start, amount, done + Partners(others, i, j + 1))
    {
      r := Ok(kept);
      if j != i {
        var a, b := others[i], others[j];
        var opportunity := EvaluatePath(m, Cycle(start, a, b), amount);
        RowNext(m.rates, m.currencies, start, amount, done, others, i, j, kept, opportunity);
        if opportunity.ZeroStartingAmount? {
          return Err(ZeroDivision);
        }
        if opportunity.Found? && opportunity.opportunity.profitPercentage >= minProfitPercentage {
          r := Ok(kept + [opportunity.opportunity]);
        }
      } else {
        RowDiagonal(done, others, i);
      }
    }

    /** A division by zero part-way through a row is the result of the whole row. */
    lemma RowStops(t: Table, cs: seq<string>, start: string, amount: real, done: seq<(string, string)>, others: seq<string>, i: nat, j: nat)
      requires i < |others| && j <= |others|
      requires Scan(t, cs, start, amount, done + Partners(others, i, j)).Err?
      ensures Scan(t, cs, start, amount, done + Partners(others, i, |others|)) == Scan(t, cs, start, amount, done + Partners(others, i, j))
    {
      PartnersPrefix(others, i, j, |others|);
      PrefixAfter(done, Partners(others, i, j), Partners(others, i, |others|));
      ScanStops(t, cs, start, amount, done + Partners(others, i, j), done + Partners(others, i, |others|));
    }

    /** Column `j` of row `i`: what evaluating the cycle through (others[i], others[j]) does to the row's scan. */
    lemma RowNext(t: Table, cs: seq<string>, start: string, amount: real, done: seq<(string, string)>, others: seq<string>, i: nat, j: nat, kept: seq<Opportunity>, e: Evaluation)
      requires i < |others| && j < |others| && j != i
      requires Scan(t, cs, start, amount, done + Partners(others, i, j)).Ok?
      requires Scan(t, cs, start, amount, done + Partners(others, i, j)).value == kept
      requires e == Evaluate(t, cs, Cycle(start, others[i], others[j]), amount)
      ensures var r := Scan(t, cs, start, amount, done + Partners(others, i, j + 1));
        && (e.ZeroStartingAmount? ==> r == Err(ZeroDivision))
        && (e.Found? && e.opportunity.profitPercentage >= minProfitPercentage ==> r.Ok? && r.value == kept + [e.opportunity])
        && (e.NotViable? || (e.Found? && e.opportunity.profitPercentage < minProfitPercentage) ==> r.Ok? && r.value == kept)
    {
      var p := (others[i], others[j]);
      ScanNext(t, cs, start, amount, done + Partners(others, i, j), p, kept);
      assert done + Partners(others, i, j) + [p] == done + Partners(others, i, j + 1);
    }

    /** The diagonal column adds no candidate. */
    lemma RowDiagonal(done: seq<(string, string)>, others: seq<string>, i: nat)
      requires i < |others|
      ensures done + Partners(others, i, i + 1) == done + Partners(others, i, i)
    {
    }

    /** What one more candidate does to a successful scan. */
    lemma ScanNext(t: Table, cs: seq<string>, start: string, amount: real, ps: seq<(string, string)>, p: (string, string), kept: seq<Opportunity>)
      requires Scan(t, cs, start, amount, ps).Ok? && Scan(t, cs, start, amount, ps).value == kept
      ensures var e := Evaluate(t, cs, Cycle(start, p.0, p.1), amount);
        var r := Scan(t, cs, start, amount, ps + [p]);
        && (e.ZeroStartingAmount? ==> r.Err? && r.error == ZeroDivision)
        && (e.Found? && e.opportunity.profitPercentage >= minProfitPercentage ==> r.Ok? && r.value == kept + [e.opportunity])
        && (e.NotViable? || (e.Found? && e.opportunity.profitPercentage < minProfitPercentage) ==> r.Ok? && r.value == kept)
    {
      assert (ps + [p])[..|ps|] == ps;
    }

    /** A division by zero while scanning row `i` is the result of the whole search. */
    lemma ScanAborts(t: Table, cs: seq<string>, start: string, amount: real, i: nat, j: nat)
      requires i < |Rates.Others(cs, start)| && j <= |Rates.Others(cs, start)|
      requires var others := Rates.Others(cs, start);
        Scan(t, cs, start, amount, Pairs(others, i) + Partners(others, i, j)).Err?
      ensures var others := Rates.Others(cs, start);
        Scan(t, cs, start, amount, Candidates(cs, start)) == Scan(t, cs, start, amount, Pairs(others, i) + Partners(others, i, j))
    {
      var others := Rates.Others(cs, start);
      PairsPrefix(others, i, j);
      ScanStops(t, cs, start, amount, Pairs(others, i) + Partners(others, i, j), Candidates(cs, start));
    }

    /** Once a candidate divides by zero, later candidates change nothing. */
    lemma {:induction false} ScanStops(t: Table, cs: seq<string>, start: string, amount: real, ps: seq<(string, string)>, all: seq<(string, string)>)
      requires ps <= all && Scan(t, cs, start, amount, ps).Err?
      ensures Scan(t, cs, start, amount, all) == Scan(t, cs, start, amount, ps)
      decreases |all|
    {
      if |all| > |ps| {
        assert ps <= all[..|all| - 1];
        ScanStops(t, cs, start, amount, ps, all[..|all| - 1]);
      } else {
        assert all == ps;
      }
    }

    /** Everything the scan keeps is the evaluation of one of the candidate cycles. */
    lemma {:induction false} ScanKeeps(t: Table, cs: seq<string>, start: string, amount: real, ps: seq<(string, string)>)
      requires Scan(t, cs, start, amount, ps).Ok?
      ensures forall o :: o in Scan(t, cs, start, amount, ps).value ==>
        exists p :: p in ps && Evaluate(t, cs, Cycle(start, p.0, p.1), amount) == Found(o)
    {
      if ps != [] {
        ScanKeeps(t, cs, start, amount, ps[..|ps| - 1]);
      }
    }

    /** Every candidate that evaluates to an opportunity is kept. */
    lemma {:induction false} ScanComplete(t: Table, cs: seq<string>, start: string, amount: real, ps: seq<(string, string)>, p: (string, string))
      requires Scan(t, cs, start, amount, ps).Ok? && p in ps
      requires Evaluate(t, cs, Cycle(start, p.0, p.1), amount).Found?
      ensures Evaluate(t, cs, Cycle(start, p.0, p.1), amount).opportunity in Scan(t, cs, start, amount, ps).value
    {
      var pre := ps[..|ps| - 1];
      EvaluateMeaning(t, cs, Cycle(start, p.0, p.1), amount);
      if p != ps[|ps| - 1] {
        assert ps == pre + [ps[|ps| - 1]];
        ScanComplete(t, cs, start, amount, pre, p);
      }
    }

    /** A scan fails only by dividing by zero, which needs a zero starting amount. */
    lemma {:induction false} ScanFails(t: Table, cs: seq<string>, start: string, amount: real, ps: seq<(string, string)>)
      ensures Scan(t, cs, start, amount, ps).Err? ==> Scan(t, cs, start, amount, ps) == Err(ZeroDivision) && amount == 0.0
      ensures amount != 0.0 ==> Scan(t, cs, start, amount, ps).Ok?
    {
      if ps != [] {
        ScanFails(t, cs, start, amount, ps[..|ps| - 1]);
      }
    }

    /** A candidate cycle's opportunity starts and ends at `start` and passes through two other registered currencies. */
    lemma CandidateShape(t: Table, cs: seq<string>, start: string, amount: real, p: (string, string), o: Opportunity)
      requires p in Candidates(cs, start) && Evaluate(t, cs, Cycle(start, p.0, p.1), amount) == Found(o)
      ensures o.startingCurrency == start && o.profitPercentage >= minProfitPercentage
      ensures |o.steps| == 3 && o.steps[0].source == start && o.steps[2].target == start
      ensures o.steps[0].target != start && o.steps[1].target != start
      ensures o.steps[0].target in cs && o.steps[1].target in cs
    {
      var others := Rates.Others(cs, start);
      PairsMeaning(others, |others|);
      EvaluateMeaning(t, cs, Cycle(start, p.0, p.1), amount);
      var n, m :| 0 <= n < |others| && 0 <= m < |others| && n != m && p == (others[n], others[m]);
      assert others[n] in others && others[m] in others;
      var c := Cycle(start, p.0, p.1);
      assert Link(t, slippagePerStep, c, amount, o.steps, 0);
      assert Link(t, slippagePerStep, c, amount, o.steps, 1);
      assert Link(t, slippagePerStep, c, amount, o.steps, 2);
    }

    /**
     * `find_opportunities` raises for an unregistered starting currency and,
     * for a registered one, only by dividing by zero on a zero amount; a path
     * length other than 3 finds nothing.
     */
    lemma SearchErrors(t: Table, cs: seq<string>, start: string, amount: real)
      ensures (Search(t, cs, start, amount).Err? && Search(t, cs, start, amount).error.UnsupportedStartingCurrency?) <==> start !in cs
      ensures start in cs && Search(t, cs, start, amount).Err? ==> Search(t, cs, start, amount) == Err(ZeroDivision) && amount == 0.0
      ensures start in cs && maxSteps != 3 ==> Search(t, cs, start, amount) == Ok([])
    {
      if start in cs && maxSteps == 3 {
        ScanFails(t, cs, start, amount, Candidates(cs, start));
      }
    }

    /**
     * The search returns at most `maxResults` opportunities, best first, each
     * a cycle start → A → B → start through two other registered currencies
     * at the threshold or above.
     */
    lemma SearchResults(t: Table, cs: seq<string>, start: string, amount: real)
      requires Search(t, cs, start, amount).Ok?
      ensures var found := Search(t, cs, start, amount).value;
        && (maxResults >= 0 ==> |found| <= maxResults)
        && SortedDesc(found, ProfitOf)
        && forall o :: o in found ==>
          && o.startingCurrency == start
          && o.profitPercentage >= minProfitPercentage
          && |o.steps| == 3
          && o.steps[0].source == start && o.steps[2].target == start
          && o.steps[0].target != start && o.steps[1].target != start
          && o.steps[0].target in cs && o.steps[1].target in cs
    {
      if maxSteps == 3 {
        var ps := Candidates(cs, start);
        var kept := Scan(t, cs, start, amount, ps).value;
        var sorted := SortDesc(kept, ProfitOf);
        var found := SliceTo(sorted, maxResults);
        SortDescPermutes(kept, ProfitOf);
        SortDescSorted(kept, ProfitOf);
        PrefixSorted(sorted, ProfitOf, |found|);
        ScanKeeps(t, cs, start, amount, ps);
        forall o | o in found
          ensures o.startingCurrency == start && o.profitPercentage >= minProfitPercentage
            && |o.steps| == 3 && o.steps[0].source == start && o.steps[2].target == start
            && o.steps[0].target != start && o.steps[1].target != start
            && o.steps[0].target in cs && o.steps[1].target in cs
        {
          assert o in multiset(sorted);
          var p :| p in ps && Evaluate(t, cs, Cycle(start, p.0, p.1), amount) == Found(o);
          CandidateShape(t, cs, start, amount, p, o);
        }
      }
    }

    /**
     * What the search selects: the first `maxResults` opportunities of an
     * ordering of the kept candidates that is best first and keeps
     * candidates of equal profit in the order the scan found them.
     */
    lemma SearchSelects(t: Table, cs: seq<string>, start: string, amount: real)
      requires start in cs && maxSteps == 3
      requires Scan(t, cs, start, amount, Candidates(cs, start)).Ok?
      ensures var kept := Scan(t, cs, start, amount, Candidates(cs, start)).value;
        var found := Search(t, cs, start, amount).value;
        && (maxResults >= 0 ==> |found| == if maxResults <= |kept| then maxResults else |kept|)
        && exists s: seq<Opportunity> ::
          && found == SliceTo(s, maxResults)
          && multiset(s) == multiset(kept)
          && SortedDesc(s, ProfitOf)
          && forall k :: WithKey(s, ProfitOf, k) == WithKey(kept, ProfitOf, k)
    {
      var kept := Scan(t, cs, start, amount, Candidates(cs, start)).value;
      var s := SortDesc(kept, ProfitOf);
      SortDescPermutes(kept, ProfitOf);
      SortDescSorted(kept, ProfitOf);
      forall k ensures WithKey(s, ProfitOf, k) == WithKey(kept, ProfitOf, k) {
        SortDescStable(kept, ProfitOf, k);
      }
    }

    /** A candidate opportunity the search does not return is no better than any returned one. */
    lemma SearchKeepsBest(t: Table, cs: seq<string>, start: string, amount: real, a: string, b: string)
      requires start in cs && maxSteps == 3 && amount != 0.0
      requires (a, b) in Candidates(cs, start)
      requires Evaluate(t, cs, Cycle(start, a, b), amount).Found?
      ensures Search(t, cs, start, amount).Ok?
      ensures var o := Evaluate(t, cs, Cycle(start, a, b), amount).opportunity;
        var found := Search(t, cs, start, amount).value;
        o !in found ==> forall f :: f in found ==> o.profitPercentage <= f.profitPercentage
    {
      var ps := Candidates(cs, start);
      ScanFails(t, cs, start, amount, ps);
      ScanComplete(t, cs, start, amount, ps, (a, b));
      var kept := Scan(t, cs, start, amount, ps).value;
      var o := Evaluate(t, cs, Cycle(start, a, b), amount).opportunity;
      var sorted := SortDesc(kept, ProfitOf);
      var found := SliceTo(sorted, maxResults);
      SortDescPermutes(kept, ProfitOf);
      SortDescSorted(kept, ProfitOf);
      if o !in found {
        assert o in multiset(sorted);
        var k :| 0 <= k < |sorted| && sorted[k] == o;
        assert found == sorted[..|found|];
        assert k >= |found|;
        forall f | f in found ensures o.profitPercentage <= f.profitPercentage {
          var m :| 0 <= m < |found| && found[m] == f;
          assert sorted[m] == f;
        }
      }
    }

    /** `find_best_opportunity` (api/models/arbitrage.py:206-217): the head of the search. */
    function Best(t: Table, cs: seq<string>, start: string, amount: real): Result<Option<Opportunity>, FinderError>
    {
      match Search(t, cs, start, amount)
      case Err(e) => Err(e)
      case Ok(found) => if found == [] then Ok(None) else Ok(Some(found[0]))
    }

    /**
     * While at least one result is requested, the best opportunity is at
     * least as profitable as every candidate cycle's, and there is none
     * exactly when no candidate reaches the threshold.
     */
    lemma BestIsBest(t: Table, cs: seq<string>, start: string, amount: real)
      requires start in cs && maxSteps == 3 && amount != 0.0 && maxResults > 0
      ensures Best(t, cs, start, amount).Ok?
      ensures Best(t, cs, start, amount).value.Some? ==>
        var o := Best(t, cs, start, amount).value.value;
        forall p :: p in Candidates(cs, start) && Evaluate(t, cs, Cycle(start, p.0, p.1), amount).Found? ==>
          Evaluate(t, cs, Cycle(start, p.0, p.1), amount).opportunity.profitPercentage <= o.profitPercentage
      ensures Best(t, cs, start, amount).value.None? <==>
        forall p :: p in Candidates(cs, start) ==> !Evaluate(t, cs, Cycle(start, p.0, p.1), amount).Found?
    {
      var ps := Candidates(cs, start);
      ScanFails(t, cs, start, amount, ps);
      var kept := Scan(t, cs, start, amount, ps).value;
      var sorted := SortDesc(kept, ProfitOf);
      SortDescPermutes(kept, ProfitOf);
      SortDescSorted(kept, ProfitOf);
      var found := SliceTo(sorted, maxResults);
      forall p | p in ps && Evaluate(t, cs, Cycle(start, p.0, p.1), amount).Found?
        ensures found != [] && Evaluate(t, cs, Cycle(start, p.0, p.1), amount).opportunity.profitPercentage <= found[0].profitPercentage
      {
        ScanComplete(t, cs, start, amount, ps, p);
        var o := Evaluate(t, cs, Cycle(start, p.0, p.1), amount).opportunity;
        assert o in multiset(sorted);
        var k :| 0 <= k < |sorted| && sorted[k] == o;
        assert found[0] == sorted[0];
      }
      if found == [] {
        forall p | p in ps ensures !Evaluate(t, cs, Cycle(start, p.0, p.1), amount).Found? {
          if Evaluate(t, cs, Cycle(start, p.0, p.1), amount).Found? {
            ScanComplete(t, cs, start, amount, ps, p);
          }
        }
      } else {
        ScanKeeps(t, cs, start, amount, ps);
        assert found[0] == sorted[0];
        assert found[0] in multiset(kept);
        assert found[0] in kept;
        var p :| p in ps && Evaluate(t, cs, Cycle(start, p.0, p.1), amount) == Found(found[0]);
        assert Evaluate(t, cs, Cycle(start, p.0, p.1), amount).Found?;
      }
    }

    /** `find_best_opportunity`. */
    method FindBestOpportunity(m: Rates.RateMatrix, start: string, amount: real) returns (r: Result<Option<Opportunity>, FinderError>)
      ensures r == Best(m.rates, m.currencies, start, amount)
    {
      var found := FindOpportunities(m, start, amount);
      if found.Err? {
        return Err(found.error);
      }
      r := if found.value == [] then Ok(None) else Ok(Some(found.value[0]));
    }

    /** What `analyze_all_currencies` records for one currency: its search, or nothing when the search raised. */
    function Analysis(t: Table, cs: seq<string>, c: string, amount: real): seq<Opportunity>
    {
      match Search(t, cs, c, amount)
      case Ok(found) => found
      case Err(_) => []
    }

    /** `analyze_all_currencies` (api/models/arbitrage.py:219-245). */
    method AnalyzeAllCurrencies(m: Rates.RateMatrix, amount: real) returns (results: map<string, seq<Opportunity>>)
      ensures results.Keys == set c | c in m.currencies
      ensures forall c :: c in results ==> results[c] == Analysis(m.rates, m.currencies, c, amount)
    {
      results := map[];
      var i := 0;
      while i < |m.currencies|
        invariant 0 <= i <= |m.currencies|
        invariant results.Keys == set c | c in m.currencies[..i]
        invariant forall c :: c in results ==> results[c] == Analysis(m.rates, m.currencies, c, amount)
      {
        var c := m.currencies[i];
        var found := FindOpportunities(m, c, amount);
        if found.Ok? {
          results := results[c := found.value];
        } else {
          results := results[c := []];
        }
        assert m.currencies[..i + 1] == m.currencies[..i] + [c];
        i := i + 1;
      }
      assert m.currencies[..i] == m.currencies;
    }

    /** With a non-zero amount, every registered currency's analysis is its full search result. */
    lemma AnalysisOfRegistered(t: Table, cs: seq<string>, c: string, amount: real)
      requires c in cs && amount != 0.0
      ensures Search(t, cs, c, amount) == Ok(Analysis(t, cs, c, amount))
    {
      SearchErrors(t, cs, c, amount);
    }
  }

  /** The settings `ArbitrageFinder()` uses by default. */
  const DefaultFinder := ArbitrageFinder(0.01, 3, 0.0, 10)

  /**
   * With the default settings there is no slippage, so a found path ends
   * with the starting amount times the product of its rates; for a positive
   * starting amount that product is at least 1.0001, the 0.01 % threshold.
   */
  lemma DefaultFinderFinal(t: Table, cs: seq<string>, path: seq<string>, amount: real)
    requires DefaultFinder.Evaluate(t, cs, path, amount).Found?
    ensures var o := DefaultFinder.Evaluate(t, cs, path, amount).opportunity;
      && o.finalAmount == amount * PathProduct(t, path)
      && (amount > 0.0 ==> PathProduct(t, path) >= 1.0001)
  {
    assert |path| >= 2 && Hops(t, cs, 0.0, path, amount).Some?;
    var steps := Hops(t, cs, 0.0, path, amount).value;
    var final := Current(steps, amount);
    assert amount != 0.0;
    var o := Opportunity(path[0], amount, final, final - amount, (final - amount) / amount * 100.0, steps);
    assert DefaultFinder.Evaluate(t, cs, path, amount) == Found(o);
    NoSlippageFinal(t, cs, path, amount);
    if amount > 0.0 {
      ThresholdProduct(amount, final, PathProduct(t, path));
    }
  }

  /** With the default settings a search returns at most 10 opportunities, each at 0.01 % profit or more. */
  lemma DefaultFinderCap(t: Table, cs: seq<string>, start: string, amount: real)
    requires DefaultFinder.Search(t, cs, start, amount).Ok?
    ensures |DefaultFinder.Search(t, cs, start, amount).value| <= 10
    ensures forall o :: o in DefaultFinder.Search(t, cs, start, amount).value ==> o.profitPercentage >= 0.01
  {
    DefaultFinder.SearchResults(t, cs, start, amount);
  }

  /** A percentage gain of at least 0.01 on a positive amount is a factor of at least 1.0001. */
  lemma ThresholdProduct(amount: real, final: real, q: real)
    requires amount > 0.0 && final == amount * q
    requires (final - amount) / amount * 100.0 >= 0.01
    ensures q >= 1.0001
  {
    var d := q - 1.0;
    assert amount * q - amount == d * amount;
    assert d * amount / amount == d;
  }

  /** A later prefix of the pair enumeration extends an earlier one. */
  lemma {:induction false} PartnersPrefix(xs: seq<string>, i: nat, j: nat, k: nat)
    requires i < |xs| && j <= k <= |xs|
    ensures Partners(xs, i, j) <= Partners(xs, i, k)
    decreases k
  {
    if j < k {
      PartnersPrefix(xs, i, j, k - 1);
    }
  }

  lemma {:induction false} PairsPrefixMonotone(xs: seq<string>, i: nat, k: nat)
    requires i <= k <= |xs|
    ensures Pairs(xs, i) <= Pairs(xs, k)
    decreases k
  {
    if i < k {
      PairsPrefixMonotone(xs, i, k - 1);
    }
  }

  /** The pairs of the first `i` rows followed by the whole row `i` are a prefix of all pairs. */
  lemma PairsThroughRow(xs: seq<string>, i: nat)
    requires i < |xs|
    ensures Pairs(xs, i) + Partners(xs, i, |xs|) <= Pairs(xs, |xs|)
  {
    PairsPrefixMonotone(xs, i + 1, |xs|);
  }

  /** Part of row `i` extends to the whole row `i`. */
  lemma PairsWithinRow(xs: seq<string>, i: nat, j: nat)
    requires i < |xs| && j <= |xs|
    ensures Pairs(xs, i) + Partners(xs, i, j) <= Pairs(xs, i) + Partners(xs, i, |xs|)
  {
    PartnersPrefix(xs, i, j, |xs|);
    PrefixAfter(Pairs(xs, i), Partners(xs, i, j), Partners(xs, i, |xs|));
  }

  /** Every state of the permutation loop is a prefix of the whole enumeration. */
  lemma PairsPrefix(xs: seq<string>, i: nat, j: nat)
    requires i < |xs| && j <= |xs|
    ensures Pairs(xs, i) + Partners(xs, i, j) <= Pairs(xs, |xs|)
  {
    PairsWithinRow(xs, i, j);
    PairsThroughRow(xs, i);
    PrefixTransitive(Pairs(xs, i) + Partners(xs, i, j), Pairs(xs, i) + Partners(xs, i, |xs|), Pairs(xs, |xs|));
  }

  /** Once a hop fails, the whole path fails. */
  lemma {:induction false} HopsStop(t: Table, cs: seq<string>, slippage: real, path: seq<string>, amount: real, n: nat)
    requires 1 <= n <= |path| && Hops(t, cs, slippage, path[..n], amount).None?
    ensures Hops(t, cs, slippage, path, amount).None?
    decreases |path|
  {
    if n < |path| {
      assert path[..|path| - 1][..n] == path[..n];
      HopsStop(t, cs, slippage, path[..|path| - 1], amount, n);
    } else {
      assert path[..n] == path;
    }
  }
}
