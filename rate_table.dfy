/**
 * The rate table of api/models/rates.py as a value: `_rates` is a dict of
 * dicts, `_rates[from][to]` being how many `to` one `from` buys, 0.0 meaning
 * "unknown". The operations that `CurrencyRateMatrix` performs on it are
 * specified here as functions; the class in module Rates runs them in place.
 */
module RateTable {
  import opened Wrappers

  type Table = map<string, map<string, real>>

  /** The `ValueError`s the rate matrix raises, one per message. */
  datatype Error =
    | UnsupportedCurrency(currency: string)
    | InvalidRate(rate: real)
    | NoValidRate(source: string, target: string)

  /** `_rates[x][y]`, read as 0.0 where the table has no entry. */
  function Get(t: Table, x: string, y: string): real
  {
    if x in t && y in t[x] then t[x][y] else 0.0
  }

  /** `_rates[x][y] = v`: exactly one entry changes, and no row or entry disappears. */
  function Put(t: Table, x: string, y: string, v: real): (r: Table)
    ensures forall p, q :: Get(r, p, q) == if p == x && q == y then v else Get(t, p, q)
    ensures forall p, q :: p in t && q in t[p] ==> p in r && q in r[p]
  {
    t[x := (if x in t then t[x] else map[])[y := v]]
  }

  /** Every registered pair has an entry. */
  ghost predicate Covers(t: Table, cs: seq<string>)
  {
    forall x, y :: x in cs && y in cs ==> x in t && y in t[x]
  }

  ghost predicate NonNegative(t: Table)
  {
    forall x, y :: Get(t, x, y) >= 0.0
  }

  /** Inverse consistency: a known off-diagonal rate is the reciprocal of the reverse rate. */
  ghost predicate Reciprocal(t: Table)
  {
    forall x, y :: x != y && Get(t, x, y) > 0.0 ==> Get(t, y, x) == 1.0 / Get(t, x, y)
  }

  ghost predicate PositiveDiagonal(t: Table, cs: seq<string>)
  {
    forall x :: x in cs ==> Get(t, x, x) > 0.0
  }

  /** The invariant that every operation of the rate matrix keeps. */
  ghost predicate WellFormed(t: Table, cs: seq<string>)
  {
    Covers(t, cs) && NonNegative(t) && Reciprocal(t) && PositiveDiagonal(t, cs)
  }

  /** Every diagonal entry is exactly 1.0, as `_initialize_matrix` leaves it. */
  ghost predicate IdentityDiagonal(t: Table, cs: seq<string>)
  {
    forall x :: x in cs ==> Get(t, x, x) == 1.0
  }

  lemma ReciprocalOfReciprocal(v: real)
    requires v > 0.0
    ensures 1.0 / v > 0.0 && 1.0 / (1.0 / v) == v
  {
  }

  lemma ProductPositive(u: real, v: real)
    requires u > 0.0 && v > 0.0
    ensures u * v > 0.0
  {
  }

  /** The table `_initialize_matrix` builds (api/models/rates.py:165-173). */
  function InitialRates(cs: seq<string>): Table
  {
    InitialRows(cs, cs)
  }

  /** The rows of the sources `xs`, each over the targets `cs`. */
  function InitialRows(xs: seq<string>, cs: seq<string>): Table
  {
    if xs == [] then map[]
    else
      var x := xs[|xs| - 1];
      InitialRows(xs[..|xs| - 1], cs)[x := InitialRow(x, cs)]
  }

  lemma InitialRowsSnoc(xs: seq<string>, x: string, cs: seq<string>)
    ensures InitialRows(xs + [x], cs) == InitialRows(xs, cs)[x := InitialRow(x, cs)]
  {
    assert (xs + [x])[..|xs|] == xs;
  }

  /** The row of `x` over the targets `ys`: 1.0 for `x` itself, 0.0 for the others. */
  function InitialRow(x: string, ys: seq<string>): map<string, real>
  {
    if ys == [] then map[]
    else
      var y := ys[|ys| - 1];
      InitialRow(x, ys[..|ys| - 1])[y := if x == y then 1.0 else 0.0]
  }

  lemma InitialRowSnoc(x: string, ys: seq<string>, y: string)
    ensures InitialRow(x, ys + [y]) == InitialRow(x, ys)[y := if x == y then 1.0 else 0.0]
  {
    assert (ys + [y])[..|ys|] == ys;
  }

  /** The rows of `xs` are keyed by `xs`, each row by `cs`, with 1.0 exactly on the diagonal. */
  lemma {:induction false} InitialRowsContents(xs: seq<string>, cs: seq<string>)
    ensures InitialRows(xs, cs).Keys == set x | x in xs
    ensures forall x :: x in xs ==> InitialRows(xs, cs)[x].Keys == set y | y in cs
    ensures forall x, y :: x in xs && y in cs ==> InitialRows(xs, cs)[x][y] == if x == y then 1.0 else 0.0
  {
    if xs != [] {
      var x := xs[|xs| - 1];
      assert xs == xs[..|xs| - 1] + [x];
      InitialRowsContents(xs[..|xs| - 1], cs);
      InitialRowContents(x, cs);
    }
  }

  lemma {:induction false} InitialRowContents(x: string, ys: seq<string>)
    ensures InitialRow(x, ys).Keys == set y | y in ys
    ensures forall y :: y in ys ==> InitialRow(x, ys)[y] == if x == y then 1.0 else 0.0
  {
    if ys != [] {
      var y := ys[|ys| - 1];
      assert ys == ys[..|ys| - 1] + [y];
      InitialRowContents(x, ys[..|ys| - 1]);
    }
  }

  /** A fresh table has 1.0 on the diagonal, 0.0 on every other registered pair, and is well formed. */
  lemma InitialRatesWellFormed(cs: seq<string>)
    ensures forall x, y :: x in cs && y in cs ==> Get(InitialRates(cs), x, y) == if x == y then 1.0 else 0.0
    ensures WellFormed(InitialRates(cs), cs) && IdentityDiagonal(InitialRates(cs), cs)
  {
    InitialRowsContents(cs, cs);
  }

  /**
   * `set_rate`: both currencies must be registered (checked in that order)
   * and the rate positive; then the rate and its reciprocal are written.
   */
  function SetRateSpec(t: Table, cs: seq<string>, x: string, y: string, r: real): Result<Table, Error>
  {
    if x !in cs then Err(UnsupportedCurrency(x))
    else if y !in cs then Err(UnsupportedCurrency(y))
    else if r <= 0.0 then Err(InvalidRate(r))
    else Ok(Put(Put(t, x, y, r), y, x, 1.0 / r))
  }

  /** A successful `set_rate` between two different currencies writes that pair and no other entry. */
  lemma SetRateFrame(t: Table, cs: seq<string>, x: string, y: string, r: real)
    requires x != y && SetRateSpec(t, cs, x, y, r).Ok?
    ensures var u := SetRateSpec(t, cs, x, y, r).value;
      && Get(u, x, y) == r
      && forall p, q :: !(p == x && q == y) && !(p == y && q == x) ==> Get(u, p, q) == Get(t, p, q)
  {
  }

  /**
   * `set_rate` fails exactly on an unregistered currency or a non-positive
   * rate; for two different currencies it sets the rate and its reciprocal and
   * no other entry, and it keeps the table well formed. Writing a currency to
   * itself is not guarded and leaves `1/r` on the diagonal.
   */
  lemma SetRateEffect(t: Table, cs: seq<string>, x: string, y: string, r: real)
    requires WellFormed(t, cs)
    ensures SetRateSpec(t, cs, x, y, r).Ok? <==> x in cs && y in cs && r > 0.0
    ensures x !in cs ==> SetRateSpec(t, cs, x, y, r) == Err(UnsupportedCurrency(x))
    ensures x in cs && y !in cs ==> SetRateSpec(t, cs, x, y, r) == Err(UnsupportedCurrency(y))
    ensures x in cs && y in cs && r <= 0.0 ==> SetRateSpec(t, cs, x, y, r) == Err(InvalidRate(r))
    ensures SetRateSpec(t, cs, x, y, r).Ok? ==>
      var u := SetRateSpec(t, cs, x, y, r).value;
      && WellFormed(u, cs)
      && (x != y ==> Get(u, x, y) == r && Get(u, y, x) == 1.0 / r)
      && (x == y ==> Get(u, x, x) == 1.0 / r)
      && (forall p, q :: !(p == x && q == y) && !(p == y && q == x) ==> Get(u, p, q) == Get(t, p, q))
  {
    if x in cs && y in cs && r > 0.0 {
      ReciprocalOfReciprocal(r);
      var u := SetRateSpec(t, cs, x, y, r).value;
      forall p, q | p != q && Get(u, p, q) > 0.0 ensures Get(u, q, p) == 1.0 / Get(u, p, q) {
        if p == x && q == y {
        } else if p == y && q == x {
        } else {
          assert Get(u, p, q) == Get(t, p, q) && Get(u, q, p) == Get(t, q, p);
        }
      }
    }
  }

  /** Writing a rate between two different currencies keeps every diagonal entry. */
  lemma SetRateKeepsIdentity(t: Table, cs: seq<string>, x: string, y: string, r: real)
    requires WellFormed(t, cs) && IdentityDiagonal(t, cs) && x != y
    requires SetRateSpec(t, cs, x, y, r).Ok?
    ensures IdentityDiagonal(SetRateSpec(t, cs, x, y, r).value, cs)
  {
    SetRateEffect(t, cs, x, y, r);
  }


  // ---------------------------------------------------------------------
  // Runs of `set_rate` calls
  // ---------------------------------------------------------------------

  /** A requested rate: `rate` units of `target` for one unit of `source`. */
  datatype Quote = Quote(source: string, target: string, rate: real)

  /** A quote `set_rate` accepts. */
  predicate Accepted(q: Quote, cs: seq<string>)
  {
    q.source in cs && q.target in cs && q.rate > 0.0
  }

  /** The table after a run of `set_rate` calls, and the error that stopped the run, if any. */
  datatype Applied = Applied(table: Table, failure: Option<Error>)

  /** `set_rate` for each quote in order; the first error propagates and leaves the earlier writes in place. */
  function ApplyQuotes(t: Table, cs: seq<string>, qs: seq<Quote>): Applied
  {
    if qs == [] then Applied(t, None)
    else
      var pre := ApplyQuotes(t, cs, qs[..|qs| - 1]);
      var q := qs[|qs| - 1];
      if pre.failure.Some? then pre
      else match SetRateSpec(pre.table, cs, q.source, q.target, q.rate)
        case Ok(u) => Applied(u, None)
        case Err(e) => Applied(pre.table, Some(e))
  }

  lemma ApplyQuotesStep(t: Table, cs: seq<string>, qs: seq<Quote>, q: Quote)
    requires ApplyQuotes(t, cs, qs).failure.None?
    ensures ApplyQuotes(t, cs, qs + [q]) ==
      match SetRateSpec(ApplyQuotes(t, cs, qs).table, cs, q.source, q.target, q.rate)
      case Ok(u) => Applied(u, None)
      case Err(e) => Applied(ApplyQuotes(t, cs, qs).table, Some(e))
  {
    assert (qs + [q])[..|qs|] == qs;
  }

  /** Once a quote is rejected, later quotes change nothing. */
  lemma {:induction false} ApplyQuotesStopped(t: Table, cs: seq<string>, qs: seq<Quote>, all: seq<Quote>)
    requires qs <= all && ApplyQuotes(t, cs, qs).failure.Some?
    ensures ApplyQuotes(t, cs, all) == ApplyQuotes(t, cs, qs)
    decreases |all|
  {
    if |all| > |qs| {
      assert qs <= all[..|all| - 1];
      ApplyQuotesStopped(t, cs, qs, all[..|all| - 1]);
    } else {
      assert all == qs;
    }
  }

  /** The position of the first quote `set_rate` rejects, or `|qs|` when it accepts them all. */
  function FirstRejected(qs: seq<Quote>, cs: seq<string>): (k: nat)
    ensures k <= |qs|
    ensures forall m :: 0 <= m < k ==> Accepted(qs[m], cs)
    ensures k < |qs| ==> !Accepted(qs[k], cs)
  {
    if qs == [] || !Accepted(qs[0], cs) then 0 else 1 + FirstRejected(qs[1..], cs)
  }

  /** The error `set_rate` raises for a quote it rejects. */
  function Rejection(q: Quote, cs: seq<string>): Error
  {
    if q.source !in cs then UnsupportedCurrency(q.source)
    else if q.target !in cs then UnsupportedCurrency(q.target)
    else InvalidRate(q.rate)
  }

  lemma {:induction false} ApplyAccepted(t: Table, cs: seq<string>, qs: seq<Quote>)
    requires forall k :: 0 <= k < |qs| ==> Accepted(qs[k], cs)
    ensures ApplyQuotes(t, cs, qs).failure.None?
  {
    if qs != [] {
      ApplyAccepted(t, cs, qs[..|qs| - 1]);
    }
  }

  /** A run of `set_rate` calls keeps the table well formed. */
  lemma {:induction false} ApplyQuotesWellFormed(t: Table, cs: seq<string>, qs: seq<Quote>)
    requires WellFormed(t, cs)
    ensures WellFormed(ApplyQuotes(t, cs, qs).table, cs)
  {
    if qs != [] {
      var q := qs[|qs| - 1];
      ApplyQuotesWellFormed(t, cs, qs[..|qs| - 1]);
      SetRateEffect(ApplyQuotes(t, cs, qs[..|qs| - 1]).table, cs, q.source, q.target, q.rate);
    }
  }

  /** A run fails exactly when some quote is rejected. */
  lemma ApplyQuotesFailure(t: Table, cs: seq<string>, qs: seq<Quote>)
    ensures ApplyQuotes(t, cs, qs).failure.None? <==> forall k :: 0 <= k < |qs| ==> Accepted(qs[k], cs)
  {
    var k := FirstRejected(qs, cs);
    if k < |qs| {
      ApplyQuotesStopsAtFirst(t, cs, qs);
    } else {
      assert qs[..k] == qs;
      ApplyAccepted(t, cs, qs);
    }
  }

  /**
   * A failing run stops at the first rejected quote with that quote's error,
   * and the writes of the quotes before it stay in the table.
   */
  lemma ApplyQuotesStopsAtFirst(t: Table, cs: seq<string>, qs: seq<Quote>)
    requires FirstRejected(qs, cs) < |qs|
    ensures var k := FirstRejected(qs, cs);
      ApplyQuotes(t, cs, qs) == Applied(ApplyQuotes(t, cs, qs[..k]).table, Some(Rejection(qs[k], cs)))
  {
    var k := FirstRejected(qs, cs);
    ApplyAccepted(t, cs, qs[..k]);
    assert qs[..k + 1] == qs[..k] + [qs[k]];
    ApplyQuotesStep(t, cs, qs[..k], qs[k]);
    ApplyQuotesStopped(t, cs, qs[..k + 1], qs);
  }

  /** While no quote writes a currency to itself, the diagonal keeps 1.0. */
  lemma {:induction false} ApplyQuotesIdentity(t: Table, cs: seq<string>, qs: seq<Quote>)
    requires WellFormed(t, cs) && IdentityDiagonal(t, cs)
    requires forall k :: 0 <= k < |qs| ==> qs[k].source != qs[k].target
    ensures IdentityDiagonal(ApplyQuotes(t, cs, qs).table, cs)
  {
    if qs != [] {
      var pre := qs[..|qs| - 1];
      var q := qs[|qs| - 1];
      ApplyQuotesIdentity(t, cs, pre);
      ApplyQuotesWellFormed(t, cs, pre);
      var p := ApplyQuotes(t, cs, pre);
      if p.failure.None? && Accepted(q, cs) {
        SetRateKeepsIdentity(p.table, cs, q.source, q.target, q.rate);
      }
    }
  }

  /** The `set_rate(base, currency, rate)` calls of `set_rates_from_base`, skipping the base itself. */
  function BaseQuotes(base: string, items: seq<(string, real)>): (r: seq<Quote>)
    ensures forall k :: 0 <= k < |r| ==> r[k].source == base && r[k].target != base
  {
    if items == [] then []
    else
      var pre := BaseQuotes(base, items[..|items| - 1]);
      var (c, rate) := items[|items| - 1];
      if c == base then pre else pre + [Quote(base, c, rate)]
  }

  /** Quoted currencies other than the base are exactly the targets of the calls, each with its rate. */
  lemma {:induction false} BaseQuotesContents(base: string, items: seq<(string, real)>)
    ensures forall q :: q in BaseQuotes(base, items) <==> q.source == base && (q.target, q.rate) in items && q.target != base
  {
    if items != [] {
      var pre := items[..|items| - 1];
      BaseQuotesContents(base, pre);
      assert items == pre + [items[|items| - 1]];
      forall q ensures q in BaseQuotes(base, items) <==> q.source == base && (q.target, q.rate) in items && q.target != base {
        assert (q.target, q.rate) in items <==> (q.target, q.rate) in pre || (q.target, q.rate) == items[|items| - 1];
      }
    }
  }

  lemma {:induction false} BaseQuotesMonotone(base: string, xs: seq<(string, real)>, ys: seq<(string, real)>)
    requires xs <= ys
    ensures BaseQuotes(base, xs) <= BaseQuotes(base, ys)
    decreases |ys|
  {
    if |ys| > |xs| {
      assert xs <= ys[..|ys| - 1];
      BaseQuotesMonotone(base, xs, ys[..|ys| - 1]);
    } else {
      assert xs == ys;
    }
  }

  /** The quotes with a positive rate, in order: `from_poe2scout_data` skips the others. */
  function PositiveQuotes(qs: seq<Quote>): (r: seq<Quote>)
    ensures forall q :: q in r <==> q in qs && q.rate > 0.0
  {
    if qs == [] then []
    else
      var pre := PositiveQuotes(qs[..|qs| - 1]);
      assert qs == qs[..|qs| - 1] + [qs[|qs| - 1]];
      if qs[|qs| - 1].rate > 0.0 then pre + [qs[|qs| - 1]] else pre
  }

  lemma {:induction false} PositiveQuotesMonotone(xs: seq<Quote>, ys: seq<Quote>)
    requires xs <= ys
    ensures PositiveQuotes(xs) <= PositiveQuotes(ys)
    decreases |ys|
  {
    if |ys| > |xs| {
      assert xs <= ys[..|ys| - 1];
      PositiveQuotesMonotone(xs, ys[..|ys| - 1]);
    } else {
      assert xs == ys;
    }
  }

  // ---------------------------------------------------------------------
  // Transitive completion, `_compute_transitive_rates` (api/models/rates.py:222-240)
  // ---------------------------------------------------------------------

  /** One visit of the innermost loop body to the triple (a, b, c). */
  function Derive(t: Table, a: string, b: string, c: string): Table
  {
    if a != b && b != c && a != c && Get(t, a, b) > 0.0 && Get(t, b, c) > 0.0 && Get(t, a, c) == 0.0 then
      var ac := Get(t, a, b) * Get(t, b, c);
      Put(Put(t, a, c, ac), c, a, 1.0 / ac)
    else t
  }

  datatype Triple = Triple(a: string, b: string, c: string)

  /** The visits, in order, of the innermost loop for fixed a and b. */
  function PairTriples(a: string, b: string, cs: seq<string>): seq<Triple>
  {
    if cs == [] then [] else PairTriples(a, b, cs[..|cs| - 1]) + [Triple(a, b, cs[|cs| - 1])]
  }

  /** The visits, in order, of the two inner loops for a fixed a. */
  function RowTriples(a: string, bs: seq<string>, cs: seq<string>): seq<Triple>
  {
    if bs == [] then [] else RowTriples(a, bs[..|bs| - 1], cs) + PairTriples(a, bs[|bs| - 1], cs)
  }

  /** The visits, in order, of one full sweep of the triple loop. */
  function AllTriples(xs: seq<string>, cs: seq<string>): seq<Triple>
  {
    if xs == [] then [] else AllTriples(xs[..|xs| - 1], cs) + RowTriples(xs[|xs| - 1], cs, cs)
  }

  lemma {:induction false} PairTriplesMembers(a: string, b: string, cs: seq<string>)
    ensures forall tr :: tr in PairTriples(a, b, cs) <==> tr.a == a && tr.b == b && tr.c in cs
  {
    if cs != [] {
      PairTriplesMembers(a, b, cs[..|cs| - 1]);
      assert cs == cs[..|cs| - 1] + [cs[|cs| - 1]];
    }
  }

  lemma {:induction false} RowTriplesMembers(a: string, bs: seq<string>, cs: seq<string>)
    ensures forall tr :: tr in RowTriples(a, bs, cs) <==> tr.a == a && tr.b in bs && tr.c in cs
  {
    if bs != [] {
      RowTriplesMembers(a, bs[..|bs| - 1], cs);
      PairTriplesMembers(a, bs[|bs| - 1], cs);
      assert bs == bs[..|bs| - 1] + [bs[|bs| - 1]];
    }
  }

  /** A sweep visits exactly the triples of a row currency and two registered ones. */
  lemma {:induction false} AllTriplesMembers(xs: seq<string>, cs: seq<string>)
    ensures forall tr :: tr in AllTriples(xs, cs) <==> tr.a in xs && tr.b in cs && tr.c in cs
  {
    if xs != [] {
      AllTriplesMembers(xs[..|xs| - 1], cs);
      RowTriplesMembers(xs[|xs| - 1], cs, cs);
      assert xs == xs[..|xs| - 1] + [xs[|xs| - 1]];
    }
  }

  /** The table after visiting the triples `ts` in order. */
  function Fold(t: Table, ts: seq<Triple>): Table
  {
    if ts == [] then t else
      var last := ts[|ts| - 1];
      Derive(Fold(t, ts[..|ts| - 1]), last.a, last.b, last.c)
  }

  /** Visiting one more triple. */
  lemma FoldSnoc(t: Table, ts: seq<Triple>, tr: Triple)
    ensures Fold(t, ts + [tr]) == Derive(Fold(t, ts), tr.a, tr.b, tr.c)
  {
    assert (ts + [tr])[..|ts|] == ts;
  }

  /** Visiting `xs` and then `ys` is visiting `xs + ys`. */
  lemma {:induction false} FoldAppend(t: Table, xs: seq<Triple>, ys: seq<Triple>)
    ensures Fold(t, xs + ys) == Fold(Fold(t, xs), ys)
    decreases |ys|
  {
    if ys == [] {
      assert xs + ys == xs;
    } else {
      var pre := ys[..|ys| - 1];
      var last := ys[|ys| - 1];
      FoldAppend(t, xs, pre);
      assert ys == pre + [last];
      assert xs + ys == (xs + pre) + [last];
      FoldSnoc(t, xs + pre, last);
      FoldSnoc(Fold(t, xs), pre, last);
    }
  }

  /** One sweep of the triple loop over the registry. */
  function Pass(t: Table, cs: seq<string>): Table
  {
    Fold(t, AllTriples(cs, cs))
  }

  /** `k` sweeps; `_compute_transitive_rates` runs `|cs|` of them. */
  function Passes(t: Table, cs: seq<string>, k: nat): Table
  {
    if k == 0 then t else Pass(Passes(t, cs, k - 1), cs)
  }

  /** The completed table. */
  function Completed(t: Table, cs: seq<string>): Table
  {
    Passes(t, cs, |cs|)
  }

  /**
   * `u` extends `t` the way completion does: every known entry keeps its exact
   * value (the first value found wins) and no diagonal entry changes.
   */
  ghost predicate Extends(t: Table, u: Table)
  {
    && (forall x, y :: Get(t, x, y) > 0.0 ==> Get(u, x, y) == Get(t, x, y))
    && (forall x :: Get(u, x, x) == Get(t, x, x))
  }

  /** The triple's currencies are registered. */
  predicate InRegistry(tr: Triple, cs: seq<string>)
  {
    tr.a in cs && tr.b in cs && tr.c in cs
  }

  /** No known rate leads from a member of `X` to a registered currency outside `X`. */
  ghost predicate Closed(t: Table, cs: seq<string>, X: set<string>)
  {
    forall x, y :: x in X && y in cs && Get(t, x, y) > 0.0 ==> y in X
  }

  /**
   * One visit writes only an entry that was 0.0 off the diagonal, writes it
   * together with its reciprocal, and keeps the table well formed.
   */
  lemma DeriveExtends(t: Table, cs: seq<string>, a: string, b: string, c: string)
    requires WellFormed(t, cs)
    ensures WellFormed(Derive(t, a, b, c), cs) && Extends(t, Derive(t, a, b, c))
  {
    if Derive(t, a, b, c) != t {
      ProductPositive(Get(t, a, b), Get(t, b, c));
      PutPairExtends(t, cs, a, c, Get(t, a, b) * Get(t, b, c));
    }
  }

  /** Writing a missing off-diagonal pair and its reciprocal keeps the table well formed. */
  lemma PutPairExtends(t: Table, cs: seq<string>, a: string, c: string, v: real)
    requires WellFormed(t, cs) && a != c && Get(t, a, c) == 0.0 && v > 0.0
    ensures WellFormed(Put(Put(t, a, c, v), c, a, 1.0 / v), cs)
    ensures Extends(t, Put(Put(t, a, c, v), c, a, 1.0 / v))
  {
    assert Get(t, c, a) == 0.0;
    ReciprocalOfReciprocal(v);
    PutPairReciprocal(t, a, c, v);
  }

  /** Writing a missing pair together with its reciprocal keeps every pair reciprocal. */
  lemma PutPairReciprocal(t: Table, a: string, c: string, v: real)
    requires Reciprocal(t) && a != c && Get(t, a, c) == 0.0 && Get(t, c, a) == 0.0 && v > 0.0
    ensures Reciprocal(Put(Put(t, a, c, v), c, a, 1.0 / v))
  {
    var u := Put(Put(t, a, c, v), c, a, 1.0 / v);
    ReciprocalOfReciprocal(v);
    forall p, q | p != q && Get(u, p, q) > 0.0 ensures Get(u, q, p) == 1.0 / Get(u, p, q) {
      if p == a && q == c {
      } else if p == c && q == a {
      } else {
        assert Get(u, p, q) == Get(t, p, q) && Get(u, q, p) == Get(t, q, p);
      }
    }
  }

  /** A visit to registered currencies cannot make a closed set of currencies reach outside itself. */
  lemma DeriveClosed(t: Table, cs: seq<string>, X: set<string>, tr: Triple)
    requires WellFormed(t, cs) && InRegistry(tr, cs) && Closed(t, cs, X)
    ensures Closed(Derive(t, tr.a, tr.b, tr.c), cs, X)
  {
    var u := Derive(t, tr.a, tr.b, tr.c);
    if u != t {
      forall x, y | x in X && y in cs && Get(u, x, y) > 0.0 ensures y in X {
        if x == tr.a && y == tr.c {
          assert tr.b in X;
        } else if x == tr.c && y == tr.a {
          assert Get(t, tr.c, tr.b) > 0.0;
          assert tr.b in X;
          assert Get(t, tr.b, tr.a) > 0.0;
        } else {
          assert Get(u, x, y) == Get(t, x, y);
        }
      }
    }
  }

  /** Visiting (a, b, c) with a→b and b→c known leaves a→c known. */
  lemma DeriveJoins(t: Table, cs: seq<string>, a: string, b: string, c: string)
    requires WellFormed(t, cs)
    requires a != b && b != c && a != c && Get(t, a, b) > 0.0 && Get(t, b, c) > 0.0
    ensures Get(Derive(t, a, b, c), a, c) > 0.0
  {
    ProductPositive(Get(t, a, b), Get(t, b, c));
  }

  lemma {:induction false} FoldExtends(t: Table, cs: seq<string>, ts: seq<Triple>)
    requires WellFormed(t, cs)
    ensures WellFormed(Fold(t, ts), cs) && Extends(t, Fold(t, ts))
  {
    if ts != [] {
      var last := ts[|ts| - 1];
      FoldExtends(t, cs, ts[..|ts| - 1]);
      DeriveExtends(Fold(t, ts[..|ts| - 1]), cs, last.a, last.b, last.c);
    }
  }

  lemma {:induction false} FoldClosed(t: Table, cs: seq<string>, X: set<string>, ts: seq<Triple>)
    requires WellFormed(t, cs) && Closed(t, cs, X)
    requires forall i :: 0 <= i < |ts| ==> InRegistry(ts[i], cs)
    ensures Closed(Fold(t, ts), cs, X)
  {
    if ts != [] {
      var pre := ts[..|ts| - 1];
      FoldClosed(t, cs, X, pre);
      FoldExtends(t, cs, pre);
      DeriveClosed(Fold(t, pre), cs, X, ts[|ts| - 1]);
    }
  }

  lemma {:induction false} FoldJoins(t: Table, cs: seq<string>, ts: seq<Triple>, a: string, b: string, c: string)
    requires WellFormed(t, cs) && Triple(a, b, c) in ts
    requires a != b && b != c && a != c && Get(t, a, b) > 0.0 && Get(t, b, c) > 0.0
    ensures Get(Fold(t, ts), a, c) > 0.0
  {
    var pre := ts[..|ts| - 1];
    var last := ts[|ts| - 1];
    FoldExtends(t, cs, pre);
    var m := Fold(t, pre);
    if Triple(a, b, c) in pre {
      FoldJoins(t, cs, pre, a, b, c);
      DeriveExtends(m, cs, last.a, last.b, last.c);
    } else {
      assert ts == pre + [last];
      assert last == Triple(a, b, c);
      DeriveJoins(m, cs, a, b, c);
    }
  }

  lemma PassExtends(t: Table, cs: seq<string>)
    requires WellFormed(t, cs)
    ensures WellFormed(Pass(t, cs), cs) && Extends(t, Pass(t, cs))
  {
    FoldExtends(t, cs, AllTriples(cs, cs));
  }

  lemma PassClosed(t: Table, cs: seq<string>, X: set<string>)
    requires WellFormed(t, cs) && Closed(t, cs, X)
    ensures Closed(Pass(t, cs), cs, X)
  {
    var ts := AllTriples(cs, cs);
    AllTriplesMembers(cs, cs);
    forall i | 0 <= i < |ts| ensures InRegistry(ts[i], cs) {
      assert ts[i] in ts;
    }
    FoldClosed(t, cs, X, ts);
  }

  /** After one sweep, every pair joined through a third currency by known rates is known. */
  lemma PassJoins(t: Table, cs: seq<string>, a: string, b: string, c: string)
    requires WellFormed(t, cs) && a in cs && b in cs && c in cs
    requires a != b && b != c && a != c && Get(t, a, b) > 0.0 && Get(t, b, c) > 0.0
    ensures Get(Pass(t, cs), a, c) > 0.0
  {
    AllTriplesMembers(cs, cs);
    FoldJoins(t, cs, AllTriples(cs, cs), a, b, c);
  }

  /** Sweeps `p` to `q` only add entries, and the table stays well formed. */
  lemma {:induction false} PassesExtend(t: Table, cs: seq<string>, p: nat, q: nat)
    requires WellFormed(t, cs) && p <= q
    ensures WellFormed(Passes(t, cs, q), cs) && Extends(Passes(t, cs, p), Passes(t, cs, q))
    decreases q
  {
    if q > 0 {
      PassesExtend(t, cs, if p == q then 0 else p, q - 1);
      PassExtends(Passes(t, cs, q - 1), cs);
    }
  }

  lemma {:induction false} PassesClosed(t: Table, cs: seq<string>, X: set<string>, p: nat, q: nat)
    requires WellFormed(t, cs) && p <= q && Closed(Passes(t, cs, p), cs, X)
    ensures Closed(Passes(t, cs, q), cs, X)
    decreases q
  {
    if p < q {
      PassesClosed(t, cs, X, p, q - 1);
      PassesExtend(t, cs, 0, q - 1);
      PassClosed(Passes(t, cs, q - 1), cs, X);
    }
  }
}
