/**
 * The selection and mapping helpers of the POE2Scout scraper service:
 * choosing the registry of a freshly scraped matrix by popularity, mapping
 * POE2Scout display names to internal currency ids, and filling estimated
 * rates into a matrix that lacks them.
 */
module Poe2Scout {
  import opened Wrappers
  import opened Text
  import opened Sequences
  import opened RateTable
  import opened Rates

  // ---------------------------------------------------------------------
  // `_get_top_currencies`
  // ---------------------------------------------------------------------

  /** One item of `currency_metadata`: a currency id and its `popularity_score`. */
  datatype CurrencyStats = CurrencyStats(key: string, popularity: real)

  function Popularity(s: CurrencyStats): real
  {
    s.popularity
  }

  /** The currency ids of the items, in order. */
  function Keys(ms: seq<CurrencyStats>): (r: seq<string>)
    ensures |r| == |ms|
    ensures forall i :: 0 <= i < |ms| ==> r[i] == ms[i].key
  {
    seq(|ms|, i requires 0 <= i < |ms| => ms[i].key)
  }

  /** The items of a dictionary: no currency id occurs twice. */
  predicate DistinctKeys(ms: seq<CurrencyStats>)
  {
    forall i, j :: 0 <= i < j < |ms| ==> ms[i].key != ms[j].key
  }

  /** Python's `int(x)` on a float: truncation toward zero. */
  function Truncate(x: real): (n: int)
    ensures x >= 0.0 ==> n as real <= x < n as real + 1.0
    ensures x < 0.0 ==> n as real - 1.0 < x <= n as real
  {
    if x >= 0.0 then x.Floor else -((-x).Floor)
  }

  const MinCurrencies: int := 10
  const MaxCurrencies: int := 50

  /** The core ids, in the order they are appended when missing. */
  const CoreCurrencies: seq<string> := ["exalted", "divine", "chaos"]

  /** `target_count`: the share `p` of `total` currencies, truncated, then clamped to [10, 50]. */
  function TargetCount(total: nat, p: real): (n: int)
    ensures MinCurrencies <= n <= MaxCurrencies
    ensures MinCurrencies <= Truncate(total as real * p) <= MaxCurrencies ==> n == Truncate(total as real * p)
    ensures Truncate(total as real * p) < MinCurrencies ==> n == MinCurrencies
    ensures Truncate(total as real * p) > MaxCurrencies ==> n == MaxCurrencies
  {
    var wanted := Truncate(total as real * p);
    var atLeast := if wanted < MinCurrencies then MinCurrencies else wanted;
    if atLeast > MaxCurrencies then MaxCurrencies else atLeast
  }

  /**
   * The loop over the core ids: each one present in `keys` and not yet in
   * the list is appended. The list only grows at its end, by at most one id
   * per core id, and stays free of duplicates.
   */
  function AddCores(top: seq<string>, cores: seq<string>, keys: seq<string>): (r: seq<string>)
    ensures top <= r
    ensures |r| <= |top| + |cores|
    ensures forall x :: x in r ==> x in top || (x in cores && x in keys)
    ensures forall c :: c in cores && c in keys ==> c in r
    ensures NoDuplicates(top) ==> NoDuplicates(r)
  {
    if cores == [] then top
    else
      var pre := cores[..|cores| - 1];
      var c := cores[|cores| - 1];
      var r := AddCores(top, pre, keys);
      assert cores == pre + [c];
      if c !in r && c in keys then r + [c] else r
  }

  /** The core ids, in order, that are in `keys` and not in `top`. */
  function Appended(top: seq<string>, cores: seq<string>, keys: seq<string>): (r: seq<string>)
    ensures forall x :: x in r ==> x in cores
  {
    if cores == [] then []
    else (if cores[0] !in top && cores[0] in keys then [cores[0]] else []) + Appended(top, cores[1..], keys)
  }

  lemma {:induction false} AppendedSnoc(top: seq<string>, pre: seq<string>, c: string, keys: seq<string>)
    ensures Appended(top, pre + [c], keys) == Appended(top, pre, keys) + (if c !in top && c in keys then [c] else [])
  {
    if pre != [] {
      assert (pre + [c])[1..] == pre[1..] + [c];
      AppendedSnoc(top, pre[1..], c, keys);
    }
  }

  /**
   * With distinct core ids, the loop appends exactly the core ids that are
   * metadata keys and not already selected, in the order of the core list.
   */
  lemma {:induction false} AddCoresAppends(top: seq<string>, cores: seq<string>, keys: seq<string>)
    requires NoDuplicates(cores)
    ensures AddCores(top, cores, keys) == top + Appended(top, cores, keys)
  {
    if cores != [] {
      var pre := cores[..|cores| - 1];
      var c := cores[|cores| - 1];
      assert cores == pre + [c];
      assert c !in pre;
      AddCoresAppends(top, pre, keys);
      AppendedSnoc(top, pre, c, keys);
    }
  }

  /** The items by descending popularity, ties in dictionary order. */
  function Ranked(ms: seq<CurrencyStats>): (r: seq<CurrencyStats>)
    ensures |r| == |ms| && multiset(r) == multiset(ms)
    ensures SortedDesc(r, Popularity)
    ensures forall k :: WithKey(r, Popularity, k) == WithKey(ms, Popularity, k)
  {
    SortDescPermutes(ms, Popularity);
    SortDescSorted(ms, Popularity);
    SortDescStableAll(ms, Popularity);
    SortDesc(ms, Popularity)
  }

  /** What `_get_top_currencies` returns. */
  function TopCurrencies(ms: seq<CurrencyStats>, p: real): seq<string>
  {
    AddCores(Keys(SliceTo(Ranked(ms), TargetCount(|Ranked(ms)|, p))), CoreCurrencies, Keys(ms))
  }

  /** `_get_top_currencies` (api/services/poe2scout.py:730-769), without its logging. */
  method GetTopCurrencies(metadata: seq<CurrencyStats>, topPercentage: real) returns (top: seq<string>)
    ensures top == TopCurrencies(metadata, topPercentage)
  {
    var sorted := Ranked(metadata);
    var target := TargetCount(|sorted|, topPercentage);
    top := Keys(SliceTo(sorted, target));
    ghost var selected := top;
    for i := 0 to |CoreCurrencies|
      invariant top == AddCores(selected, CoreCurrencies[..i], Keys(metadata))
    {
      var core := CoreCurrencies[i];
      assert CoreCurrencies[..i + 1][..i] == CoreCurrencies[..i];
      if core !in top && core in Keys(metadata) {
        top := top + [core];
      }
    }
    assert CoreCurrencies[..|CoreCurrencies|] == CoreCurrencies;
  }

  /**
   * The result starts with the ids of the first `min(target, total)` items
   * by popularity, then adds at most the three core ids; every id in it is
   * a metadata key, and every core id that is a metadata key is in it; the
   * added ids are the missing core ids that are metadata keys, in core order.
   */
  lemma TopCurrenciesShape(ms: seq<CurrencyStats>, p: real)
    ensures
      var target := TargetCount(|ms|, p);
      var n := if target <= |ms| then target else |ms|;
      var top := TopCurrencies(ms, p);
      && Keys(Ranked(ms)[..n]) <= top
      && |top| <= target + |CoreCurrencies|
      && (forall x :: x in top ==> x in Keys(ms))
      && (forall c :: c in CoreCurrencies && c in Keys(ms) ==> c in top)
      && top == Keys(Ranked(ms)[..n]) + Appended(Keys(Ranked(ms)[..n]), CoreCurrencies, Keys(ms))
  {
    var ranked := Ranked(ms);
    var n := if TargetCount(|ms|, p) <= |ms| then TargetCount(|ms|, p) else |ms|;
    assert SliceTo(ranked, TargetCount(|ranked|, p)) == ranked[..n];
    AddCoresAppends(Keys(ranked[..n]), CoreCurrencies, Keys(ms));
    forall x | x in Keys(ranked[..n]) ensures x in Keys(ms) {
      var i :| 0 <= i < n && Keys(ranked[..n])[i] == x;
      assert ranked[i] in multiset(ms);
      var j :| 0 <= j < |ms| && ms[j] == ranked[i];
      assert Keys(ms)[j] == x;
    }
  }

  /**
   * The selection is by popularity: the selected items are in descending
   * popularity, and no item left out is more popular than any item selected.
   */
  lemma TopAreMostPopular(ms: seq<CurrencyStats>, p: real)
    ensures
      var target := TargetCount(|ms|, p);
      var n := if target <= |ms| then target else |ms|;
      var chosen := Ranked(ms)[..n];
      && SortedDesc(chosen, Popularity)
      && (forall x, i :: x in ms && x !in chosen && 0 <= i < n ==> x.popularity <= chosen[i].popularity)
  {
    var ranked := Ranked(ms);
    var n := if TargetCount(|ms|, p) <= |ms| then TargetCount(|ms|, p) else |ms|;
    PrefixSorted(ranked, Popularity, n);
    forall x, i | x in ms && x !in ranked[..n] && 0 <= i < n
      ensures x.popularity <= ranked[..n][i].popularity
    {
      assert x in multiset(ranked);
      var j :| 0 <= j < |ranked| && ranked[j] == x;
      assert Popularity(ranked[j]) <= Popularity(ranked[i]);
    }
  }

  /** Ids are distinct before an item exactly when they are distinct after it and differ from its id. */
  lemma ConsDistinct(a: CurrencyStats, u: seq<CurrencyStats>)
    ensures DistinctKeys([a] + u) <==> DistinctKeys(u) && (forall y :: y in u ==> y.key != a.key)
  {
    if DistinctKeys([a] + u) {
      ConsDistinctSplit(a, u);
    } else if DistinctKeys(u) && (forall y :: y in u ==> y.key != a.key) {
      ConsDistinctJoin(a, u);
    }
  }

  lemma ConsDistinctSplit(a: CurrencyStats, u: seq<CurrencyStats>)
    requires DistinctKeys([a] + u)
    ensures DistinctKeys(u) && forall y :: y in u ==> y.key != a.key
  {
    var v := [a] + u;
    forall i, j | 0 <= i < j < |u| ensures u[i].key != u[j].key {
      assert v[i + 1] == u[i] && v[j + 1] == u[j];
    }
    forall y | y in u ensures y.key != a.key {
      var i :| 0 <= i < |u| && u[i] == y;
      assert v[0] == a && v[i + 1] == y;
    }
  }

  lemma ConsDistinctJoin(a: CurrencyStats, u: seq<CurrencyStats>)
    requires DistinctKeys(u) && forall y :: y in u ==> y.key != a.key
    ensures DistinctKeys([a] + u)
  {
    var v := [a] + u;
    forall i, j | 0 <= i < j < |v| ensures v[i].key != v[j].key {
      assert v[j] == u[j - 1];
      if i == 0 {
        assert v[0] == a && u[j - 1] in u;
      } else {
        assert v[i] == u[i - 1];
      }
    }
  }

  /** Inserting an item whose id is new keeps the ids distinct. */
  lemma {:induction false} InsertDistinct(x: CurrencyStats, r: seq<CurrencyStats>)
    requires DistinctKeys(r) && forall y :: y in r ==> y.key != x.key
    ensures DistinctKeys(Insert(x, r, Popularity))
  {
    ConsDistinct(x, r);
    if r != [] && Popularity(r[0]) > Popularity(x) {
      var head := r[0];
      var tail := r[1..];
      assert r == [head] + tail;
      ConsDistinct(head, tail);
      InsertDistinct(x, tail);
      InsertPermutes(x, tail, Popularity);
      forall y | y in Insert(x, tail, Popularity) ensures y.key != head.key {
        assert y in multiset(Insert(x, tail, Popularity));
      }
      ConsDistinct(head, Insert(x, tail, Popularity));
    }
  }

  /** Ranking the items of a dictionary keeps their ids distinct. */
  lemma {:induction false} RankedDistinct(s: seq<CurrencyStats>)
    requires DistinctKeys(s)
    ensures DistinctKeys(SortDesc(s, Popularity))
  {
    if s != [] {
      assert s == [s[0]] + s[1..];
      ConsDistinct(s[0], s[1..]);
      RankedDistinct(s[1..]);
      SortDescPermutes(s[1..], Popularity);
      forall y | y in SortDesc(s[1..], Popularity) ensures y.key != s[0].key {
        assert y in multiset(SortDesc(s[1..], Popularity));
      }
      InsertDistinct(s[0], SortDesc(s[1..], Popularity));
    }
  }

  /** A dictionary's ids give a selection without duplicates. */
  lemma TopCurrenciesDistinct(ms: seq<CurrencyStats>, p: real)
    requires DistinctKeys(ms)
    ensures NoDuplicates(TopCurrencies(ms, p))
  {
    var ranked := Ranked(ms);
    RankedDistinct(ms);
    var chosen := SliceTo(ranked, TargetCount(|ranked|, p));
    assert chosen == ranked[..|chosen|];
    assert NoDuplicates(Keys(chosen));
  }

  // ---------------------------------------------------------------------
  // `_map_currency_name` and `_map_currency_name_dynamic`
  // ---------------------------------------------------------------------

  /** `name_mapping`: POE2Scout display names and internal ids, in dictionary order. */
  const NameMapping: seq<(string, string)> := [
    ("Divine Orb", "divine"),
    ("Exalted Orb", "exalted"),
    ("Chaos Orb", "chaos"),
    ("Mirror of Kalandra", "mirror"),
    ("Perfect Exalted Orb", "perfect_exalted"),
    ("Orb of Annulment", "orb_annulment"),
    ("Orb of Chance", "orb_chance"),
    ("Perfect Chaos Orb", "perfect_chaos"),
    ("Fracturing Orb", "fracturing_orb"),
    ("Greater Exalted Orb", "greater_exalted"),
    ("Perfect Jeweller's Orb", "perfect_jeweller"),
    ("Uncut Skill Gem (Level 20)", "uncut_gem_20"),
    ("Omen of Light", "omen_light"),
    ("Omen of Homogenising Exaltation", "omen_homogenising"),
    ("Omen of Abyssal Echoes", "omen_abyssal"),
    ("Omen of Whittling", "omen_whittling"),
    ("Omen of Chaotic Rarity", "omen_chaotic"),
    ("Omen of Amelioration", "omen_amelioration"),
    ("Rakiata's Flow", "rakiata_flow"),
    ("Talisman of Sirrius", "talisman_sirrius"),
    ("Hinekora's Lock", "hinekora_lock"),
    ("Farrul's Rune of the Chase", "farrul_rune"),
    ("Atalui's Bloodletting", "atalui_bloodletting")
  ]

  /** The display names of a mapping table occur once each, as the keys of a dictionary do. */
  predicate UniqueNames(table: seq<(string, string)>)
  {
    forall i, j :: 0 <= i < j < |table| ==> table[i].0 != table[j].0
  }

  /**
   * `name in name_mapping` / `name_mapping[name]`: the id of the entry named
   * exactly `name`, None when there is none.
   */
  function ExactKey(table: seq<(string, string)>, name: string): (r: Option<string>)
    ensures r.Some? <==> exists i :: 0 <= i < |table| && table[i].0 == name
    ensures UniqueNames(table) ==> forall i :: 0 <= i < |table| && table[i].0 == name ==> r == Some(table[i].1)
    ensures r.Some? ==> exists i :: 0 <= i < |table| && table[i].0 == name && r.value == table[i].1
  {
    if table == [] then None
    else if table[0].0 == name then Some(table[0].1)
    else
      assert forall i :: 1 <= i < |table| ==> table[i] == table[1..][i - 1];
      ExactKey(table[1..], name)
  }

  /** The case-insensitive test of the fuzzy loop, `lower` being the lowered POE2Scout name. */
  predicate FuzzyMatch(display: string, lower: string)
  {
    Contains(lower, Lower(display)) || Contains(Lower(display), lower)
  }

  /**
   * The fuzzy loop: the id of the first entry, in table order, that passes
   * `FuzzyMatch`; None when no entry does.
   */
  function FirstFuzzy(table: seq<(string, string)>, lower: string): (r: Option<string>)
    ensures r.Some? <==> exists i :: 0 <= i < |table| && FuzzyMatch(table[i].0, lower)
    ensures r.Some? ==>
      exists i :: 0 <= i < |table| && FuzzyMatch(table[i].0, lower) && r.value == table[i].1 &&
        (forall k :: 0 <= k < i ==> !FuzzyMatch(table[k].0, lower))
  {
    if table == [] then None
    else if FuzzyMatch(table[0].0, lower) then Some(table[0].1)
    else
      assert forall i :: 1 <= i < |table| ==> table[i] == table[1..][i - 1];
      FirstFuzzy(table[1..], lower)
  }

  /** Every display name of `name_mapping` occurs once. */
  lemma MappingNamesUnique()
    ensures UniqueNames(NameMapping)
  {
    forall i, j | 0 <= i < j < |NameMapping| ensures NameMapping[i].0 != NameMapping[j].0 {
      var a := NameMapping[i].0;
      var b := NameMapping[j].0;
      assert |a| != |b| || a[0] != b[0] || a[|a| - 1] != b[|b| - 1];
    }
  }

  /** Every id of `name_mapping` is a currency of the default registry, and none is empty. */
  lemma MappingTargetsRegistered()
    ensures forall i :: 0 <= i < |NameMapping| ==> NameMapping[i].1 in SupportedCurrencies && NameMapping[i].1 != ""
  {
    forall i | 0 <= i < |NameMapping| ensures NameMapping[i].1 in SupportedCurrencies && NameMapping[i].1 != "" {
      var j := if i == 0 then 1 else if i == 1 then 0 else i;
      assert NameMapping[i].1 == SupportedCurrencies[j];
    }
  }

  /**
   * The lookup of `_map_currency_name` in a name table: an exact display name
   * maps to its own id; any other name maps as the fuzzy loop says; the
   * result is always one of the table's ids.
   */
  function MapName(table: seq<(string, string)>, name: string): (r: Option<string>)
    ensures UniqueNames(table) ==> forall i :: 0 <= i < |table| && table[i].0 == name ==> r == Some(table[i].1)
    ensures (forall i :: 0 <= i < |table| ==> table[i].0 != name) ==> r == FirstFuzzy(table, Lower(name))
    ensures r.Some? ==> exists i :: 0 <= i < |table| && r.value == table[i].1
  {
    match ExactKey(table, name)
    case Some(key) => Some(key)
    case None => FirstFuzzy(table, Lower(name))
  }

  /**
   * `_map_currency_name` (api/services/poe2scout.py:633-684), without its
   * logging: the lookup in `name_mapping`.
   */
  function MapCurrencyName(name: string): Option<string>
  {
    MapName(NameMapping, name)
  }

  /**
   * An exact display name of `name_mapping` maps to its own id, any other
   * name as the fuzzy loop says, and every id returned is a non-empty
   * currency of the default registry.
   */
  lemma MapCurrencyNameMeaning(name: string)
    ensures forall i :: 0 <= i < |NameMapping| && NameMapping[i].0 == name ==> MapCurrencyName(name) == Some(NameMapping[i].1)
    ensures (forall i :: 0 <= i < |NameMapping| ==> NameMapping[i].0 != name) ==> MapCurrencyName(name) == FirstFuzzy(NameMapping, Lower(name))
    ensures MapCurrencyName(name).Some? ==> MapCurrencyName(name).value in SupportedCurrencies && MapCurrencyName(name).value != ""
  {
    MappingNamesUnique();
    MappingTargetsRegistered();
  }

  /**
   * The static branch of `_map_currency_name_dynamic`
   * (api/services/poe2scout.py:601-609): a statically mapped name yields its
   * id unchanged; otherwise the result is `derived`, the snake-case id the
   * rest of the method builds from the name.
   */
  function MapCurrencyNameDynamic(name: string, derived: string): (r: string)
    ensures MapCurrencyName(name).Some? ==> r == MapCurrencyName(name).value
    ensures MapCurrencyName(name).None? ==> r == derived
  {
    MapCurrencyNameMeaning(name);
    var staticKey := MapCurrencyName(name);
    if staticKey.Some? && staticKey.value != "" then staticKey.value else derived
  }

  // ---------------------------------------------------------------------
  // `_add_fallback_rates`
  // ---------------------------------------------------------------------

  /** An estimated rate of `currency` in exalted. */
  datatype Estimate = Estimate(currency: string, rate: real)

  /** The currencies `estimates` prices, in dictionary order. */
  const EstimatedCurrencies: seq<string> := ["fusing", "jeweller", "ancient"]

  /** `estimates`, in dictionary order, from the chaos and divine rates in exalted. */
  function Estimates(chaosRate: real, divineRate: real): (r: seq<Estimate>)
    ensures |r| == |EstimatedCurrencies| && forall k :: 0 <= k < |r| ==> r[k].currency == EstimatedCurrencies[k]
  {
    [Estimate(EstimatedCurrencies[0], chaosRate * 2.34),
     Estimate(EstimatedCurrencies[1], chaosRate * 0.16),
     Estimate(EstimatedCurrencies[2], divineRate * 2.4)]
  }

  /**
   * The loop over the estimates: a currency already priced in exalted is
   * skipped, an unpriced one gets its estimate through `set_rate`, and an
   * unregistered one makes `get_rate` raise, which ends the loop.
   */
  function FillEstimates(t: Table, cs: seq<string>, es: seq<Estimate>): Table
    decreases |es|
  {
    if es == [] then t
    else if es[0].currency !in cs || "exalted" !in cs then t
    else if Get(t, es[0].currency, "exalted") > 0.0 then FillEstimates(t, cs, es[1..])
    else match SetRateSpec(t, cs, es[0].currency, "exalted", es[0].rate)
      case Ok(u) => FillEstimates(u, cs, es[1..])
      case Err(_) => t
  }

  /** What `_add_fallback_rates` leaves in the table. */
  function Fallback(t: Table, cs: seq<string>): Table
  {
    if "chaos" !in cs || "divine" !in cs || "exalted" !in cs then t
    else
      var chaosRate := Get(t, "chaos", "exalted");
      var divineRate := Get(t, "divine", "exalted");
      if chaosRate > 0.0 && divineRate > 0.0 then FillEstimates(t, cs, Estimates(chaosRate, divineRate)) else t
  }

  /** `_add_fallback_rates` (api/services/poe2scout.py:771-797), without its logging; every exception ends it quietly. */
  method AddFallbackRates(m: RateMatrix)
    requires m.Valid()
    modifies m
    ensures m.Valid()
    ensures m.rates == Fallback(old(m.rates), m.currencies)
    ensures old(m.IdentityDiagonal()) ==> m.IdentityDiagonal()
  {
    var chaosRate := m.GetRate("chaos", "exalted");
    if chaosRate.Err? {
      return;
    }
    var divineRate := m.GetRate("divine", "exalted");
    if divineRate.Err? {
      return;
    }
    if chaosRate.value > 0.0 && divineRate.value > 0.0 {
      var estimates := Estimates(chaosRate.value, divineRate.value);
      for i := 0 to |estimates|
        invariant m.Valid()
        invariant FillEstimates(m.rates, m.currencies, estimates[i..]) == Fallback(old(m.rates), m.currencies)
        invariant old(m.IdentityDiagonal()) ==> m.IdentityDiagonal()
      {
        var e := estimates[i];
        assert estimates[i..][1..] == estimates[i + 1..];
        var current := m.GetRate(e.currency, "exalted");
        if current.Err? {
          return;
        }
        if current.value <= 0.0 {
          var o := m.SetRate(e.currency, "exalted", e.rate);
          if o.Fail? {
            return;
          }
        }
      }
    }
  }

  /** Estimates for distinct currencies other than exalted, as `Estimates` lists them. */
  predicate Separate(es: seq<Estimate>)
  {
    && (forall k :: 0 <= k < |es| ==> es[k].currency != "exalted")
    && (forall k, l :: 0 <= k < l < |es| ==> es[k].currency != es[l].currency)
  }

  /** Filling estimates keeps the table well formed. */
  lemma {:induction false} FillKeepsWellFormed(t: Table, cs: seq<string>, es: seq<Estimate>)
    requires WellFormed(t, cs)
    ensures WellFormed(FillEstimates(t, cs, es), cs)
    decreases |es|
  {
    if es != [] && es[0].currency in cs && "exalted" in cs {
      SetRateEffect(t, cs, es[0].currency, "exalted", es[0].rate);
      if Get(t, es[0].currency, "exalted") > 0.0 {
        FillKeepsWellFormed(t, cs, es[1..]);
      } else if es[0].rate > 0.0 {
        FillKeepsWellFormed(SetRateSpec(t, cs, es[0].currency, "exalted", es[0].rate).value, cs, es[1..]);
      }
    }
  }

  /**
   * Filling estimates changes only the rates between exalted and a listed
   * currency that had no positive rate to exalted.
   */
  lemma {:induction false} FillChangesOnly(t: Table, cs: seq<string>, es: seq<Estimate>)
    requires Separate(es)
    ensures forall p, q :: Get(FillEstimates(t, cs, es), p, q) != Get(t, p, q) ==>
      exists k :: 0 <= k < |es| && Get(t, es[k].currency, "exalted") <= 0.0 &&
        ((p == es[k].currency && q == "exalted") || (p == "exalted" && q == es[k].currency))
    decreases |es|
  {
    if es != [] && es[0].currency in cs && "exalted" in cs && Get(t, es[0].currency, "exalted") <= 0.0 && es[0].rate > 0.0 {
      var c := es[0].currency;
      var rest := es[1..];
      assert forall k :: 1 <= k < |es| ==> es[k] == rest[k - 1];
      SetRateFrame(t, cs, c, "exalted", es[0].rate);
      var u := SetRateSpec(t, cs, c, "exalted", es[0].rate).value;
      FillChangesOnly(u, cs, rest);
      forall k | 0 <= k < |rest| ensures Get(u, rest[k].currency, "exalted") == Get(t, rest[k].currency, "exalted") {
        assert rest[k].currency != c;
      }
    } else if es != [] && es[0].currency in cs && "exalted" in cs && Get(t, es[0].currency, "exalted") > 0.0 {
      var rest := es[1..];
      assert forall k :: 1 <= k < |es| ==> es[k] == rest[k - 1];
      FillChangesOnly(t, cs, rest);
    }
  }

  /**
   * When exalted and every listed currency are registered and every estimate
   * is positive, each currency without a positive rate to exalted gets its
   * estimate.
   */
  lemma {:induction false} FillWrites(t: Table, cs: seq<string>, es: seq<Estimate>)
    requires Separate(es)
    requires "exalted" in cs && forall k :: 0 <= k < |es| ==> es[k].currency in cs && es[k].rate > 0.0
    ensures forall k :: 0 <= k < |es| && Get(t, es[k].currency, "exalted") <= 0.0 ==>
      Get(FillEstimates(t, cs, es), es[k].currency, "exalted") == es[k].rate
    decreases |es|
  {
    if es != [] {
      var c := es[0].currency;
      var rest := es[1..];
      assert forall k :: 1 <= k < |es| ==> es[k] == rest[k - 1];
      if Get(t, c, "exalted") > 0.0 {
        FillWrites(t, cs, rest);
      } else {
        SetRateFrame(t, cs, c, "exalted", es[0].rate);
        var u := SetRateSpec(t, cs, c, "exalted", es[0].rate).value;
        FillWrites(u, cs, rest);
        FillChangesOnly(u, cs, rest);
        forall k | 0 <= k < |rest| ensures Get(u, rest[k].currency, "exalted") == Get(t, rest[k].currency, "exalted") {
          assert rest[k].currency != c;
        }
      }
    }
  }

  /**
   * `_add_fallback_rates` writes nothing unless chaos, divine and exalted
   * are registered and chaos and divine both have a positive rate to exalted.
   */
  lemma FallbackNeedsBases(t: Table, cs: seq<string>)
    requires !("chaos" in cs && "divine" in cs && "exalted" in cs && Get(t, "chaos", "exalted") > 0.0 && Get(t, "divine", "exalted") > 0.0)
    ensures Fallback(t, cs) == t
  {
  }

  /**
   * `_add_fallback_rates` only writes the rates between exalted and fusing,
   * jeweller or ancient that had no positive rate to exalted.
   */
  lemma FallbackChangesOnly(t: Table, cs: seq<string>)
    ensures forall p, q :: Get(Fallback(t, cs), p, q) != Get(t, p, q) ==>
      exists k :: 0 <= k < |EstimatedCurrencies| && Get(t, EstimatedCurrencies[k], "exalted") <= 0.0 &&
        ((p == EstimatedCurrencies[k] && q == "exalted") || (p == "exalted" && q == EstimatedCurrencies[k]))
  {
    if "chaos" in cs && "divine" in cs && "exalted" in cs && Get(t, "chaos", "exalted") > 0.0 && Get(t, "divine", "exalted") > 0.0 {
      var es := Estimates(Get(t, "chaos", "exalted"), Get(t, "divine", "exalted"));
      assert Separate(es);
      FillChangesOnly(t, cs, es);
    }
  }

  /** `_add_fallback_rates` keeps every positive rate to exalted. */
  lemma FallbackKeepsKnown(t: Table, cs: seq<string>, c: string)
    requires Get(t, c, "exalted") > 0.0
    ensures Get(Fallback(t, cs), c, "exalted") == Get(t, c, "exalted")
  {
    FallbackChangesOnly(t, cs);
  }

  /**
   * With the three base currencies positive and fusing, jeweller and ancient
   * registered, each of them without a positive rate to exalted gets its
   * estimate: 2.34 and 0.16 times the chaos rate, 2.4 times the divine rate.
   */
  lemma FallbackFills(t: Table, cs: seq<string>)
    requires "chaos" in cs && "divine" in cs && "exalted" in cs
    requires Get(t, "chaos", "exalted") > 0.0 && Get(t, "divine", "exalted") > 0.0
    requires "fusing" in cs && "jeweller" in cs && "ancient" in cs
    ensures Get(t, "fusing", "exalted") <= 0.0 ==> Get(Fallback(t, cs), "fusing", "exalted") == Get(t, "chaos", "exalted") * 2.34
    ensures Get(t, "jeweller", "exalted") <= 0.0 ==> Get(Fallback(t, cs), "jeweller", "exalted") == Get(t, "chaos", "exalted") * 0.16
    ensures Get(t, "ancient", "exalted") <= 0.0 ==> Get(Fallback(t, cs), "ancient", "exalted") == Get(t, "divine", "exalted") * 2.4
  {
    var es := Estimates(Get(t, "chaos", "exalted"), Get(t, "divine", "exalted"));
    assert Separate(es);
    FillWrites(t, cs, es);
  }

  /**
   * With the default registry, which lists no fusing orb, the first
   * `get_rate` of the loop raises and nothing is written.
   */
  lemma FallbackInertOnDefaultRegistry(t: Table)
    ensures Fallback(t, SupportedCurrencies) == t
  {
    assert "fusing" !in SupportedCurrencies;
  }
}
