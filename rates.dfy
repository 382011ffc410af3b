/**
 * `RateMetadata` and `CurrencyRateMatrix` of api/models/rates.py.
 *
 * The matrix is a class: its registry, display names and metadata are fixed
 * at construction, and its rate table is updated in place by `SetRate`,
 * `SetRatesFromBase` and `ComputeTransitiveRates`. What those updates do to
 * the table is specified by the functions of module RateTable, and what
 * completion achieves is proved in module Completion.
 */
module Rates {
  import opened Wrappers
  import opened Text
  import opened Sequences
  import opened RateTable
  import Completion

  /** Snapshot metadata; `fetchedAt` and `now` are timestamps in seconds. */
  datatype RateMetadata = RateMetadata(
    source: string,
    league: string,
    game: string,
    fetchedAt: Option<real>,
    ttlSeconds: int)
  {
    /** `is_expired`, with the current time passed in. */
    predicate IsExpired(now: real)
    {
      fetchedAt.None? || now - fetchedAt.value > ttlSeconds as real
    }
  }

  /** Metadata without a fetch time is always expired; otherwise expiry is `elapsed > ttl`. */
  lemma ExpiryRule(m: RateMetadata, now: real)
    ensures m.fetchedAt.None? ==> m.IsExpired(now)
    ensures m.fetchedAt.Some? ==> (m.IsExpired(now) <==> now - m.fetchedAt.value > m.ttlSeconds as real)
  {
  }

  /** Once expired, metadata stays expired as time goes on. */
  lemma ExpiryIsPermanent(m: RateMetadata, now: real, later: real)
    requires m.IsExpired(now) && now <= later
    ensures m.IsExpired(later)
  {
  }

  /** Data is fresh at its own fetch time unless its time-to-live is negative. */
  lemma FreshWhenFetched(m: RateMetadata)
    requires m.fetchedAt.Some? && m.ttlSeconds >= 0
    ensures !m.IsExpired(m.fetchedAt.value)
  {
  }

  /** The class attribute `SUPPORTED_CURRENCIES`: the core, popular, six omen and five special ids. */
  const SupportedCurrencies: seq<string> := [
    "exalted", "divine", "chaos",
    "mirror", "perfect_exalted", "orb_annulment", "orb_chance", "perfect_chaos",
    "fracturing_orb", "greater_exalted", "perfect_jeweller", "uncut_gem_20",
    "omen_light", "omen_homogenising", "omen_abyssal", "omen_whittling",
    "omen_chaotic", "omen_amelioration",
    "rakiata_flow", "talisman_sirrius", "hinekora_lock", "farrul_rune", "atalui_bloodletting"
  ]

  /** The class attribute `CURRENCY_NAMES`. */
  const CurrencyNames: map<string, string> := map[
    "exalted" := "Exalted Orb",
    "divine" := "Divine Orb",
    "chaos" := "Chaos Orb",
    "mirror" := "Mirror of Kalandra",
    "perfect_exalted" := "Perfect Exalted Orb",
    "orb_annulment" := "Orb of Annulment",
    "orb_chance" := "Orb of Chance",
    "perfect_chaos" := "Perfect Chaos Orb",
    "fracturing_orb" := "Fracturing Orb",
    "greater_exalted" := "Greater Exalted Orb",
    "perfect_jeweller" := "Perfect Jeweller's Orb",
    "uncut_gem_20" := "Uncut Skill Gem (Level 20)",
    "omen_light" := "Omen of Light",
    "omen_homogenising" := "Omen of Homogenising Exaltation",
    "omen_abyssal" := "Omen of Abyssal Echoes",
    "omen_whittling" := "Omen of Whittling",
    "omen_chaotic" := "Omen of Chaotic Rarity",
    "omen_amelioration" := "Omen of Amelioration",
    "rakiata_flow" := "Rakiata's Flow",
    "talisman_sirrius" := "Talisman of Sirrius",
    "hinekora_lock" := "Hinekora's Lock",
    "farrul_rune" := "Farrul's Rune of the Chase",
    "atalui_bloodletting" := "Atalui's Bloodletting"
  ]

  /** Every default currency has a hard-coded display name. */
  lemma DefaultNamesCoverDefaults()
    ensures forall c :: c in SupportedCurrencies ==> c in CurrencyNames
  {
  }

  // ---------------------------------------------------------------------
  // Display names for currencies without a hard-coded one
  // ---------------------------------------------------------------------

  /** One word of `_generate_display_name`: "of", "the" and "and" in lower case, others capitalized. */
  function TitleWord(w: string): (r: string)
    ensures Lower(r) == Lower(w)
  {
    var lw := Lower(w);
    if lw == "of" || lw == "the" || lw == "and" then
      assert forall i :: 0 <= i < |lw| ==> Lower(lw)[i] == lw[i];
      lw
    else Capitalize(w)
  }

  function TitleWords(ws: seq<string>): (r: seq<string>)
    ensures |r| == |ws|
    ensures forall k :: 0 <= k < |ws| ==> r[k] == TitleWord(ws[k])
  {
    if ws == [] then [] else [TitleWord(ws[0])] + TitleWords(ws[1..])
  }

  /** `' '.join(...)` of the words of the key split at '_'. */
  function TitleCase(key: string): string
  {
    Join(TitleWords(Split(key, '_')), ' ')
  }

  /** `_generate_display_name` (api/models/rates.py:139-163). */
  function GenerateDisplayName(key: string): string
  {
    var name := TitleCase(key);
    if EndsWith(name, " Orb") then name
    else if Contains(Lower(name), "omen") && !StartsWith(name, "Omen") then Replace(name, "Omen ", "Omen of ")
    else name
  }

  /** Lower case, with spaces read as underscores. */
  function SnakeLower(s: string): (r: string)
    ensures |r| == |s|
    ensures forall i :: 0 <= i < |s| ==> r[i] == if s[i] == ' ' then '_' else LowerChar(s[i])
  {
    if s == [] then [] else [if s[0] == ' ' then '_' else LowerChar(s[0])] + SnakeLower(s[1..])
  }

  lemma SnakeLowerConcat(a: string, b: string)
    ensures SnakeLower(a + b) == SnakeLower(a) + SnakeLower(b)
  {
    assert forall i :: 0 <= i < |a + b| ==> SnakeLower(a + b)[i] == (SnakeLower(a) + SnakeLower(b))[i];
  }

  lemma SnakeLowerOfLower(a: string, b: string)
    requires Lower(a) == Lower(b)
    ensures SnakeLower(a) == SnakeLower(b)
  {
    assert |a| == |b|;
    forall i | 0 <= i < |a| ensures SnakeLower(a)[i] == SnakeLower(b)[i] {
      assert Lower(a)[i] == Lower(b)[i];
    }
  }

  lemma {:induction false} SnakeLowerJoin(ws: seq<string>)
    ensures SnakeLower(Join(TitleWords(ws), ' ')) == SnakeLower(Join(ws, '_'))
  {
    if |ws| == 1 {
      SnakeLowerOfLower(TitleWord(ws[0]), ws[0]);
    } else if |ws| > 1 {
      var tw := TitleWords(ws);
      assert tw[1..] == TitleWords(ws[1..]);
      SnakeLowerJoin(ws[1..]);
      SnakeLowerConcat(tw[0] + [' '], Join(tw[1..], ' '));
      SnakeLowerConcat(tw[0], [' ']);
      SnakeLowerConcat(ws[0] + ['_'], Join(ws[1..], '_'));
      SnakeLowerConcat(ws[0], ['_']);
      SnakeLowerOfLower(tw[0], ws[0]);
    }
  }

  /**
   * Title-casing a key only changes the case of letters and turns each
   * underscore into a space: reading the name back in lower case with
   * spaces as underscores gives the key in lower case.
   */
  lemma TitleCaseRoundTrip(key: string)
    ensures SnakeLower(TitleCase(key)) == SnakeLower(key)
  {
    SnakeLowerJoin(Split(key, '_'));
    JoinSplit(key, '_');
  }

  /** Unless the omen rewrite applies, the display name is the key title-cased word by word. */
  lemma DisplayNameRoundTrip(key: string)
    requires EndsWith(TitleCase(key), " Orb") || !Contains(Lower(TitleCase(key)), "omen") || StartsWith(TitleCase(key), "Omen")
    ensures SnakeLower(GenerateDisplayName(key)) == SnakeLower(key)
  {
    TitleCaseRoundTrip(key);
  }

  /**
   * When the omen rewrite applies, every "Omen " of the title-cased key
   * becomes "Omen of ": the result holds "Omen of " if the title-cased key
   * holds "Omen ", and is the title-cased key unchanged otherwise.
   */
  lemma DisplayNameOmen(key: string)
    requires !EndsWith(TitleCase(key), " Orb") && Contains(Lower(TitleCase(key)), "omen") && !StartsWith(TitleCase(key), "Omen")
    ensures Contains(TitleCase(key), "Omen ") ==> Contains(GenerateDisplayName(key), "Omen of ")
    ensures !Contains(TitleCase(key), "Omen ") ==> GenerateDisplayName(key) == TitleCase(key)
  {
    if Contains(TitleCase(key), "Omen ") {
      ReplaceContains(TitleCase(key), "Omen ", "Omen of ");
    } else {
      ReplaceAbsent(TitleCase(key), "Omen ", "Omen of ");
    }
  }

  /** The display name `_build_dynamic_currency_names` gives a currency. */
  function DisplayNameFor(c: string): string
  {
    if c in CurrencyNames then CurrencyNames[c] else GenerateDisplayName(c)
  }

  /** `_build_dynamic_currency_names` (api/models/rates.py:120-137). */
  method BuildDynamicCurrencyNames(cs: seq<string>) returns (names: map<string, string>)
    ensures names.Keys == set c | c in cs
    ensures forall c :: c in cs ==> names[c] == DisplayNameFor(c)
  {
    names := map[];
    var i := 0;
    while i < |cs|
      invariant 0 <= i <= |cs|
      invariant names.Keys == set c | c in cs[..i]
      invariant forall c :: c in names ==> names[c] == DisplayNameFor(c)
    {
      var c := cs[i];
      names := names[c := DisplayNameFor(c)];
      assert cs[..i + 1] == cs[..i] + [c];
      i := i + 1;
    }
    assert cs[..i] == cs;
  }

  // ---------------------------------------------------------------------
  // The rate matrix
  // ---------------------------------------------------------------------

  /** How `formatted_price` shows a price: four decimals, or "N/A" for an unknown rate. */
  datatype PriceLabel = FourDecimals(value: real) | NotAvailable

  /** The label of a price. */
  function Label(price: real): PriceLabel
  {
    if price > 0.0 then FourDecimals(price) else NotAvailable
  }

  /** One row of `get_price_table`. */
  datatype PriceEntry = PriceEntry(currency: string, name: string, price: real, shown: PriceLabel)

  function PriceOf(e: PriceEntry): real
  {
    e.price
  }

  /** The rows that the loop of `get_price_table` appends, before sorting. */
  function PriceRows(t: Table, names: map<string, string>, cs: seq<string>, base: string): seq<PriceEntry>
    requires forall c :: c in cs ==> c in names
  {
    if cs == [] then []
    else
      var pre := PriceRows(t, names, cs[..|cs| - 1], base);
      var c := cs[|cs| - 1];
      if c == base then pre
      else
        var rate := Get(t, c, base);
        pre + [PriceEntry(c, names[c], rate, Label(rate))]
  }

  /** The registered currencies other than `base`, in registry order. */
  function Others(cs: seq<string>, base: string): (r: seq<string>)
    ensures forall c :: c in r <==> c in cs && c != base
  {
    if cs == [] then [] else
      var pre := Others(cs[..|cs| - 1], base);
      assert cs == cs[..|cs| - 1] + [cs[|cs| - 1]];
      if cs[|cs| - 1] == base then pre else pre + [cs[|cs| - 1]]
  }

  /** Without duplicates in the registry, the other currencies are distinct. */
  lemma {:induction false} OthersDistinct(cs: seq<string>, base: string)
    requires NoDuplicates(cs)
    ensures NoDuplicates(Others(cs, base))
  {
    if cs != [] {
      var pre := cs[..|cs| - 1];
      assert NoDuplicates(pre);
      assert cs[|cs| - 1] !in pre;
      OthersDistinct(pre, base);
    }
  }

  lemma {:induction false} PriceRowsContents(t: Table, names: map<string, string>, cs: seq<string>, base: string)
    requires forall c :: c in cs ==> c in names
    ensures |PriceRows(t, names, cs, base)| == |Others(cs, base)|
    ensures forall k :: 0 <= k < |Others(cs, base)| ==>
      var e := PriceRows(t, names, cs, base)[k];
      e.currency == Others(cs, base)[k] && e.name == names[e.currency] && e.price == Get(t, e.currency, base)
      && e.shown == Label(e.price)
  {
    if cs != [] {
      PriceRowsContents(t, names, cs[..|cs| - 1], base);
      assert cs == cs[..|cs| - 1] + [cs[|cs| - 1]];
    }
  }

  /**
   * The sorted price table lists every other currency and only those, as many
   * rows as there are other currencies, priced in `base`, highest first,
   * rows of equal price in registry order.
   */
  lemma PriceTableContents(t: Table, names: map<string, string>, cs: seq<string>, base: string)
    requires forall c :: c in cs ==> c in names
    ensures var s := SortDesc(PriceRows(t, names, cs, base), PriceOf);
      && |s| == |Others(cs, base)|
      && (forall c :: c in cs && c != base <==> exists e :: e in s && e.currency == c)
      && (forall e :: e in s ==> e.price == Get(t, e.currency, base) && e.name == names[e.currency] && e.shown == Label(e.price))
      && SortedDesc(s, PriceOf)
      && forall k :: WithKey(s, PriceOf, k) == WithKey(PriceRows(t, names, cs, base), PriceOf, k)
  {
    var prices := PriceRows(t, names, cs, base);
    PriceRowsContents(t, names, cs, base);
    SortDescPermutes(prices, PriceOf);
    SortDescSorted(prices, PriceOf);
    SortDescStableAll(prices, PriceOf);
    var sorted := SortDesc(prices, PriceOf);
    forall c | c in cs && c != base ensures exists e :: e in sorted && e.currency == c {
      var k :| 0 <= k < |Others(cs, base)| && Others(cs, base)[k] == c;
      assert prices[k] in multiset(sorted);
    }
    forall e | e in sorted ensures e.currency in cs && e.currency != base
      && e.price == Get(t, e.currency, base) && e.name == names[e.currency] && e.shown == Label(e.price) {
      assert e in multiset(prices);
      var k :| 0 <= k < |prices| && prices[k] == e;
      assert Others(cs, base)[k] in Others(cs, base);
    }
  }

  /** With a registry free of duplicates, no currency has two rows in the price table. */
  lemma PriceTableDistinct(t: Table, names: map<string, string>, cs: seq<string>, base: string)
    requires forall c :: c in cs ==> c in names
    requires NoDuplicates(cs)
    ensures var s := SortDesc(PriceRows(t, names, cs, base), PriceOf);
      forall i, j :: 0 <= i < j < |s| ==> s[i].currency != s[j].currency
  {
    var prices := PriceRows(t, names, cs, base);
    var others := Others(cs, base);
    PriceRowsContents(t, names, cs, base);
    OthersDistinct(cs, base);
    SortDescPermutes(prices, PriceOf);
    var sorted := SortDesc(prices, PriceOf);
    assert NoDuplicates(prices) by {
      forall a, b | 0 <= a < b < |prices| ensures prices[a] != prices[b] {
        assert prices[a].currency == others[a] && prices[b].currency == others[b];
      }
    }
    PermutationDistinct(prices, sorted);
    forall i, j | 0 <= i < j < |sorted| ensures sorted[i].currency != sorted[j].currency {
      assert sorted[i] in multiset(prices) && sorted[j] in multiset(prices);
      var a :| 0 <= a < |prices| && prices[a] == sorted[i];
      var b :| 0 <= b < |prices| && prices[b] == sorted[j];
      assert prices[a].currency == others[a] && prices[b].currency == others[b];
    }
  }

  /**
   * The body of the innermost loop of `_compute_transitive_rates`: for three
   * different currencies with a→b and b→c known and a→c unknown, store the
   * product as a→c and its reciprocal as c→a.
   */
  method DeriveThrough(t: Table, a: string, b: string, c: string) returns (u: Table)
    ensures u == Derive(t, a, b, c)
  {
    u := t;
    if a != b && b != c && a != c && Get(u, a, b) > 0.0 && Get(u, b, c) > 0.0 && Get(u, a, c) == 0.0 {
      var computed := Get(u, a, b) * Get(u, b, c);
      ProductPositive(Get(u, a, b), Get(u, b, c));
      u := Put(u, a, c, computed);
      u := Put(u, c, a, 1.0 / computed);
    }
  }

  /** The loops of `_initialize_matrix`: a row per registered currency. */
  method BuildInitialRates(cs: seq<string>) returns (table: Table)
    ensures table == InitialRates(cs)
  {
    table := map[];
    for i := 0 to |cs|
      invariant table == InitialRows(cs[..i], cs)
    {
      var a := cs[i];
      InitialRowsSnoc(cs[..i], a, cs);
      assert cs[..i + 1] == cs[..i] + [a];
      var row := BuildInitialRow(a, cs);
      table := table[a := row];
    }
    assert cs[..|cs|] == cs;
  }

  /** The inner loop of `_initialize_matrix`: the row of `a`, 1.0 on the diagonal and 0.0 elsewhere. */
  method BuildInitialRow(a: string, cs: seq<string>) returns (row: map<string, real>)
    ensures row == InitialRow(a, cs)
  {
    row := map[];
    for j := 0 to |cs|
      invariant row == InitialRow(a, cs[..j])
    {
      var b := cs[j];
      InitialRowSnoc(a, cs[..j], b);
      assert cs[..j + 1] == cs[..j] + [b];
      if a == b {
        row := row[b := 1.0];
      } else {
        row := row[b := 0.0];
      }
    }
    assert cs[..|cs|] == cs;
  }

  /** The innermost loop of `_compute_transitive_rates` for fixed a and b. */
  method SweepPair(t: Table, a: string, b: string, cs: seq<string>) returns (u: Table)
    ensures u == Fold(t, PairTriples(a, b, cs))
  {
    u := t;
    for k := 0 to |cs|
      invariant u == Fold(t, PairTriples(a, b, cs[..k]))
    {
      assert cs[..k + 1][..k] == cs[..k];
      assert PairTriples(a, b, cs[..k + 1]) == PairTriples(a, b, cs[..k]) + [Triple(a, b, cs[k])];
      FoldSnoc(t, PairTriples(a, b, cs[..k]), Triple(a, b, cs[k]));
      u := DeriveThrough(u, a, b, cs[k]);
    }
    assert cs[..|cs|] == cs;
  }

  /** The two inner loops of `_compute_transitive_rates` for a fixed a. */
  method SweepRow(t: Table, a: string, cs: seq<string>) returns (u: Table)
    ensures u == Fold(t, RowTriples(a, cs, cs))
  {
    u := t;
    for j := 0 to |cs|
      invariant u == Fold(t, RowTriples(a, cs[..j], cs))
    {
      assert cs[..j + 1][..j] == cs[..j];
      FoldAppend(t, RowTriples(a, cs[..j], cs), PairTriples(a, cs[j], cs));
      u := SweepPair(u, a, cs[j], cs);
    }
    assert cs[..|cs|] == cs;
  }

  /** One iteration of the outer loop of `_compute_transitive_rates`: the triple loop over the registry. */
  method SweepTable(t: Table, cs: seq<string>) returns (u: Table)
    ensures u == RateTable.Pass(t, cs)
  {
    u := t;
    for i := 0 to |cs|
      invariant u == Fold(t, AllTriples(cs[..i], cs))
    {
      assert cs[..i + 1][..i] == cs[..i];
      FoldAppend(t, AllTriples(cs[..i], cs), RowTriples(cs[i], cs, cs));
      u := SweepRow(u, cs[i], cs);
    }
    assert cs[..|cs|] == cs;
  }

  /** The outer loop of `_compute_transitive_rates`: `|cs|` sweeps of the triple loop. */
  method CompleteTable(t: Table, cs: seq<string>) returns (u: Table)
    ensures u == Completed(t, cs)
  {
    u := t;
    var pass := 0;
    while pass < |cs|
      invariant 0 <= pass <= |cs|
      invariant u == Passes(t, cs, pass)
    {
      u := SweepTable(u, cs);
      pass := pass + 1;
    }
  }

  /** The three-level map `_rates` keeps, together with the registry it is indexed by. */
  class RateMatrix {
    const metadata: RateMetadata
    const currencies: seq<string>
    const names: map<string, string>
    var rates: Table

    ghost predicate Valid()
      reads this
    {
      && |currencies| > 0
      && (forall c :: c in currencies ==> c in names)
      && WellFormed(rates, currencies)
    }

    /** Every registered currency converts to itself at exactly 1.0. */
    ghost predicate IdentityDiagonal()
      reads this
    {
      RateTable.IdentityDiagonal(rates, currencies)
    }

    /**
     * `__init__`: a non-empty `supported` list replaces the default registry
     * and gets generated display names; then `_initialize_matrix` runs.
     */
    constructor (metadata: RateMetadata, supported: seq<string>)
      ensures Valid() && IdentityDiagonal()
      ensures this.metadata == metadata
      ensures currencies == if supported != [] then supported else SupportedCurrencies
      ensures supported == [] ==> names == CurrencyNames
      ensures supported != [] ==> names.Keys == set c | c in supported
      ensures supported != [] ==> forall c :: c in supported ==> names[c] == DisplayNameFor(c)
      ensures rates == InitialRates(currencies)
    {
      this.metadata := metadata;
      var cs: seq<string>;
      var ns: map<string, string>;
      if supported != [] {
        cs := supported;
        ns := BuildDynamicCurrencyNames(supported);
      } else {
        cs := SupportedCurrencies;
        ns := CurrencyNames;
        DefaultNamesCoverDefaults();
      }
      currencies := cs;
      names := ns;
      rates := map[];
      new;
      InitializeMatrix();
      InitialRatesWellFormed(currencies);
    }

    /** `_initialize_matrix` (api/models/rates.py:165-173): 1.0 on the diagonal, 0.0 elsewhere. */
    method InitializeMatrix()
      modifies this
      ensures rates == InitialRates(currencies)
    {
      rates := BuildInitialRates(currencies);
    }

    /** `set_rate` (api/models/rates.py:175-188): validate, then write the rate and its reciprocal. */
    method SetRate(source: string, target: string, rate: real) returns (o: Outcome<Error>)
      requires Valid()
      modifies this
      ensures Valid()
      ensures match SetRateSpec(old(rates), currencies, source, target, rate)
        case Ok(u) => o == Pass && rates == u
        case Err(e) => o == Fail(e) && rates == old(rates)
      ensures old(IdentityDiagonal()) && source != target ==> IdentityDiagonal()
    {
      SetRateEffect(rates, currencies, source, target, rate);
      if source == target && source in currencies && rate > 0.0 {
        assert Get(Put(Put(rates, source, target, rate), target, source, 1.0 / rate), source, source) == 1.0 / rate;
      }
      if source != target && SetRateSpec(rates, currencies, source, target, rate).Ok? && IdentityDiagonal() {
        SetRateKeepsIdentity(rates, currencies, source, target, rate);
      }
      if source !in currencies {
        return Fail(UnsupportedCurrency(source));
      }
      if target !in currencies {
        return Fail(UnsupportedCurrency(target));
      }
      if rate <= 0.0 {
        return Fail(InvalidRate(rate));
      }
      rates := Put(rates, source, target, rate);
      rates := Put(rates, target, source, 1.0 / rate);
      o := Pass;
    }

    /** `get_rate` (api/models/rates.py:190-197). */
    function GetRate(source: string, target: string): (r: Result<real, Error>)
      reads this
      ensures r.Ok? <==> source in currencies && target in currencies
      ensures source !in currencies ==> r == Err(UnsupportedCurrency(source))
      ensures source in currencies && target !in currencies ==> r == Err(UnsupportedCurrency(target))
      ensures r.Ok? ==> r.value == Get(rates, source, target)
    {
      if source !in currencies then Err(UnsupportedCurrency(source))
      else if target !in currencies then Err(UnsupportedCurrency(target))
      else Ok(Get(rates, source, target))
    }

    /** A known rate between two registered currencies is the reciprocal of the reverse rate. */
    lemma GetRateInverse(source: string, target: string)
      requires Valid() && source != target
      requires GetRate(source, target).Ok? && GetRate(source, target).value > 0.0
      ensures GetRate(target, source) == Ok(1.0 / GetRate(source, target).value)
    {
    }

    /** `convert` (api/models/rates.py:199-204). */
    function Convert(amount: real, source: string, target: string): (r: Result<real, Error>)
      reads this
      ensures r.Ok? <==> source in currencies && target in currencies && Get(rates, source, target) > 0.0
      ensures source in currencies && target in currencies && Get(rates, source, target) <= 0.0 ==>
        r == Err(NoValidRate(source, target))
      ensures r.Ok? ==> r.value == amount * Get(rates, source, target)
    {
      match GetRate(source, target)
      case Err(e) => Err(e)
      case Ok(rate) => if rate <= 0.0 then Err(NoValidRate(source, target)) else Ok(amount * rate)
    }

    /** Converting to the same currency gives the amount back while the diagonal holds 1.0. */
    lemma ConvertToSelf(amount: real, c: string)
      requires IdentityDiagonal() && c in currencies
      ensures Convert(amount, c, c) == Ok(amount)
    {
    }

    /** Converting there and back returns the original amount, since rates are stored with their reciprocals. */
    lemma ConvertRoundTrip(amount: real, source: string, target: string)
      requires Valid() && source != target && Convert(amount, source, target).Ok?
      ensures Convert(Convert(amount, source, target).value, target, source) == Ok(amount)
    {
      var r := Get(rates, source, target);
      var v := amount * r;
      assert Convert(amount, source, target).value == v;
      assert Get(rates, target, source) == 1.0 / r;
      ReciprocalOfReciprocal(r);
      assert Convert(v, target, source).Ok?;
      assert Convert(v, target, source).value == v * (1.0 / r);
      assert v * (1.0 / r) == amount;
    }

    /** One `set_rate` call of a run of them: the run so far, `done`, extended by `q`. */
    method ApplyQuote(ghost start: Table, ghost done: seq<Quote>, q: Quote) returns (o: Outcome<Error>)
      requires Valid() && ApplyQuotes(start, currencies, done) == Applied(rates, None)
      modifies this
      ensures Valid()
      ensures o.Pass? ==> ApplyQuotes(start, currencies, done + [q]) == Applied(rates, None)
      ensures o.Fail? ==> ApplyQuotes(start, currencies, done + [q]) == Applied(rates, Some(o.error))
    {
      ApplyQuotesStep(start, currencies, done, q);
      o := SetRate(q.source, q.target, q.rate);
    }

    /**
     * One iteration of the loop of `set_rates_from_base`
     * (api/models/rates.py:215-217): base→currency is set unless the currency
     * is the base; a rejected rate raises and ends the loop.
     */
    method SetBaseRate(ghost start: Table, base: string, baseRates: seq<(string, real)>, i: nat) returns (o: Outcome<Error>)
      requires Valid() && i < |baseRates|
      requires ApplyQuotes(start, currencies, BaseQuotes(base, baseRates[..i])) == Applied(rates, None)
      modifies this
      ensures Valid()
      ensures o.Pass? ==> ApplyQuotes(start, currencies, BaseQuotes(base, baseRates[..i + 1])) == Applied(rates, None)
      ensures o.Fail? ==> ApplyQuotes(start, currencies, BaseQuotes(base, baseRates)) == Applied(rates, Some(o.error))
    {
      var (currency, rate) := baseRates[i];
      assert baseRates[..i + 1][..i] == baseRates[..i];
      if currency != base {
        o := ApplyQuote(start, BaseQuotes(base, baseRates[..i]), Quote(base, currency, rate));
        if o.Fail? {
          BaseQuotesMonotone(base, baseRates[..i + 1], baseRates);
          ApplyQuotesStopped(start, currencies, BaseQuotes(base, baseRates[..i + 1]), BaseQuotes(base, baseRates));
        }
      } else {
        o := Pass;
      }
    }

    /**
     * `set_rates_from_base` (api/models/rates.py:206-220): set base→currency for
     * every listed currency other than the base, stopping at the first
     * rejected rate, then complete transitively.
     */
    method SetRatesFromBase(base: string, baseRates: seq<(string, real)>) returns (o: Outcome<Error>)
      requires Valid()
      modifies this
      ensures Valid()
      ensures var ap := ApplyQuotes(old(rates), currencies, BaseQuotes(base, baseRates));
        match ap.failure
        case Some(e) => o == Fail(e) && rates == ap.table
        case None => o == Pass && rates == Completed(ap.table, currencies)
    {
      ghost var t0 := rates;
      var i := 0;
      while i < |baseRates|
        invariant 0 <= i <= |baseRates|
        invariant Valid()
        invariant ApplyQuotes(t0, currencies, BaseQuotes(base, baseRates[..i])) == Applied(rates, None)
      {
        o := SetBaseRate(t0, base, baseRates, i);
        if o.Fail? {
          return;
        }
        i := i + 1;
      }
      assert baseRates[..i] == baseRates;
      ComputeTransitiveRates();
      o := Pass;
    }

    /**
     * `_compute_transitive_rates` (api/models/rates.py:222-240): `|currencies|`
     * sweeps over all triples (a, b, c) in registry order, filling an unknown
     * a→c from known a→b and b→c, together with c→a.
     */
    method ComputeTransitiveRates()
      requires Valid()
      modifies this
      ensures Valid()
      ensures rates == Completed(old(rates), currencies)
    {
      Completion.CompletedExtends(rates, currencies);
      rates := CompleteTable(rates, currencies);
    }

    /**
     * `get_price_table` (api/models/rates.py:257-275): every other currency
     * priced in `base`, highest price first, ties in registry order.
     */
    method GetPriceTable(base: string) returns (r: Result<seq<PriceEntry>, Error>)
      requires Valid()
      ensures base !in currencies ==> r == Err(UnsupportedCurrency(base))
      ensures base in currencies ==> r.Ok?
      ensures r.Ok? ==> r.value == SortDesc(PriceRows(rates, names, currencies, base), PriceOf)
      ensures r.Ok? ==> |r.value| == |Others(currencies, base)|
      ensures r.Ok? ==> forall c :: c in currencies && c != base <==> exists e :: e in r.value && e.currency == c
      ensures r.Ok? ==> forall e :: e in r.value ==> e.price == Get(rates, e.currency, base) && e.name == names[e.currency] && e.shown == Label(e.price)
      ensures r.Ok? ==> SortedDesc(r.value, PriceOf)
      ensures r.Ok? ==> forall k :: WithKey(r.value, PriceOf, k) == WithKey(PriceRows(rates, names, currencies, base), PriceOf, k)
      ensures r.Ok? && NoDuplicates(currencies) ==> forall i, j :: 0 <= i < j < |r.value| ==> r.value[i].currency != r.value[j].currency
    {
      var cs := currencies;
      var prices: seq<PriceEntry> := [];
      var i := 0;
      while i < |cs|
        invariant 0 <= i <= |cs|
        invariant i > 0 ==> base in cs
        invariant prices == PriceRows(rates, names, cs[..i], base)
      {
        var c := cs[i];
        assert cs[..i + 1][..i] == cs[..i];
        if c != base {
          var got := GetRate(c, base);
          if got.Err? {
            return Err(got.error);
          }
          var rate := got.value;
          prices := prices + [PriceEntry(c, names[c], rate, Label(rate))];
        }
        i := i + 1;
      }
      assert cs[..i] == cs;
      PriceTableContents(rates, names, cs, base);
      if NoDuplicates(cs) {
        PriceTableDistinct(rates, names, cs, base);
      }
      var sorted := SortDesc(prices, PriceOf);
      r := Ok(sorted);
    }

    /**
     * One iteration of the loop of `from_poe2scout_data`
     * (api/models/rates.py:296-297): a positive quoted rate is set; the
     * first one `set_rate` rejects raises and ends the loop.
     */
    method SetQuote(ghost start: Table, quotes: seq<Quote>, i: nat) returns (o: Outcome<Error>)
      requires Valid() && i < |quotes|
      requires ApplyQuotes(start, currencies, PositiveQuotes(quotes[..i])) == Applied(rates, None)
      modifies this
      ensures Valid()
      ensures o.Pass? ==> ApplyQuotes(start, currencies, PositiveQuotes(quotes[..i + 1])) == Applied(rates, None)
      ensures o.Fail? ==> ApplyQuotes(start, currencies, PositiveQuotes(quotes)) == Applied(rates, Some(o.error))
    {
      var q := quotes[i];
      assert quotes[..i + 1] == quotes[..i] + [q];
      if q.rate > 0.0 {
        o := ApplyQuote(start, PositiveQuotes(quotes[..i]), q);
        if o.Fail? {
          PositiveQuotesMonotone(quotes[..i + 1], quotes);
          ApplyQuotesStopped(start, currencies, PositiveQuotes(quotes[..i + 1]), PositiveQuotes(quotes));
        }
      } else {
        o := Pass;
      }
    }

    /** The loop of `from_poe2scout_data` (api/models/rates.py:294-297), every positive rate set in order. */
    method SetQuotes(quotes: seq<Quote>) returns (o: Outcome<Error>)
      requires Valid()
      modifies this
      ensures Valid()
      ensures var ap := ApplyQuotes(old(rates), currencies, PositiveQuotes(quotes));
        rates == ap.table && (o.Pass? <==> ap.failure.None?) && (o.Fail? ==> ap.failure == Some(o.error))
    {
      ghost var start := rates;
      var i := 0;
      while i < |quotes|
        invariant 0 <= i <= |quotes|
        invariant Valid()
        invariant ApplyQuotes(start, currencies, PositiveQuotes(quotes[..i])) == Applied(rates, None)
      {
        o := SetQuote(start, quotes, i);
        if o.Fail? {
          return;
        }
        i := i + 1;
      }
      assert quotes[..i] == quotes;
      o := Pass;
    }

    /**
     * `from_poe2scout_data` (api/models/rates.py:277-300): a matrix over the
     * default registry, fetched at `now`, with every positive quoted rate set
     * in order; an unregistered currency in a quote raises.
     */
    static method FromPoe2ScoutData(quotes: seq<Quote>, league: string, now: real) returns (r: Result<RateMatrix, Error>)
      ensures var ap := ApplyQuotes(InitialRates(SupportedCurrencies), SupportedCurrencies, PositiveQuotes(quotes));
        match r
        case Ok(m) => ap.failure.None? && fresh(m) && m.Valid() && m.rates == ap.table
          && m.currencies == SupportedCurrencies
          && m.metadata == RateMetadata("poe2scout", league, "poe2", Some(now), 300)
        case Err(e) => ap.failure == Some(e)
    {
      var m := new RateMatrix(RateMetadata("poe2scout", league, "poe2", Some(now), 300), []);
      var o := m.SetQuotes(quotes);
      if o.Fail? {
        return Err(o.error);
      }
      r := Ok(m);
    }
  }
}
