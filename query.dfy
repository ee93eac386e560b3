/** Filtering the country list and resolving border codes to names. */
module Query {
  import opened Wrappers
  import opened Strings
  import opened Types
  import Seqs

  /** The search test: the lower-cased name includes the lower-cased term. */
  predicate MatchesSearch(c: Country, term: string)
  {
    Contains(Lower(c.name), Lower(term))
  }

  /** The region test: exact, case-sensitive equality. */
  predicate MatchesRegion(c: Country, region: string)
  {
    c.region == region
  }

  /** A country is listed when each criterion is either unset (empty) or met. */
  predicate Matches(c: Country, term: string, region: string)
  {
    (term == "" || MatchesSearch(c, term)) && (region == "" || MatchesRegion(c, region))
  }

  function SearchTest(term: string): Country -> bool
  {
    c => MatchesSearch(c, term)
  }

  function RegionTest(region: string): Country -> bool
  {
    c => MatchesRegion(c, region)
  }

  function ListedTest(term: string, region: string): Country -> bool
  {
    c => Matches(c, term, region)
  }

  /** The search step of the filter effect: `filtered.filter(country => ...includes...)`. */
  function SearchStep(cs: seq<Country>, term: string): (r: seq<Country>)
    ensures forall c :: c in r ==> c in cs && MatchesSearch(c, term)
    ensures forall i :: 0 <= i < |cs| && MatchesSearch(cs[i], term) ==> cs[i] in r
  {
    Seqs.KeepComplete(cs, SearchTest(term));
    Seqs.Keep(cs, SearchTest(term))
  }

  /** The region step of the filter effect: `filtered.filter(country => country.region === ...)`. */
  function RegionStep(cs: seq<Country>, region: string): (r: seq<Country>)
    ensures forall c :: c in r ==> c in cs && c.region == region
    ensures forall i :: 0 <= i < |cs| && cs[i].region == region ==> cs[i] in r
  {
    Seqs.KeepComplete(cs, RegionTest(region));
    Seqs.Keep(cs, RegionTest(region))
  }

  /** The countries that should be listed for a search term and a region, in one pass. */
  function Visible(cs: seq<Country>, term: string, region: string): seq<Country>
  {
    Seqs.Keep(cs, ListedTest(term, region))
  }

  /** `Visible` is exactly the order-preserving subsequence of the listed countries:
      its elements sit at increasing positions of `cs`, and a position of `cs` appears
      exactly when its country matches both criteria. */
  lemma VisibleIsStableSubsequence(cs: seq<Country>, term: string, region: string)
    ensures var r, idx := Visible(cs, term, region), Seqs.KeepIndices(cs, ListedTest(term, region));
      |idx| == |r|
      && (forall k :: 0 <= k < |idx| ==> idx[k] < |cs| && r[k] == cs[idx[k]])
      && (forall k, l :: 0 <= k < l < |idx| ==> idx[k] < idx[l])
      && (forall i :: 0 <= i < |cs| ==> (i in idx <==> Matches(cs[i], term, region)))
  {
    Seqs.KeepIsStableSubsequence(cs, ListedTest(term, region));
  }

  /** With neither criterion set, every country is listed, in its place. */
  lemma VisibleUnfiltered(cs: seq<Country>)
    ensures Visible(cs, "", "") == cs
  {
    Seqs.KeepAll(cs, ListedTest("", ""));
  }

  /** The search step on its own lists what `Visible` lists for that term and no region. */
  lemma SearchStepIsVisible(cs: seq<Country>, term: string)
    requires term != ""
    ensures SearchStep(cs, term) == Visible(cs, term, "")
  {
    Seqs.KeepCongruent(cs, SearchTest(term), ListedTest(term, ""));
  }

  /** The region step applied to a list already filtered by a term completes `Visible`. */
  lemma RegionStepCompletes(cs: seq<Country>, term: string, region: string)
    requires region != ""
    ensures RegionStep(Visible(cs, term, ""), region) == Visible(cs, term, region)
  {
    Seqs.KeepKeep(cs, ListedTest(term, ""), RegionTest(region), ListedTest(term, region));
  }

  /** Searching for the empty term would keep every country, so skipping the search step
      for an empty term does not change the result. */
  lemma EmptySearchKeepsAll(cs: seq<Country>)
    ensures SearchStep(cs, "") == cs
  {
    forall i | 0 <= i < |cs| ensures SearchTest("")(cs[i]) {
      ContainsEmpty(Lower(cs[i].name));
    }
    Seqs.KeepAll(cs, SearchTest(""));
  }

  /** The two steps of the filter effect commute. */
  lemma StepsCommute(cs: seq<Country>, term: string, region: string)
    ensures RegionStep(SearchStep(cs, term), region) == SearchStep(RegionStep(cs, region), term)
  {
    Seqs.KeepCommutes(cs, SearchTest(term), RegionTest(region));
  }

  /** The search ignores the case of the term. */
  lemma SearchIgnoresCase(c: Country, term: string)
    ensures MatchesSearch(c, Lower(term)) == MatchesSearch(c, term)
  {
    LowerIdempotent(term);
  }

  function CodeIs(code: string): Country -> bool
  {
    (c: Country) => c.cca3 == code
  }

  function NameIs(name: string): Country -> bool
  {
    (c: Country) => c.name == name
  }

  /** `countries.find(c => c.cca3 === code)` */
  function FindByCode(cs: seq<Country>, code: string): (r: Option<Country>)
    ensures r.None? <==> forall j :: 0 <= j < |cs| ==> cs[j].cca3 != code
    ensures r.Some? ==> exists i :: 0 <= i < |cs| && cs[i] == r.value && cs[i].cca3 == code
                                   && forall j :: 0 <= j < i ==> cs[j].cca3 != code
  {
    Seqs.Find(cs, CodeIs(code))
  }

  /** `countries.find(c => c.name === name)` */
  function FindByName(cs: seq<Country>, name: string): (r: Option<Country>)
    ensures r.None? <==> forall j :: 0 <= j < |cs| ==> cs[j].name != name
    ensures r.Some? ==> FirstNamed(cs, name, r.value)
  {
    Seqs.Find(cs, NameIs(name))
  }

  /** `c` is the first country of `cs` called `name`. */
  ghost predicate FirstNamed(cs: seq<Country>, name: string, c: Country)
  {
    exists i :: 0 <= i < |cs| && cs[i] == c && cs[i].name == name
      && forall j :: 0 <= j < i ==> cs[j].name != name
  }

  /** The display name of one border code: the first country with that code, else the code. */
  function BorderName(cs: seq<Country>, code: string): (r: string)
    ensures ResolvesTo(cs, code, r)
  {
    match FindByCode(cs, code)
    case Some(c) => c.name
    case None => code
  }

  /** Reference meaning of a resolved border entry: `name` is the name of the first country
      whose code is `code`, or, when no country has that code, the code itself. */
  ghost predicate ResolvesTo(cs: seq<Country>, code: string, name: string)
  {
    (exists i :: 0 <= i < |cs| && cs[i].cca3 == code && cs[i].name == name
       && forall j :: 0 <= j < i ==> cs[j].cca3 != code)
    || ((forall i :: 0 <= i < |cs| ==> cs[i].cca3 != code) && name == code)
  }

  /** `getBorderCountryNames(borders)`: one display name per border code, in order. */
  function BorderNames(cs: seq<Country>, borders: seq<string>): (r: seq<string>)
    ensures |r| == |borders|
    ensures forall i :: 0 <= i < |borders| ==> ResolvesTo(cs, borders[i], r[i])
  {
    seq(|borders|, i requires 0 <= i < |borders| => BorderName(cs, borders[i]))
  }

  /** When names are unique, following a resolved border entry back by name finds the
      country the code resolved to. */
  lemma BorderNameLeadsBack(cs: seq<Country>, code: string, k: int)
    requires forall i, j :: 0 <= i < j < |cs| ==> cs[i].name != cs[j].name
    requires 0 <= k < |cs| && cs[k].cca3 == code && forall j :: 0 <= j < k ==> cs[j].cca3 != code
    ensures FindByName(cs, BorderName(cs, code)) == Some(cs[k])
  {
    assert CodeIs(code)(cs[k]);
    var found := FindByCode(cs, code);
    var i :| Seqs.FirstMatch(cs, CodeIs(code), i) && cs[i] == found.value;
    assert i == k;
  }

  lemma FranceMatchesFra(france: Country)
    requires france.name == "France"
    ensures MatchesSearch(france, "fra")
  {
    assert Lower("France") == "france";
    assert Lower("fra") == "fra";
    assert IsPrefix("fra", "france");
  }

  lemma GermanyMissesFra(germany: Country)
    requires germany.name == "Germany"
    ensures !MatchesSearch(germany, "fra")
  {
    assert Lower("Germany") == "germany";
    assert Lower("fra") == "fra";
    assert !Contains("ny", "fra");
    NotContainsStep("any", "fra");
    NotContainsStep("many", "fra");
    NotContainsStep("rmany", "fra");
    NotContainsStep("ermany", "fra");
    NotContainsStep("germany", "fra");
  }

  /** A search for "fra" over France and Germany lists France alone. */
  lemma SearchExample(france: Country, germany: Country)
    requires france.name == "France" && germany.name == "Germany"
    ensures Visible([france, germany], "fra", "") == [france]
  {
    FranceMatchesFra(france);
    GermanyMissesFra(germany);
    var listed := ListedTest("fra", "");
    assert listed(france) && !listed(germany);
    var both := [france, germany];
    assert both[..1] == [france] && [france][..0] == [];
    calc {
      Visible(both, "fra", "");
      Seqs.Keep(both, listed);
      Seqs.Keep([france], listed);
      Seqs.Keep([], listed) + [france];
      [france];
    }
  }

  /** A known code resolves to its country's name and an unknown one is echoed. */
  lemma BorderNamesExample(cs: seq<Country>)
    requires exists i :: 0 <= i < |cs| && cs[i].cca3 == "DEU"
    requires forall i :: 0 <= i < |cs| && cs[i].cca3 == "DEU" ==> cs[i].name == "Germany"
    requires forall i :: 0 <= i < |cs| ==> cs[i].cca3 != "XXX"
    ensures BorderNames(cs, ["DEU", "XXX"]) == ["Germany", "XXX"]
  {
    var r := BorderNames(cs, ["DEU", "XXX"]);
    assert ResolvesTo(cs, "DEU", r[0]);
    assert ResolvesTo(cs, "XXX", r[1]);
  }
}
