/** The one-time mapping of the bundled raw dataset onto `Country` records. */
module Normalizer {
  import opened Wrappers
  import opened Strings
  import opened Types

  /** The nested `flags` object of a raw record; only its `svg` reference is read. */
  datatype Flags = Flags(svg: Option<string>)

  /** An entry of a raw `currencies` or `languages` list; only its `name` is read. */
  datatype Named = Named(name: string)

  /** A raw dataset record. Every field the normalizer falls back on is optional. */
  datatype RawCountry = RawCountry(
    name: string,
    nativeName: Option<string>,
    population: int,
    region: string,
    subregion: string,
    capital: Option<string>,
    flags: Option<Flags>,
    flag: string,
    topLevelDomain: Option<seq<string>>,
    currencies: Option<seq<Named>>,
    languages: Option<seq<Named>>,
    borders: Option<seq<string>>,
    alpha3Code: string)

  /** JavaScript's `a || b` where `a` is an optional string: an absent or empty `a` is falsy. */
  function Or(a: Option<string>, b: string): (r: string)
    ensures r == b || (a == Some(r) && r != "")
    ensures a.Some? && a.value != "" ==> r == a.value
    ensures b != "" ==> r != ""
  {
    if a.Some? && a.value != "" then a.value else b
  }

  /** `country.flags?.svg` */
  function FlagSvg(flags: Option<Flags>): (r: Option<string>)
    ensures flags.None? ==> r.None?
    ensures flags.Some? ==> r == flags.value.svg
  {
    match flags
    case None => None
    case Some(f) => f.svg
  }

  /** `country.topLevelDomain?.[0]`: absent when the list is absent or empty. */
  function FirstTld(tlds: Option<seq<string>>): (r: Option<string>)
    ensures r.Some? <==> tlds.Some? && |tlds.value| > 0
    ensures r.Some? ==> r.value == tlds.value[0]
  {
    match tlds
    case None => None
    case Some(ds) => if |ds| > 0 then Some(ds[0]) else None
  }

  function Names(xs: seq<Named>): (r: seq<string>)
    ensures |r| == |xs| && forall i :: 0 <= i < |xs| ==> r[i] == xs[i].name
  {
    seq(|xs|, i requires 0 <= i < |xs| => xs[i].name)
  }

  /** `list ? list.map(x => x.name).join(', ') : 'N/A'`; an array, even an empty one, is truthy. */
  function Label(list: Option<seq<Named>>): (r: string)
    ensures list.None? ==> r == "N/A"
    ensures list == Some([]) ==> r == ""
  {
    if list.Some? then Join(Names(list.value), ", ") else "N/A"
  }

  /** What the label of a currency or language list says about the list. */
  lemma LabelCases(list: Option<seq<Named>>)
    ensures list.Some? && |list.value| == 1 ==> Label(list) == list.value[0].name
    ensures list.Some? ==> forall i :: 0 <= i < |list.value| ==> Contains(Label(list), list.value[i].name)
  {
    if list.Some? {
      var names := Names(list.value);
      forall i | 0 <= i < |list.value|
        ensures Contains(Label(list), list.value[i].name)
      {
        JoinContainsEach(names, ", ", i);
      }
    }
  }

  /** One more entry in a non-empty list adds `", "` and its name to the end of the label,
      so the label lists the names in order, separated by `", "`. */
  lemma LabelAppend(xs: seq<Named>, x: Named)
    requires xs != []
    ensures Label(Some(xs + [x])) == Label(Some(xs)) + ", " + x.name
  {
    assert Names(xs + [x]) == Names(xs) + [x.name];
    JoinAppend(Names(xs), x.name, ", ");
  }

  /** One record of the `countryData.map(...)` callback. */
  function Normalize(c: RawCountry): (r: Country)
    ensures r.name == c.name && r.population == c.population && r.region == c.region
    ensures r.subregion == c.subregion && r.capital == c.capital && r.cca3 == c.alpha3Code
    ensures c.nativeName.Some? && c.nativeName.value != "" ==> r.nativeName == c.nativeName.value
    ensures c.nativeName.None? || c.nativeName == Some("") ==> r.nativeName == c.name
    ensures c.name != "" ==> r.nativeName != ""
    ensures FlagSvg(c.flags).Some? && FlagSvg(c.flags).value != "" ==> r.flag == c.flags.value.svg.value
    ensures FlagSvg(c.flags).None? || FlagSvg(c.flags) == Some("") ==> r.flag == c.flag
    ensures r.tld.Some?
    ensures c.topLevelDomain.Some? && |c.topLevelDomain.value| > 0 ==> r.tld == Some(c.topLevelDomain.value[0])
    ensures c.topLevelDomain.None? || c.topLevelDomain == Some([]) ==> r.tld == Some("")
    ensures r.currencies == Label(c.currencies) && r.languages == Label(c.languages)
    ensures c.borders.Some? ==> r.borders == c.borders.value
    ensures c.borders.None? ==> r.borders == []
  {
    Country(
      name := c.name,
      nativeName := Or(c.nativeName, c.name),
      population := c.population,
      region := c.region,
      subregion := c.subregion,
      capital := c.capital,
      flag := Or(FlagSvg(c.flags), c.flag),
      tld := Some(Or(FirstTld(c.topLevelDomain), "")),
      currencies := Label(c.currencies),
      languages := Label(c.languages),
      borders := if c.borders.Some? then c.borders.value else [],
      cca3 := c.alpha3Code)
  }

  /** `countryData.map(...)`: one record out for each record in, in the same order. */
  function NormalizeAll(data: seq<RawCountry>): (r: seq<Country>)
    ensures |r| == |data|
    ensures forall i :: 0 <= i < |data| ==> r[i] == Normalize(data[i])
  {
    seq(|data|, i requires 0 <= i < |data| => Normalize(data[i]))
  }

  /** Normalizing a concatenation normalizes each part: record i of the output depends on
      record i of the input alone, whatever surrounds it. */
  lemma NormalizeAllAppend(a: seq<RawCountry>, b: seq<RawCountry>)
    ensures NormalizeAll(a + b) == NormalizeAll(a) + NormalizeAll(b)
  {
  }
}
