/** The state of the countries page and the handlers that change it. */
module CountriesPage {
  import opened Wrappers
  import opened Types
  import Normalizer
  import Query

  /** The page's state variables. React's setters become assignments to these fields, and the
      two effects become the methods `Init` and `Refilter`, called after the changes that
      trigger them. */
  class CountriesApp {
    var countries: seq<Country>
    var filteredCountries: seq<Country>
    var searchTerm: string
    var selectedRegion: string
    var selectedCountry: Option<Country>
    var darkMode: bool
    var loading: bool

    /** Every listed country comes from the collection, and so does the selection. */
    ghost predicate Valid()
      reads this
    {
      (forall i :: 0 <= i < |filteredCountries| ==> filteredCountries[i] in countries)
      && (selectedCountry.Some? ==> selectedCountry.value in countries)
    }

    /** The initial values of the `useState` calls: nothing loaded yet, list view, light theme. */
    constructor ()
      ensures countries == [] && filteredCountries == []
      ensures searchTerm == "" && selectedRegion == ""
      ensures selectedCountry == None && !darkMode && loading
      ensures Valid()
    {
      countries := [];
      filteredCountries := [];
      searchTerm := "";
      selectedRegion := "";
      selectedCountry := None;
      darkMode := false;
      loading := true;
    }

    /** The mount effect: normalize the dataset, list all of it, stop loading. It runs once,
        while the page shows only its loading message, so no search term, region or selection
        can have been set. The filter effect, which `countries` also triggers, would produce
        the same list, since no criterion is set. */
    method Init(data: seq<Normalizer.RawCountry>)
      requires loading && searchTerm == "" && selectedRegion == "" && selectedCountry.None?
      modifies this`countries, this`filteredCountries, this`loading
      ensures countries == Normalizer.NormalizeAll(data)
      ensures filteredCountries == countries
      ensures filteredCountries == Query.Visible(countries, searchTerm, selectedRegion)
      ensures !loading
      ensures Valid()
    {
      var formatted := Normalizer.NormalizeAll(data);
      countries := formatted;
      filteredCountries := formatted;
      loading := false;
      Query.VisibleUnfiltered(countries);
    }

    /** The `onChange` of the search box. */
    method SetSearchTerm(term: string)
      modifies this`searchTerm
      ensures searchTerm == term
      ensures old(Valid()) ==> Valid()
    {
      searchTerm := term;
    }

    /** The `onChange` of the region select; the empty value means "no region". */
    method SetSelectedRegion(region: string)
      modifies this`selectedRegion
      ensures selectedRegion == region
      ensures old(Valid()) ==> Valid()
    {
      selectedRegion := region;
    }

    /** The filter effect: each criterion that is set narrows the list in turn. */
    method Refilter()
      modifies this`filteredCountries
      ensures filteredCountries == Query.Visible(countries, searchTerm, selectedRegion)
      ensures old(Valid()) ==> Valid()
    {
      var filtered := countries;
      if searchTerm != "" {
        filtered := Query.SearchStep(filtered, searchTerm);
        Query.SearchStepIsVisible(countries, searchTerm);
      } else {
        Query.VisibleUnfiltered(countries);
      }
      if selectedRegion != "" {
        filtered := Query.RegionStep(filtered, selectedRegion);
        Query.RegionStepCompletes(countries, searchTerm, selectedRegion);
      }
      filteredCountries := filtered;
    }

    /** `getBorderCountryNames`, read against the current collection. */
    function BorderCountryNames(borders: seq<string>): (r: seq<string>)
      reads this
      ensures |r| == |borders|
      ensures forall i :: 0 <= i < |borders| ==> Query.ResolvesTo(countries, borders[i], r[i])
    {
      Query.BorderNames(countries, borders)
    }

    /** Choosing a country in the list opens its detail view. */
    method HandleCountryClick(country: Country)
      modifies this`selectedCountry
      ensures selectedCountry == Some(country)
      ensures old(Valid()) && country in countries ==> Valid()
    {
      selectedCountry := Some(country);
    }

    /** The back button returns to the list. */
    method HandleBackClick()
      modifies this`selectedCountry
      ensures selectedCountry == None
      ensures old(Valid()) ==> Valid()
    {
      selectedCountry := None;
    }

    /** A border button selects the first country with that exact name; an unknown name
        changes nothing. */
    method HandleBorderCountryClick(borderName: string)
      modifies this`selectedCountry
      ensures (forall i :: 0 <= i < |countries| ==> countries[i].name != borderName)
                ==> selectedCountry == old(selectedCountry)
      ensures (exists i :: 0 <= i < |countries| && countries[i].name == borderName)
                ==> selectedCountry.Some? && Query.FirstNamed(countries, borderName, selectedCountry.value)
      ensures old(Valid()) ==> Valid()
    {
      var country := Query.FindByName(countries, borderName);
      if country.Some? {
        ghost var i :| 0 <= i < |countries| && countries[i] == country.value && countries[i].name == borderName
          && forall j :: 0 <= j < i ==> countries[j].name != borderName;
        selectedCountry := country;
        assert countries[i].name == borderName;
      } else {
        assert forall i :: 0 <= i < |countries| ==> countries[i].name != borderName;
      }
    }

    /** The theme button flips the theme flag. */
    method ToggleDarkMode()
      modifies this`darkMode
      ensures darkMode == !old(darkMode)
      ensures old(Valid()) ==> Valid()
    {
      darkMode := !darkMode;
    }
  }

  /** Opening a detail view and going back leaves the page in the list view with the
      filters and the theme it had before. */
  method SelectThenGoBack(app: CountriesApp, country: Country)
    modifies app
    ensures app.selectedCountry == None
    ensures app.searchTerm == old(app.searchTerm) && app.selectedRegion == old(app.selectedRegion)
    ensures app.darkMode == old(app.darkMode)
    ensures app.countries == old(app.countries) && app.filteredCountries == old(app.filteredCountries)
  {
    app.HandleCountryClick(country);
    app.HandleBackClick();
  }

  /** Toggling the theme twice restores it and touches nothing else. */
  method ToggleTwice(app: CountriesApp)
    modifies app
    ensures app.darkMode == old(app.darkMode)
    ensures app.selectedCountry == old(app.selectedCountry)
    ensures app.searchTerm == old(app.searchTerm) && app.selectedRegion == old(app.selectedRegion)
  {
    app.ToggleDarkMode();
    app.ToggleDarkMode();
  }

  /** Clicking a border entry that resolved to no country, when no country is named by the
      raw code either, leaves the detail view as it is. */
  method UnresolvedBorderIsInert(app: CountriesApp, code: string)
    modifies app
    requires forall i :: 0 <= i < |app.countries| ==> app.countries[i].cca3 != code && app.countries[i].name != code
    ensures app.selectedCountry == old(app.selectedCountry)
  {
    var names := app.BorderCountryNames([code]);
    assert names[0] == code;
    app.HandleBorderCountryClick(names[0]);
  }
}
