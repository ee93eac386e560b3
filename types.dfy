/** The canonical country record the page works with. */
module Types {
  import opened Wrappers

  /** A normalized country. `capital` and `tld` are optional, as in the interface they model. */
  datatype Country = Country(
    name: string,
    nativeName: string,
    population: int,
    region: string,
    subregion: string,
    capital: Option<string>,
    flag: string,
    tld: Option<string>,
    currencies: string,
    languages: string,
    borders: seq<string>,
    cca3: string)
}
