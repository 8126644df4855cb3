/** Lookups over the country list: which countries have life-table data, and
    a country's display name. The list itself is a parameter. */
module CountryData {
  import opened Wrappers
  import opened Seqs

  datatype Country = Country(code: string, name: string, nameEs: string, region: string, hasData: bool)

  /** The two display languages. */
  datatype Locale = Es | En

  /** `i` is the position of the first country with code `code`. */
  predicate FirstWithCode(countries: seq<Country>, code: string, i: int) {
    0 <= i < |countries| && countries[i].code == code
    && forall j :: 0 <= j < i ==> countries[j].code != code
  }

  /** No country has code `code`. */
  predicate UnknownCode(countries: seq<Country>, code: string) {
    forall j :: 0 <= j < |countries| ==> countries[j].code != code
  }

  /** The first country with code `code` (a `find` by code). */
  function FindCountry(countries: seq<Country>, code: string): (r: Option<Country>)
    ensures r.None? <==> UnknownCode(countries, code)
    ensures forall i :: FirstWithCode(countries, code, i) ==> r == Some(countries[i])
  {
    var k := FindIndex(countries, (c: Country) => c.code == code);
    match k
    case None => None
    case Some(i) => Some(countries[i])
  }

  /** The countries with data, in list order. */
  function AvailableCountries(countries: seq<Country>): (r: seq<Country>)
    ensures forall c :: c in r <==> c in countries && c.hasData
    ensures forall c :: multiset(r)[c] == if c.hasData then multiset(countries)[c] else 0
    ensures IsSubsequence(r, countries)
  {
    Filter(countries, (c: Country) => c.hasData)
  }

  /** Whether the first country with that code has data; false for an
      unknown code. */
  function HasLifeTableData(countries: seq<Country>, code: string): (r: bool)
    ensures UnknownCode(countries, code) ==> !r
    ensures forall i :: FirstWithCode(countries, code, i) ==> (r <==> countries[i].hasData)
  {
    match FindCountry(countries, code)
    case None => false
    case Some(c) => c.hasData
  }

  /** The display name of a country: its Spanish or English name from the
      first entry with that code, or the code itself when no entry has it. */
  function CountryName(countries: seq<Country>, code: string, locale: Locale): (r: string)
    ensures UnknownCode(countries, code) ==> r == code
    ensures forall i :: FirstWithCode(countries, code, i) ==>
      r == (if locale == Es then countries[i].nameEs else countries[i].name)
  {
    match FindCountry(countries, code)
    case None => code
    case Some(c) => if locale == Es then c.nameEs else c.name
  }

  /** No two countries share a code. */
  predicate UniqueCodes(countries: seq<Country>) {
    forall i, j :: 0 <= i < j < |countries| ==> countries[i].code != countries[j].code
  }

  /** With unique codes, every country offered as available reports data. */
  lemma AvailableHaveData(countries: seq<Country>)
    requires UniqueCodes(countries)
    ensures forall c :: c in AvailableCountries(countries) ==> HasLifeTableData(countries, c.code)
  {
    forall c | c in AvailableCountries(countries)
      ensures HasLifeTableData(countries, c.code)
    {
      var i :| 0 <= i < |countries| && countries[i] == c;
      assert FirstWithCode(countries, c.code, i);
    }
  }
}
