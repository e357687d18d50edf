/** Which institution name and address a card shows: a custom pair from the
    request, or the first college of the selected country in the static
    college table, or literal defaults; and how much of the address is
    printed. */
module Institution {
  import opened JsText

  datatype College = College(name: string, address: string)

  /** One entry of the college table: a country key and its colleges, in
      `Object.keys` order. The table comes from a JSON object, whose keys are
      distinct; a table with a repeated key stands for no such object, and
      no contract here relies on the keys being distinct. */
  datatype Country = Country(key: string, colleges: seq<College>)

  const DefaultName: string := "Westminster International University in Tashkent"
  const DefaultAddress: string := "628, Kanaikhali, Natore"

  /** Number of address characters printed on a card. */
  const AddressWidth: nat := 30

  /** The index read from the `country` parameter: `parseInt(params.country || '0')`. */
  function CountryIndex(country: Param): (r: Option<int>)
    ensures !Truthy(country) ==> r == Some(0)
    ensures country.Integer? ==> r == Some(country.n)
  {
    ParseIntOfIntText(0);
    assert IntText(0) == "0";
    ParseIntParam(OrElse(country, "0"))
  }

  /** `countries[countryIndex] || countries[0]`, as a position in the table:
      the requested entry when the index is a number inside the table and its
      key is not the (falsy) empty string, otherwise the first entry; `None`
      when the table is empty. */
  function SelectedCountry(country: Param, table: seq<Country>): (r: Option<nat>)
    ensures r.Some? <==> |table| > 0
    ensures r.Some? ==> r.value < |table|
    ensures r.Some? && r.value != 0 ==>
      CountryIndex(country) == Some(r.value as int) && table[r.value].key != ""
    ensures CountryIndex(country).Some? && 0 <= CountryIndex(country).value < |table|
            && table[CountryIndex(country).value].key != "" ==>
      r == Some(CountryIndex(country).value as nat)
  {
    var idx := CountryIndex(country);
    if idx.Some? && 0 <= idx.value < |table| && table[idx.value].key != "" then Some(idx.value)
    else if |table| > 0 then Some(0)
    else None
  }

  /** `colleges[selectedCountry] ? colleges[selectedCountry][0] : null`: the
      first college of the selected country, if there is one. */
  function CountryCollege(country: Param, table: seq<Country>): (r: Option<College>)
    ensures r.Some? <==> SelectedCountry(country, table).Some?
                         && table[SelectedCountry(country, table).value].colleges != []
    ensures r.Some? ==> r.value == table[SelectedCountry(country, table).value].colleges[0]
  {
    match SelectedCountry(country, table)
    case None => None
    case Some(i) => if |table[i].colleges| > 0 then Some(table[i].colleges[0]) else None
  }

  /** A custom field counts only when it is a string that is not blank. */
  predicate HasCustom(p: Param)
    ensures HasCustom(p) ==> Truthy(p) && p.Text? && !(forall i :: 0 <= i < |p.s| ==> IsSpace(p.s[i]))
  {
    p.Text? && Trim(p.s) != ""
  }

  /** The institution a card shows. The custom name and address are used,
      trimmed, only when both are given; otherwise the country's college, and
      without one the literal defaults. */
  function ChooseCollege(clgName: Param, clgAdd: Param, country: Param, table: seq<Country>): (r: College)
    ensures HasCustom(clgName) && HasCustom(clgAdd) ==>
      r == College(Trim(clgName.s), Trim(clgAdd.s))
    ensures HasCustom(clgName) && HasCustom(clgAdd) ==>
      r.name != "" && r.address != ""
      && !IsSpace(r.name[0]) && !IsSpace(r.name[|r.name| - 1])
      && !IsSpace(r.address[0]) && !IsSpace(r.address[|r.address| - 1])
    ensures !(HasCustom(clgName) && HasCustom(clgAdd)) ==>
      r == (if CountryCollege(country, table).Some? then CountryCollege(country, table).value
            else College(DefaultName, DefaultAddress))
  {
    if HasCustom(clgName) && HasCustom(clgAdd) then
      College(Trim(clgName.s), Trim(clgAdd.s))
    else
      match CountryCollege(country, table)
      case Some(c) => College(c.name, c.address)
      case None => College(DefaultName, DefaultAddress)
  }

  /** Supplying only one of the custom name and address has no effect: the
      result is the one for a request with neither. */
  lemma PartialCustomIgnored(clgName: Param, clgAdd: Param, country: Param, table: seq<Country>)
    requires !(HasCustom(clgName) && HasCustom(clgAdd))
    ensures ChooseCollege(clgName, clgAdd, country, table) == ChooseCollege(Absent, Absent, country, table)
  {
  }

  /** A complete custom pair wins over every country selection and table. */
  lemma CustomPairWins(clgName: Param, clgAdd: Param, country: Param, table: seq<Country>,
                       otherCountry: Param, otherTable: seq<Country>)
    requires HasCustom(clgName) && HasCustom(clgAdd)
    ensures ChooseCollege(clgName, clgAdd, country, table) == ChooseCollege(clgName, clgAdd, otherCountry, otherTable)
    ensures ChooseCollege(clgName, clgAdd, country, table) == College(Trim(clgName.s), Trim(clgAdd.s))
  {
  }

  /** A country index written in decimal selects that entry of the table when
      it lies inside the table and its key is not empty. */
  lemma CountryByIndex(i: int, table: seq<Country>)
    requires 0 <= i < |table| && table[i].key != ""
    ensures SelectedCountry(Text(IntText(i)), table) == Some(i)
    ensures i != 0 ==> SelectedCountry(Integer(i), table) == Some(i)
  {
    CountryIndexOfText(i);
  }

  /** A country written in decimal reads as its number. */
  lemma CountryIndexOfText(i: int)
    ensures CountryIndex(Text(IntText(i))) == Some(i)
  {
    ParseIntOfIntText(i);
    assert IntText(i) != "";
  }

  /** A decimal index of an entry with a non-empty key and at least one
      college shows that entry's first college when no custom pair is given. */
  lemma CountryRecord(i: int, table: seq<Country>)
    requires 0 <= i < |table| && table[i].key != "" && table[i].colleges != []
    ensures ChooseCollege(Absent, Absent, Text(IntText(i)), table) == table[i].colleges[0]
  {
    CountryByIndex(i, table);
  }

  /** Without a usable index (no parameter, text that is not a number, a
      negative or too large index, or an entry with an empty key) the first
      country of a non-empty table is used. */
  lemma CountryFallback(country: Param, table: seq<Country>)
    requires |table| > 0
    requires CountryIndex(country).None?
          || !(0 <= CountryIndex(country).value < |table|)
          || table[CountryIndex(country).value].key == ""
    ensures SelectedCountry(country, table) == Some(0)
  {
  }

  /** A missing country parameter selects the first entry. */
  lemma CountryDefault(table: seq<Country>)
    requires |table| > 0
    ensures SelectedCountry(Absent, table) == Some(0)
  {
    ParseIntOfIntText(0);
    assert IntText(0) == "0";
  }

  /** With no usable custom pair and no college record for the selected
      country (an empty table, or a selected country without colleges), the
      literal defaults are shown. */
  lemma DefaultsWithoutRecord(clgName: Param, clgAdd: Param, country: Param, table: seq<Country>)
    requires !(HasCustom(clgName) && HasCustom(clgAdd))
    requires CountryCollege(country, table).None?
    ensures ChooseCollege(clgName, clgAdd, country, table)
      == College("Westminster International University in Tashkent", "628, Kanaikhali, Natore")
  {
  }

  /** `address.substring(0, 30)`: the first thirty characters of the address,
      or all of it when it is shorter; nothing is appended. */
  function PrintedAddress(address: string): (r: string)
    ensures |r| == if |address| < AddressWidth then |address| else AddressWidth
    ensures address == r + address[|r|..]
  {
    address[..if |address| < AddressWidth then |address| else AddressWidth]
  }

  /** An address of at most thirty characters is printed whole, and printing
      is idempotent. */
  lemma PrintedAddressShort(address: string)
    ensures |address| <= AddressWidth ==> PrintedAddress(address) == address
    ensures PrintedAddress(PrintedAddress(address)) == PrintedAddress(address)
  {
  }
}
