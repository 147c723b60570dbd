/**
 * The customer re-keying and the country-name substitution of the feature
 * preparation step.  Both work on copies of the table, so they are modelled
 * as functions from rows to rows.
 */
module Features {
  import Sorting
  import Text

  /**
   * One row of the customer table: the columns the two steps read or write,
   * with every other column kept together in `attributes`.  A day number
   * stands for the first purchase timestamp.
   */
  datatype Customer = Customer(customerId: string, firstPurchase: int, country: string, attributes: seq<string>)

  /** The sort key of `recreate_customer_id`: the first purchase day. */
  function FirstPurchase(c: Customer): (day: int)
  {
    c.firstPurchase
  }

  const IdPrefix: string := "CUST-"

  /** `f'CUST-{i:06d}'`: the prefix, then `i` in decimal padded with zeros to six digits. */
  function CustomerId(i: nat): (id: string)
    ensures |id| >= 11 && id[..5] == IdPrefix
    ensures forall k :: 5 <= k < |id| ==> Text.IsDigit(id[k])
  {
    IdPrefix + Text.ZeroPadded(i, 6)
  }

  /** The digits after the prefix read back as `i`. */
  lemma CustomerIdRoundTrip(i: nat)
    ensures Text.ValueOf(CustomerId(i)[5..]) == i
  {
    assert CustomerId(i)[5..] == Text.ZeroPadded(i, 6);
    Text.ZeroPaddedRoundTrip(i, 6);
  }

  /** Below a million every id has exactly eleven characters. */
  lemma CustomerIdLength(i: nat)
    requires i < 1000000
    ensures |CustomerId(i)| == 11
  {
    assert Text.Pow10(6) == 1000000 by {
      assert Text.Pow10(0) == 1;
    }
    Text.DecimalLength(i, 6, 1000000);
  }

  /** Different row numbers give different ids, at any table size. */
  lemma CustomerIdInjective(i: nat, j: nat)
    requires i != j
    ensures CustomerId(i) != CustomerId(j)
  {
    Text.ZeroPaddedInjective(i, j, 6);
    assert CustomerId(i)[5..] == Text.ZeroPadded(i, 6);
    assert CustomerId(j)[5..] == Text.ZeroPadded(j, 6);
  }

  /**
   * `recreate_customer_id`: the rows ordered by first purchase, then renumbered
   * from one, the i-th row (counting from one) getting `CustomerId(i)`.
   */
  function RecreateCustomerId(rows: seq<Customer>): (r: seq<Customer>)
    ensures |r| == |rows|
    ensures forall i :: 0 <= i < |r| ==> r[i].customerId == CustomerId(i + 1)
  {
    var sorted := Sorting.SortBy(rows, FirstPurchase);
    seq(|sorted|, i requires 0 <= i < |sorted| => sorted[i].(customerId := CustomerId(i + 1)))
  }

  /** The re-keyed table is a reordering of the input rows, each with its new id and nothing else changed. */
  lemma RecreateCustomerIdPermutes(rows: seq<Customer>)
    ensures exists order: seq<Customer> ::
              && multiset(order) == multiset(rows) && |order| == |rows|
              && forall i :: 0 <= i < |rows| ==> RecreateCustomerId(rows)[i] == order[i].(customerId := CustomerId(i + 1))
  {
    var order := Sorting.SortBy(rows, FirstPurchase);
    assert forall i :: 0 <= i < |rows| ==> RecreateCustomerId(rows)[i] == order[i].(customerId := CustomerId(i + 1));
  }

  /** The re-keyed table is ordered by first purchase. */
  lemma RecreateCustomerIdSorted(rows: seq<Customer>)
    ensures var r := RecreateCustomerId(rows);
            forall i, j :: 0 <= i < j < |r| ==> r[i].firstPurchase <= r[j].firstPurchase
  {
    var sorted := Sorting.SortBy(rows, FirstPurchase);
    var r := RecreateCustomerId(rows);
    forall i, j | 0 <= i < j < |r| ensures r[i].firstPurchase <= r[j].firstPurchase {
      assert r[i].firstPurchase == FirstPurchase(sorted[i]) && r[j].firstPurchase == FirstPurchase(sorted[j]);
    }
  }

  /** No two rows of the re-keyed table share an id. */
  lemma RecreateCustomerIdDistinct(rows: seq<Customer>)
    ensures var r := RecreateCustomerId(rows);
            forall i, j :: 0 <= i < j < |r| ==> r[i].customerId != r[j].customerId
  {
    var r := RecreateCustomerId(rows);
    forall i, j | 0 <= i < j < |r| ensures r[i].customerId != r[j].customerId {
      CustomerIdInjective(i + 1, j + 1);
    }
  }

  /** The replacement table of `clean_countries`: legacy spellings and their current names. */
  const Replacements: map<string, string> := map[
    "Korea" := "South Korea",
    "Micronesia" := "Federated States of Micronesia",
    "Cape Verde" := "Cabo Verde",
    "Saint Martin" := "Saint Martin (French part)",
    "Svalbard & Jan Mayen Islands" := "Svalbard and Jan Mayen",
    "United States Virgin Islands" := "Virgin Islands, U.S.",
    "Saint Helena" := "Saint Helena, Ascension and Tristan da Cunha",
    "Swaziland" := "Eswatini",
    "Cote d'Ivoire" := "C\U{F4}te d'Ivoire",
    "Pitcairn Islands" := "Pitcairn",
    "Slovakia (Slovak Republic)" := "Slovakia",
    "Palestinian Territory" := "Palestine, State of",
    "Saint Barthelemy" := "Saint Barth\U{E9}lemy",
    "Antarctica (the territory South of 60 deg S)" := "Antarctica",
    "Libyan Arab Jamahiriya" := "Libya",
    "British Indian Ocean Territory (Chagos Archipelago)" := "British Indian Ocean Territory",
    "Reunion" := "R\U{E9}union",
    "Bouvet Island (Bouvetoya)" := "Bouvet Island",
    "Turkey" := "T\U{FC}rkiye",
    "Netherlands Antilles" := "Cura\U{E7}ao"
  ]

  /** `Series.replace(replacements)` on one value: a whole-value match is replaced, anything else is kept. */
  function CleanCountry(name: string): (cleaned: string)
    ensures name !in Replacements ==> cleaned == name
    ensures name in Replacements ==> cleaned == Replacements[name]
  {
    if name in Replacements then Replacements[name] else name
  }

  /** features.py line 43: the country column with the replacement applied to every row. */
  function CleanCountries(countries: seq<string>): (r: seq<string>)
    ensures |r| == |countries|
    ensures forall i :: 0 <= i < |r| ==> r[i] == CleanCountry(countries[i])
  {
    if countries == [] then [] else [CleanCountry(countries[0])] + CleanCountries(countries[1..])
  }

  /** No current name is itself a legacy spelling, so one pass of replacement is final. */
  lemma ReplacedNamesAreFinal(name: string)
    requires name in Replacements
    ensures Replacements[name] !in Replacements
  {
    // The table is checked in bands of legacy-name length, each a smaller proof.
    if |name| <= 7 {
      FinalUpToLength7(name);
    } else if |name| <= 10 {
      FinalUpToLength10(name);
    } else if |name| <= 13 {
      FinalUpToLength13(name);
    } else if |name| <= 16 {
      FinalUpToLength16(name);
    } else if |name| <= 25 {
      FinalUpToLength25(name);
    } else {
      FinalBeyondLength25(name);
    }
  }

  lemma FinalUpToLength7(name: string)
    requires name in Replacements && |name| <= 7
    ensures Replacements[name] !in Replacements
  {
  }

  lemma FinalUpToLength10(name: string)
    requires name in Replacements && 7 < |name| <= 10
    ensures Replacements[name] !in Replacements
  {
  }

  lemma FinalUpToLength13(name: string)
    requires name in Replacements && 10 < |name| <= 13
    ensures Replacements[name] !in Replacements
  {
  }

  lemma FinalUpToLength16(name: string)
    requires name in Replacements && 13 < |name| <= 16
    ensures Replacements[name] !in Replacements
  {
  }

  lemma FinalUpToLength25(name: string)
    requires name in Replacements && 16 < |name| <= 25
    ensures Replacements[name] !in Replacements
  {
  }

  lemma FinalBeyondLength25(name: string)
    requires name in Replacements && 25 < |name|
    ensures Replacements[name] !in Replacements
  {
  }

  /** Cleaning a cleaned name changes nothing. */
  lemma CleanCountryIdempotent(name: string)
    ensures CleanCountry(CleanCountry(name)) == CleanCountry(name)
  {
    if name in Replacements {
      ReplacedNamesAreFinal(name);
    }
  }

  /** Cleaning the column twice gives the same column as cleaning it once. */
  lemma CleanCountriesIdempotent(countries: seq<string>)
    ensures CleanCountries(CleanCountries(countries)) == CleanCountries(countries)
  {
    forall i | 0 <= i < |countries| ensures CleanCountries(CleanCountries(countries))[i] == CleanCountries(countries)[i] {
      CleanCountryIdempotent(countries[i]);
    }
  }
}
