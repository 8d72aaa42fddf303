/** The closed lookup tables of the item records (`convert_currency`,
    `convert_event`, `convert_brand`, `convert_category`): a name to a small
    integer id, or a ValueError for any other name. All but the currency
    table look the name up after `upper().strip()`. */
module ItemUtils {
  import opened Wrappers
  import opened Values
  import opened Strings

  /** `convert_currency`: taken as written, with no normalisation. */
  function ConvertCurrency(currency: string): (r: Result<int, Exc>)
    ensures r.Ok? <==> currency == "KRW"
    ensures r.Ok? ==> r.value == 1
    ensures r.Err? ==> r == Err(ValueError(currency))
  {
    match currency
    case "KRW" => Ok(1)
    case _ => Err(ValueError(currency))
  }

  /** The event table on an already normalised name. */
  function EventId(event: string): Option<int>
  {
    match event
    case "1+1" => Some(1)
    case "2+1" => Some(2)
    case "GIFT" => Some(3)
    case "NEW" => Some(4)
    case "MONOPOLY" => Some(5)
    case "RESERVATION" => Some(6)
    case "DISCOUNT" => Some(7)
    case _ => None
  }

  function BrandId(brand: string): Option<int>
  {
    match brand
    case "GS25" => Some(1)
    case "CU" => Some(2)
    case "SEVEN ELEVEN" => Some(3)
    case _ => None
  }

  function CategoryId(category: string): Option<int>
  {
    match category
    case "DRINK" => Some(1)
    case "ALCOHOL" => Some(2)
    case "SNACK" => Some(3)
    case "ICE CREAM" => Some(4)
    case "CUP NOODLE" => Some(5)
    case "LUNCH BOX" => Some(6)
    case "SALAD" => Some(7)
    case "KIMBAP" => Some(8)
    case "SANDWICH" => Some(9)
    case "BREAD" => Some(10)
    case "FOOD" => Some(11)
    case "HOUSEHOLD GOODS" => Some(12)
    case _ => None
  }

  /** A table lookup after normalisation; the error carries the normalised
      name its message reports. */
  function Lookup(table: string -> Option<int>, name: string): (r: Result<int, Exc>)
    ensures r.Ok? <==> table(Normalize(name)).Some?
    ensures r.Ok? ==> r.value == table(Normalize(name)).value
    ensures r.Err? ==> r == Err(ValueError(Normalize(name)))
  {
    var key := Normalize(name);
    match table(key)
    case Some(id) => Ok(id)
    case None => Err(ValueError(key))
  }

  function ConvertEvent(event: string): Result<int, Exc> { Lookup(EventId, event) }

  function ConvertBrand(brand: string): Result<int, Exc> { Lookup(BrandId, brand) }

  function ConvertCategory(category: string): Result<int, Exc> { Lookup(CategoryId, category) }

  // ----- properties of the tables -----

  /** The names of each table, in listed order: the name at position i has
      id i + 1. */
  const EventNames: seq<string> := ["1+1", "2+1", "GIFT", "NEW", "MONOPOLY", "RESERVATION", "DISCOUNT"]
  const BrandNames: seq<string> := ["GS25", "CU", "SEVEN ELEVEN"]
  const CategoryNames: seq<string> :=
    ["DRINK", "ALCOHOL", "SNACK", "ICE CREAM", "CUP NOODLE", "LUNCH BOX",
     "SALAD", "KIMBAP", "SANDWICH", "BREAD", "FOOD", "HOUSEHOLD GOODS"]

  /** The tables on normal forms: exactly the listed names, numbered in order. */
  lemma EventIdIsListed(key: string)
    ensures EventId(key).Some? <==> key in EventNames
    ensures forall i :: 0 <= i < |EventNames| ==> EventId(EventNames[i]) == Some(i + 1)
  {
  }

  lemma BrandIdIsListed(key: string)
    ensures BrandId(key).Some? <==> key in BrandNames
    ensures forall i :: 0 <= i < |BrandNames| ==> BrandId(BrandNames[i]) == Some(i + 1)
  {
  }

  lemma CategoryIdIsListed(key: string)
    ensures CategoryId(key).Some? <==> key in CategoryNames
    ensures forall i :: 0 <= i < |CategoryNames| ==> CategoryId(CategoryNames[i]) == Some(i + 1)
  {
  }

  /** A name without lower-case letters or surrounding blanks is its own
      normal form. */
  lemma NormalFixed(s: string)
    requires IsUpper(s) && s != [] && !IsSpace(s[0]) && !IsSpace(s[|s| - 1])
    ensures Normalize(s) == s
  {
    UpperOfUpper(s);
    StripOfStripped(s);
  }

  /** Every listed name is its own normal form. */
  lemma EventNamesNormal()
    ensures forall i :: 0 <= i < |EventNames| ==> Normalize(EventNames[i]) == EventNames[i]
  {
    forall i | 0 <= i < |EventNames| ensures Normalize(EventNames[i]) == EventNames[i] {
      NormalFixed(EventNames[i]);
    }
  }

  lemma BrandNamesNormal()
    ensures forall i :: 0 <= i < |BrandNames| ==> Normalize(BrandNames[i]) == BrandNames[i]
  {
    forall i | 0 <= i < |BrandNames| ensures Normalize(BrandNames[i]) == BrandNames[i] {
      NormalFixed(BrandNames[i]);
    }
  }

  lemma CategoryNamesNormal()
    ensures forall i :: 0 <= i < |CategoryNames| ==> Normalize(CategoryNames[i]) == CategoryNames[i]
  {
    forall i | 0 <= i < |CategoryNames| ensures Normalize(CategoryNames[i]) == CategoryNames[i] {
      NormalFixed(CategoryNames[i]);
    }
  }

  /** Each converter accepts exactly the names whose normal form is listed,
      and gives a listed name its position plus one. */
  lemma EventTable(name: string)
    ensures ConvertEvent(name).Ok? <==> Normalize(name) in EventNames
    ensures forall i :: 0 <= i < |EventNames| ==> ConvertEvent(EventNames[i]) == Ok(i + 1)
  {
    EventIdIsListed(Normalize(name));
    EventNamesNormal();
  }

  lemma BrandTable(name: string)
    ensures ConvertBrand(name).Ok? <==> Normalize(name) in BrandNames
    ensures forall i :: 0 <= i < |BrandNames| ==> ConvertBrand(BrandNames[i]) == Ok(i + 1)
  {
    BrandIdIsListed(Normalize(name));
    BrandNamesNormal();
  }

  lemma CategoryTable(name: string)
    ensures ConvertCategory(name).Ok? <==> Normalize(name) in CategoryNames
    ensures forall i :: 0 <= i < |CategoryNames| ==> ConvertCategory(CategoryNames[i]) == Ok(i + 1)
  {
    CategoryIdIsListed(Normalize(name));
    CategoryNamesNormal();
  }

  /** A listed name converts to its position plus one. */
  lemma ListedEvent(i: nat)
    requires i < |EventNames|
    ensures ConvertEvent(EventNames[i]) == Ok(i + 1)
  {
    EventNamesNormal();
    EventIdIsListed(EventNames[i]);
  }

  lemma ListedCategory(i: nat)
    requires i < |CategoryNames|
    ensures ConvertCategory(CategoryNames[i]) == Ok(i + 1)
  {
    CategoryNamesNormal();
    CategoryIdIsListed(CategoryNames[i]);
  }

  /** Lookup happens after normalisation: a name and its normal form give the
      same answer, for every table. */
  lemma LookupNormalizes(table: string -> Option<int>, name: string)
    ensures Lookup(table, name) == Lookup(table, Normalize(name))
  {
    NormalizeIdempotent(name);
  }

  /** The currency table does not normalise: lower case is an error. */
  lemma CurrencyIsExact()
    ensures ConvertCurrency("KRW") == Ok(1)
    ensures ConvertCurrency("krw").Err? && ConvertCurrency(" KRW").Err?
  {
  }

  /** The brands of the cspace and emart24 spiders are not in the brand table. */
  lemma UnknownBrands()
    ensures ConvertBrand("cspace") == Err(ValueError("CSPACE"))
    ensures ConvertBrand("emart24") == Err(ValueError("EMART24"))
  {
    CspaceUnknown();
    Emart24Unknown();
  }

  lemma CspaceUnknown()
    ensures ConvertBrand("cspace") == Err(ValueError("CSPACE"))
  {
    CspaceNormal();
    UnlistedBrand("cspace", "CSPACE");
  }

  lemma Emart24Unknown()
    ensures ConvertBrand("emart24") == Err(ValueError("EMART24"))
  {
    Emart24Normal();
    UnlistedBrand("emart24", "EMART24");
  }

  lemma UnlistedBrand(s: string, n: string)
    requires Normalize(s) == n && n !in BrandNames
    ensures ConvertBrand(s) == Err(ValueError(n))
  {
    BrandIdIsListed(n);
  }

  lemma CspaceNormal()
    ensures Normalize("cspace") == "CSPACE"
  {
    var c := "cspace";
    assert forall k :: 0 <= k < |c| ==> Upper(c)[k] == "CSPACE"[k];
    NormalizedAs(c, "CSPACE");
  }

  lemma Emart24Normal()
    ensures Normalize("emart24") == "EMART24"
  {
    var e := "emart24";
    assert forall k :: 0 <= k < |e| ==> Upper(e)[k] == "EMART24"[k];
    NormalizedAs(e, "EMART24");
  }

  /** `n` is the normal form of `s` when it is `s` in upper case and has no
      surrounding blanks. */
  lemma NormalizedAs(s: string, n: string)
    requires Upper(s) == n && n != [] && !IsSpace(n[0]) && !IsSpace(n[|n| - 1])
    ensures Normalize(s) == n
  {
    StripOfStripped(n);
  }

  /** Different names in one table never share an id, and ids lie in the
      table's range. */
  lemma TablesInjective(a: string, b: string)
    ensures EventId(a).Some? && EventId(a) == EventId(b) ==> a == b
    ensures BrandId(a).Some? && BrandId(a) == BrandId(b) ==> a == b
    ensures CategoryId(a).Some? && CategoryId(a) == CategoryId(b) ==> a == b
    ensures EventId(a).Some? ==> 1 <= EventId(a).value <= 7
    ensures BrandId(a).Some? ==> 1 <= BrandId(a).value <= 3
    ensures CategoryId(a).Some? ==> 1 <= CategoryId(a).value <= 12
  {
  }

  /** So the converters are injective on normal forms, and every id is in range. */
  lemma ConvertersInjective(a: string, b: string)
    ensures ConvertEvent(a).Ok? && ConvertEvent(a) == ConvertEvent(b) ==> Normalize(a) == Normalize(b)
    ensures ConvertBrand(a).Ok? && ConvertBrand(a) == ConvertBrand(b) ==> Normalize(a) == Normalize(b)
    ensures ConvertCategory(a).Ok? && ConvertCategory(a) == ConvertCategory(b) ==> Normalize(a) == Normalize(b)
    ensures ConvertEvent(a).Ok? ==> 1 <= ConvertEvent(a).value <= 7
    ensures ConvertBrand(a).Ok? ==> 1 <= ConvertBrand(a).value <= 3
    ensures ConvertCategory(a).Ok? ==> 1 <= ConvertCategory(a).value <= 12
  {
    TablesInjective(Normalize(a), Normalize(b));
  }
}
