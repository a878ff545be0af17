/** The two catalog lookups of the vacation planner's tool set:
    `find_hotels` (hotels of a city within a nightly budget) and
    `suggest_activities` (activities of a city matching the traveller's
    interests). Both look the city up case-insensitively in a fixed catalog
    and answer with a success value or one of two distinct errors. */
module VacationTools {
  import opened Strings

  /** Which failing branch of a tool produced an error. The tools report it
      only through the wording of the message; `HotelMessagesTellKinds` and
      `ActivityMessagesTellKinds` show that the wording determines it. */
  datatype ErrorKind =
    | UnknownCity   // the lower-cased city is not a catalog key
    | NoneMatched   // the city is known but nothing fits the request

  /** The `{"status": ..., ...}` dictionary a tool returns. */
  datatype ToolResult<T> = Success(value: T) | Error(kind: ErrorKind, message: string)

  /** One `{"name": ..., "price": ...}` record of the hotel catalog. */
  datatype Hotel = Hotel(name: string, price: int)

  /** The cities both catalogs cover, by their lower-case keys. */
  const KnownCities: set<string> := {"paris", "london", "tokyo"}

  /** The `hotels` table of `find_hotels`: three records per city, in this order. */
  function HotelCatalog(): (r: map<string, seq<Hotel>>)
    ensures r.Keys == KnownCities
    ensures forall c :: c in r ==> |r[c]| == 3
  {
    map[
      "paris" := [Hotel("Hotel de Louvre", 450), Hotel("Chic Parisian Flat", 250), Hotel("Budget Inn Paris", 120)],
      "london" := [Hotel("The Savoy", 800), Hotel("London Marriott Hotel", 350), Hotel("St. Giles London", 150)],
      "tokyo" := [Hotel("Park Hyatt Tokyo", 750), Hotel("Shinjuku Granbell Hotel", 200), Hotel("APA Hotel Shinjuku", 90)]
    ]
  }

  /** The `activities` table of `suggest_activities`: interest tag to
      description, per city. Every city has a "food" tag. */
  function ActivityCatalog(): (r: map<string, map<string, string>>)
    ensures r.Keys == KnownCities
    ensures forall c :: c in r ==> "food" in r[c]
  {
    map[
      "paris" := map["museum" := "Visit the Louvre Museum.", "food" := "Take a food tour in Le Marais.", "history" := "Explore the Palace of Versailles."],
      "london" := map["history" := "Tour the Tower of London.", "art" := "Visit the Tate Modern art gallery.", "food" := "Enjoy afternoon tea at The Ritz."],
      "tokyo" := map["technology" := "Visit Akihabara.", "food" := "Explore the Tsukiji Outer Market.", "culture" := "Visit the Senso-ji Temple."]
    ]
  }

  // ---------------------------------------------------------------------
  // Order-preserving selection
  // ---------------------------------------------------------------------

  /** `r` can be obtained from `s` by deleting elements, keeping the order
      of the rest. */
  predicate IsSubseq<T(==)>(r: seq<T>, s: seq<T>)
  {
    if r == [] then true
    else if s == [] then false
    else (r[0] == s[0] && IsSubseq(r[1..], s[1..])) || IsSubseq(r, s[1..])
  }

  /** How many records of `hs` cost at most `maxPrice`. */
  function CountWithin(hs: seq<Hotel>, maxPrice: int): nat
  {
    if hs == [] then 0
    else (if hs[0].price <= maxPrice then 1 else 0) + CountWithin(hs[1..], maxPrice)
  }

  /** The records of `hs` whose price is at most `maxPrice`, kept in the
      order of `hs`: none added, none dropped, none reordered. */
  function WithinBudget(hs: seq<Hotel>, maxPrice: int): (r: seq<Hotel>)
    ensures IsSubseq(r, hs)
    ensures forall h :: h in r ==> h in hs && h.price <= maxPrice
    ensures forall h :: h in hs && h.price <= maxPrice ==> h in r
    ensures |r| == CountWithin(hs, maxPrice)
  {
    if hs == [] then []
    else if hs[0].price <= maxPrice then [hs[0]] + WithinBudget(hs[1..], maxPrice)
    else WithinBudget(hs[1..], maxPrice)
  }

  /** Nothing is affordable exactly when every record costs more than the budget. */
  lemma WithinBudgetEmpty(hs: seq<Hotel>, maxPrice: int)
    ensures WithinBudget(hs, maxPrice) == [] <==> forall h :: h in hs ==> maxPrice < h.price
  {
    var r := WithinBudget(hs, maxPrice);
    if r != [] {
      assert r[0] in r;
    }
  }

  /** An order-preserving selection of affordable records never has more
      elements than there are affordable records. */
  lemma {:induction false} AffordableSubseqBound(r: seq<Hotel>, hs: seq<Hotel>, maxPrice: int)
    requires IsSubseq(r, hs)
    requires forall h :: h in r ==> h.price <= maxPrice
    ensures |r| <= CountWithin(hs, maxPrice)
  {
    if r != [] {
      if r[0] == hs[0] && IsSubseq(r[1..], hs[1..]) {
        AffordableSubseqBound(r[1..], hs[1..], maxPrice);
      } else {
        AffordableSubseqBound(r, hs[1..], maxPrice);
      }
    }
  }

  /** `WithinBudget` is the only order-preserving selection of affordable
      records that has all of them: the three properties in its contract
      pin the result down. */
  lemma {:induction false} WithinBudgetUnique(r: seq<Hotel>, hs: seq<Hotel>, maxPrice: int)
    requires IsSubseq(r, hs)
    requires forall h :: h in r ==> h.price <= maxPrice
    requires |r| == CountWithin(hs, maxPrice)
    ensures r == WithinBudget(hs, maxPrice)
  {
    if hs == [] {
    } else if r == [] {
      assert CountWithin(hs[1..], maxPrice) == 0;
      WithinBudgetUnique(r, hs[1..], maxPrice);
    } else if r[0] == hs[0] && IsSubseq(r[1..], hs[1..]) {
      assert r[0] in r;
      WithinBudgetUnique(r[1..], hs[1..], maxPrice);
      assert r == [r[0]] + r[1..];
    } else {
      AffordableSubseqBound(r, hs[1..], maxPrice);
      WithinBudgetUnique(r, hs[1..], maxPrice);
    }
  }

  /** A larger budget keeps every record a smaller one kept, in order. */
  lemma {:induction false} WithinBudgetMonotone(hs: seq<Hotel>, lo: int, hi: int)
    requires lo <= hi
    ensures IsSubseq(WithinBudget(hs, lo), WithinBudget(hs, hi))
  {
    if hs != [] {
      WithinBudgetMonotone(hs[1..], lo, hi);
      var small, large := WithinBudget(hs, lo), WithinBudget(hs, hi);
      if hs[0].price <= lo {
        assert small[1..] == WithinBudget(hs[1..], lo);
        assert large[1..] == WithinBudget(hs[1..], hi);
      } else if hs[0].price <= hi {
        assert large[1..] == WithinBudget(hs[1..], hi);
      }
    }
  }

  /** The middle part of a three-part text is found again by position. */
  lemma Echoed(lead: string, middle: string, tail: string)
    ensures (lead + middle + tail)[|lead|..|lead| + |middle|] == middle
  {
  }

  // ---------------------------------------------------------------------
  // find_hotels
  // ---------------------------------------------------------------------

  /** The "unknown city" message of `find_hotels`; it echoes the caller's
      city, in title case, after a fixed 36-character lead. */
  function HotelsUnavailableMessage(city: string): (r: string)
    ensures |r| == 37 + |city|
    ensures r[..36] == "Hotel information not available for " && r[36..36 + |city|] == Title(city)
    ensures Lower(r[36..36 + |city|]) == Lower(city)
    ensures r[|r| - 1] == '.'
  {
    Echoed("Hotel information not available for ", Title(city), ".");
    "Hotel information not available for " + Title(city) + "."
  }

  /** The "no hotels" message of `find_hotels`; it echoes the caller's city,
      in title case, after a fixed 19-character lead, then the budget. */
  function NoHotelsMessage(city: string, maxPrice: int): (r: string)
    ensures |r| == 28 + |city| + |Decimal(maxPrice)|
    ensures r[..19] == "No hotels found in " && r[19..19 + |city|] == Title(city)
    ensures Lower(r[19..19 + |city|]) == Lower(city)
    ensures r[19 + |city|..] == " under $" + Decimal(maxPrice) + "."
    ensures r[|r| - 1] == '.'
  {
    var tail := " under $" + Decimal(maxPrice) + ".";
    Echoed("No hotels found in ", Title(city), tail);
    "No hotels found in " + Title(city) + tail
  }

  /** `find_hotels(city, max_price=500)`. */
  function FindHotels(city: string, maxPrice: int := 500): (r: ToolResult<seq<Hotel>>)
    ensures r.Error? && r.kind == UnknownCity <==> Lower(city) !in KnownCities
    ensures r.Error? && r.kind == NoneMatched <==>
      Lower(city) in HotelCatalog() && forall h :: h in HotelCatalog()[Lower(city)] ==> maxPrice < h.price
    ensures r.Error? ==>
      r.message == if r.kind == UnknownCity then HotelsUnavailableMessage(city) else NoHotelsMessage(city, maxPrice)
    ensures r.Success? ==>
      && Lower(city) in HotelCatalog()
      && r.value != []
      && IsSubseq(r.value, HotelCatalog()[Lower(city)])
      && (forall h :: h in r.value <==> h in HotelCatalog()[Lower(city)] && h.price <= maxPrice)
      && |r.value| == CountWithin(HotelCatalog()[Lower(city)], maxPrice)
  {
    var key := Lower(city);
    if key in HotelCatalog() then
      var available := WithinBudget(HotelCatalog()[key], maxPrice);
      WithinBudgetEmpty(HotelCatalog()[key], maxPrice);
      if available == [] then Error(NoneMatched, NoHotelsMessage(city, maxPrice))
      else Success(available)
    else
      Error(UnknownCity, HotelsUnavailableMessage(city))
  }

  /** On success the list is exactly the catalog's affordable records in
      catalog order: any order-preserving selection of affordable records
      of that city's catalog that has all of them is this list. */
  lemma FindHotelsExact(city: string, maxPrice: int, r: seq<Hotel>)
    requires Lower(city) in HotelCatalog()
    requires IsSubseq(r, HotelCatalog()[Lower(city)])
    requires forall h :: h in r ==> h.price <= maxPrice
    requires |r| == CountWithin(HotelCatalog()[Lower(city)], maxPrice)
    requires r != []
    ensures FindHotels(city, maxPrice) == Success(r)
  {
    WithinBudgetUnique(r, HotelCatalog()[Lower(city)], maxPrice);
  }

  /** Raising the budget never loses a hotel: a success stays a success and
      keeps every hotel it had, in the same order. */
  lemma FindHotelsMonotone(city: string, lo: int, hi: int)
    requires lo <= hi
    ensures FindHotels(city, lo).Success? ==>
      FindHotels(city, hi).Success? &&
      IsSubseq(FindHotels(city, lo).value, FindHotels(city, hi).value)
  {
    if FindHotels(city, lo).Success? {
      WithinBudgetMonotone(HotelCatalog()[Lower(city)], lo, hi);
    }
  }

  /** The city matters only through its lower-case form, error text included. */
  lemma FindHotelsIgnoresCase(a: string, b: string, maxPrice: int)
    requires Lower(a) == Lower(b)
    ensures FindHotels(a, maxPrice) == FindHotels(b, maxPrice)
  {
    TitleSameLower(a, b);
  }

  /** The two error messages of `find_hotels` never coincide, so the text
      alone tells which branch failed. */
  lemma HotelMessagesTellKinds(city: string, other: string, maxPrice: int)
    ensures HotelsUnavailableMessage(city) != NoHotelsMessage(other, maxPrice)
  {
    assert HotelsUnavailableMessage(city)[0] == 'H';
    assert NoHotelsMessage(other, maxPrice)[0] == 'N';
  }

  /** The budget in the "no hotels" message reads back as the budget asked for. */
  lemma NoHotelsMessageBudget(city: string, maxPrice: int)
    ensures var m := NoHotelsMessage(city, maxPrice);
      var prefix := "No hotels found in " + Title(city) + " under $";
      && |prefix| < |m|
      && ParseDecimal(m[|prefix|..|m| - 1]) == maxPrice
  {
    var prefix := "No hotels found in " + Title(city) + " under $";
    assert NoHotelsMessage(city, maxPrice)[|prefix|..|NoHotelsMessage(city, maxPrice)| - 1] == Decimal(maxPrice);
    DecimalRoundTrip(maxPrice);
  }

  // ---------------------------------------------------------------------
  // suggest_activities
  // ---------------------------------------------------------------------

  /** For each interest in turn whose lower-case form is a tag, that tag's
      description: one per matching interest, in the caller's order, repeats
      kept; interests that match no tag contribute nothing. */
  function Suggestions(tags: map<string, string>, interests: seq<string>): (r: seq<string>)
    ensures |r| <= |interests|
    ensures forall d :: d in r ==> d in tags.Values
    ensures r == [] <==> forall i :: 0 <= i < |interests| ==> Lower(interests[i]) !in tags
  {
    if interests == [] then []
    else
      var tag := Lower(interests[0]);
      (if tag in tags then [tags[tag]] else []) + Suggestions(tags, interests[1..])
  }

  /** Suggesting for two lists of interests one after the other is suggesting
      for their concatenation. */
  lemma {:induction false} SuggestionsAppend(tags: map<string, string>, a: seq<string>, b: seq<string>)
    ensures Suggestions(tags, a + b) == Suggestions(tags, a) + Suggestions(tags, b)
  {
    if a == [] {
      assert a + b == b;
    } else {
      assert (a + b)[0] == a[0];
      assert (a + b)[1..] == a[1..] + b;
      SuggestionsAppend(tags, a[1..], b);
    }
  }

  /** Input order is kept: the description for the interest at index `i`
      comes right after the descriptions for the interests before it. */
  lemma SuggestionAt(tags: map<string, string>, interests: seq<string>, i: nat)
    requires i < |interests|
    requires Lower(interests[i]) in tags
    ensures var k := |Suggestions(tags, interests[..i])|;
      k < |Suggestions(tags, interests)| &&
      Suggestions(tags, interests)[k] == tags[Lower(interests[i])]
  {
    assert interests == interests[..i] + ([interests[i]] + interests[i + 1..]);
    SuggestionsAppend(tags, interests[..i], [interests[i]] + interests[i + 1..]);
    SuggestionsAppend(tags, [interests[i]], interests[i + 1..]);
  }

  /** Interests matter only through their lower-case forms. */
  lemma {:induction false} SuggestionsIgnoreCase(tags: map<string, string>, xs: seq<string>, ys: seq<string>)
    requires |xs| == |ys|
    requires forall i :: 0 <= i < |xs| ==> Lower(xs[i]) == Lower(ys[i])
    ensures Suggestions(tags, xs) == Suggestions(tags, ys)
  {
    if xs != [] {
      SuggestionsIgnoreCase(tags, xs[1..], ys[1..]);
    }
  }

  /** The "unknown city" message of `suggest_activities`; it echoes the
      caller's city, in title case, after a fixed 39-character lead. */
  function ActivitiesUnavailableMessage(city: string): (r: string)
    ensures |r| == 40 + |city|
    ensures r[..39] == "Activity information not available for " && r[39..39 + |city|] == Title(city)
    ensures Lower(r[39..39 + |city|]) == Lower(city)
    ensures r[|r| - 1] == '.'
  {
    Echoed("Activity information not available for ", Title(city), ".");
    "Activity information not available for " + Title(city) + "."
  }

  /** The "no activities" message of `suggest_activities`; it echoes the
      caller's city, in title case, after a fixed 47-character lead. */
  function NoActivitiesMessage(city: string): (r: string)
    ensures |r| == 48 + |city|
    ensures r[..47] == "Couldn't find activities for your interests in " && r[47..47 + |city|] == Title(city)
    ensures Lower(r[47..47 + |city|]) == Lower(city)
    ensures r[|r| - 1] == '.'
  {
    Echoed("Couldn't find activities for your interests in ", Title(city), ".");
    "Couldn't find activities for your interests in " + Title(city) + "."
  }

  /** `suggest_activities(city, interests)`. */
  function SuggestActivities(city: string, interests: seq<string>): (r: ToolResult<seq<string>>)
    ensures r.Error? && r.kind == UnknownCity <==> Lower(city) !in KnownCities
    ensures r.Error? && r.kind == NoneMatched <==>
      Lower(city) in ActivityCatalog() &&
      forall i :: 0 <= i < |interests| ==> Lower(interests[i]) !in ActivityCatalog()[Lower(city)]
    ensures r.Error? ==>
      r.message == if r.kind == UnknownCity then ActivitiesUnavailableMessage(city) else NoActivitiesMessage(city)
    ensures r.Success? ==>
      && Lower(city) in ActivityCatalog()
      && 0 < |r.value| <= |interests|
      && r.value == Suggestions(ActivityCatalog()[Lower(city)], interests)
  {
    var key := Lower(city);
    if key in ActivityCatalog() then
      var suggestions := Suggestions(ActivityCatalog()[key], interests);
      if suggestions == [] then Error(NoneMatched, NoActivitiesMessage(city))
      else Success(suggestions)
    else
      Error(UnknownCity, ActivitiesUnavailableMessage(city))
  }

  /** The city matters only through its lower-case form, error text included. */
  lemma SuggestActivitiesIgnoresCase(a: string, b: string, interests: seq<string>)
    requires Lower(a) == Lower(b)
    ensures SuggestActivities(a, interests) == SuggestActivities(b, interests)
  {
    TitleSameLower(a, b);
  }

  /** The two error messages of `suggest_activities` never coincide. */
  lemma ActivityMessagesTellKinds(city: string, other: string)
    ensures ActivitiesUnavailableMessage(city) != NoActivitiesMessage(other)
  {
    // "Activity info..." and "Couldn't find..." differ at index 12.
    assert ActivitiesUnavailableMessage(city)[12] == 'o';
    assert NoActivitiesMessage(other)[12] == 'd';
  }

  /** Any city with an empty list of interests is either unknown or
      "no activities". */
  lemma NoInterestsNoActivities(city: string)
    ensures SuggestActivities(city, []).Error?
  {
  }
}
