/** Concrete calls of the two tools, worked out against the fixed catalogs. */
module Scenarios {
  import opened Strings
  import opened VacationTools

  /** Of Tokyo's hotels only the APA Hotel Shinjuku costs at most 100. */
  lemma TokyoUnder100()
    ensures FindHotels("Tokyo", 100) == Success([Hotel("APA Hotel Shinjuku", 90)])
  {
    assert Lower("Tokyo") == "tokyo";
    var hs := HotelCatalog()["tokyo"];
    assert WithinBudget(hs[2..], 100) == [Hotel("APA Hotel Shinjuku", 90)];
    assert WithinBudget(hs, 100) == [Hotel("APA Hotel Shinjuku", 90)];
  }

  /** The default budget of 500 leaves out The Savoy at 800. */
  lemma LondonDefaultBudget()
    ensures FindHotels("London") ==
      Success([Hotel("London Marriott Hotel", 350), Hotel("St. Giles London", 150)])
  {
    assert Lower("London") == "london";
    var hs := HotelCatalog()["london"];
    assert WithinBudget(hs[1..], 500) == hs[1..];
  }

  /** Shouting the city changes nothing. */
  lemma ParisShouted()
    ensures FindHotels("PARIS", 300) == FindHotels("paris", 300)
      == Success([Hotel("Chic Parisian Flat", 250), Hotel("Budget Inn Paris", 120)])
  {
    ShoutedParisLowers();
    FindHotelsIgnoresCase("PARIS", "paris", 300);
    ParisUnder300();
  }

  lemma ShoutedParisLowers()
    ensures Lower("PARIS") == Lower("paris") == "paris"
  {
    LowerOfLowerCase("paris");
    assert Lower("PARIS") == "paris";
  }

  lemma ParisUnder300()
    ensures FindHotels("paris", 300) ==
      Success([Hotel("Chic Parisian Flat", 250), Hotel("Budget Inn Paris", 120)])
  {
    LowerOfLowerCase("paris");
    var hs := HotelCatalog()["paris"];
    assert WithinBudget(hs[1..], 300) == hs[1..];
  }

  /** A known city with nothing in budget is the "no hotels" error, naming
      the city title-cased and the budget. */
  lemma ParisUnder100()
    ensures FindHotels("paris", 100) ==
      Error(NoneMatched, "No hotels found in " + "Paris" + " under $" + "100" + ".")
  {
    ParisNothingUnder100();
    ParisNoHotelsMessage();
  }

  lemma ParisNothingUnder100()
    ensures FindHotels("paris", 100) == Error(NoneMatched, NoHotelsMessage("paris", 100))
  {
    LowerOfLowerCase("paris");
    var hs := HotelCatalog()["paris"];
    assert WithinBudget(hs[2..], 100) == [];
    assert WithinBudget(hs[1..], 100) == [];
  }

  lemma ParisNoHotelsMessage()
    ensures NoHotelsMessage("paris", 100) == "No hotels found in " + "Paris" + " under $" + "100" + "."
  {
    ParisTitled();
    Hundred();
  }

  lemma ParisTitled()
    ensures Title("paris") == "Paris"
  {
    TitleOfLowerWord("paris");
  }

  lemma Hundred()
    ensures Decimal(100) == "100"
  {
    assert NatDigits(1) == "1";
    assert NatDigits(10) == "10";
  }

  /** An unknown city is named, title-cased, in the message. */
  lemma AtlantisHotels()
    ensures FindHotels("atlantis") ==
      Error(UnknownCity, "Hotel information not available for " + "Atlantis" + ".")
  {
    AtlantisUnknownForHotels();
    AtlantisHotelsMessage();
  }

  lemma AtlantisUnknownForHotels()
    ensures FindHotels("atlantis") == Error(UnknownCity, HotelsUnavailableMessage("atlantis"))
  {
    LowerOfLowerCase("atlantis");
  }

  lemma AtlantisHotelsMessage()
    ensures HotelsUnavailableMessage("atlantis") == "Hotel information not available for " + "Atlantis" + "."
  {
    AtlantisTitled();
  }

  /** "cuisine" is not a London tag and is dropped; the others keep their order. */
  lemma LondonHistoryArtCuisine()
    ensures SuggestActivities("London", ["history", "art", "cuisine"]) ==
      Success(["Tour the Tower of London.", "Visit the Tate Modern art gallery."])
  {
    assert Lower("London") == "london";
    var tags := ActivityCatalog()["london"];
    var interests := ["history", "art", "cuisine"];
    LowerOfLowerCase("history");
    LowerOfLowerCase("art");
    LowerOfLowerCase("cuisine");
    assert interests[1..] == ["art", "cuisine"];
    assert interests[1..][1..] == ["cuisine"];
    assert Suggestions(tags, interests) ==
      ["Tour the Tower of London.", "Visit the Tate Modern art gallery."];
  }

  /** A repeated interest gives its description twice, whatever its case. */
  lemma TokyoFoodTwice()
    ensures SuggestActivities("tokyo", ["Food", "FOOD"]) ==
      Success(["Explore the Tsukiji Outer Market.", "Explore the Tsukiji Outer Market."])
  {
    LowerOfLowerCase("tokyo");
    assert Lower("Food") == "food";
    assert Lower("FOOD") == "food";
    var tags := ActivityCatalog()["tokyo"];
    assert ["Food", "FOOD"][1..] == ["FOOD"];
    assert Suggestions(tags, ["Food", "FOOD"]) ==
      ["Explore the Tsukiji Outer Market.", "Explore the Tsukiji Outer Market."];
  }

  /** An unknown city is named, title-cased, in the message. */
  lemma AtlantisActivities()
    ensures SuggestActivities("atlantis", ["food"]) ==
      Error(UnknownCity, "Activity information not available for " + "Atlantis" + ".")
  {
    AtlantisUnknownForActivities();
    AtlantisTitled();
  }

  lemma AtlantisUnknownForActivities()
    ensures SuggestActivities("atlantis", ["food"]) == Error(UnknownCity, ActivitiesUnavailableMessage("atlantis"))
  {
    LowerOfLowerCase("atlantis");
  }

  lemma AtlantisTitled()
    ensures Title("atlantis") == "Atlantis"
  {
    TitleOfLowerWord("atlantis");
  }
}
