/** What the row score promises, stated over the specification functions of
    RowScore: bounds, the zero fallback, when the score is exactly 0 or 1,
    independence of the applicable total from the maid's columns, and the
    behaviour of each dimension's refusal test on the values it is meant for. */
module ScoreProperties {
  import opened PyStrings
  import opened RowScore

  // ---------------------------------------------------------------------
  // The score as a whole.
  // ---------------------------------------------------------------------

  /** The score always lies in [0, 1]. */
  lemma ScoreInUnit(row: Row)
    requires MaidColumnsPresent(row)
    ensures 0.0 <= ExpectedScore(row) <= 1.0
  {
    CreditedWithinApplicable(Verdicts(row));
    RatioInUnit(CreditedCount(Verdicts(row)), ApplicableCount(Verdicts(row)));
  }

  /** No dimension applies exactly when every client column is absent, empty
      or its sentinel; then the score falls back to 0. */
  lemma ZeroFallback(row: Row)
    requires MaidColumnsPresent(row)
    ensures ApplicableCount(Verdicts(row)) == 0
            <==> !HouseholdApplies(row) && !PetsApplies(row) && !LivingApplies(row) && !CuisineApplies(row)
    ensures ApplicableCount(Verdicts(row)) == 0 ==> ExpectedScore(row) == 0.0
  {
    CountsOfFour(Verdicts(row));
  }

  /** Nothing is counted as credited unless an outcome is Credited. */
  lemma {:induction false} NoCreditIffNoneCredited(vs: seq<Verdict>)
    ensures CreditedCount(vs) == 0 <==> Credited !in vs
    decreases |vs|
  {
    if vs != [] {
      NoCreditIffNoneCredited(vs[1..]);
      assert vs == [vs[0]] + vs[1..];
    }
  }

  /** Credit reaches the applicable total exactly when nothing was denied. */
  lemma {:induction false} FullCreditIffNoneDenied(vs: seq<Verdict>)
    ensures CreditedCount(vs) == ApplicableCount(vs) <==> Denied !in vs
    decreases |vs|
  {
    if vs != [] {
      FullCreditIffNoneDenied(vs[1..]);
      CreditedWithinApplicable(vs[1..]);
      assert vs == [vs[0]] + vs[1..];
    }
  }

  /** The score is 0 exactly when no dimension was credited (whether or not
      any applied). */
  lemma ScoreZeroIff(row: Row)
    requires MaidColumnsPresent(row)
    ensures ExpectedScore(row) == 0.0 <==> Credited !in Verdicts(row)
  {
    var vs := Verdicts(row);
    NoCreditIffNoneCredited(vs);
    CreditedWithinApplicable(vs);
    var k, n := CreditedCount(vs), ApplicableCount(vs);
    if n > 0 && k > 0 {
      assert k as real / n as real > 0.0;
    }
  }

  /** The score is 1 exactly when some dimension applied and none was denied. */
  lemma ScoreOneIff(row: Row)
    requires MaidColumnsPresent(row)
    ensures ExpectedScore(row) == 1.0 <==> ApplicableCount(Verdicts(row)) > 0 && Denied !in Verdicts(row)
  {
    var vs := Verdicts(row);
    FullCreditIffNoneDenied(vs);
    CreditedWithinApplicable(vs);
    var k, n := CreditedCount(vs), ApplicableCount(vs);
    if n > 0 && k < n {
      assert k as real < n as real;
      assert k as real / n as real < 1.0;
    }
  }

  /** Two rows agree on the four client columns. */
  predicate SameClient(r1: Row, r2: Row) {
    forall k :: k in {ClientHousehold, ClientPets, ClientLiving, ClientCuisine} ==>
      (k in r1 <==> k in r2) && (k in r1 ==> r1[k] == r2[k])
  }

  /** Which dimensions apply, and so the denominator of the score, depends on
      the client's columns only, never on the maid's. */
  lemma ApplicabilityIgnoresMaid(r1: Row, r2: Row)
    requires MaidColumnsPresent(r1) && MaidColumnsPresent(r2)
    requires SameClient(r1, r2)
    ensures ApplicableCount(Verdicts(r1)) == ApplicableCount(Verdicts(r2))
  {
    assert ClientHousehold in {ClientHousehold, ClientPets, ClientLiving, ClientCuisine};
    assert ClientPets in {ClientHousehold, ClientPets, ClientLiving, ClientCuisine};
    assert ClientLiving in {ClientHousehold, ClientPets, ClientLiving, ClientCuisine};
    assert ClientCuisine in {ClientHousehold, ClientPets, ClientLiving, ClientCuisine};
    CountsOfFour(Verdicts(r1));
    CountsOfFour(Verdicts(r2));
  }

  /** An explanation's mark identifies the outcome: it cannot carry the marks
      of two different outcomes. */
  lemma MarkIdentifiesVerdict(reason: string, v: Verdict, w: Verdict)
    requires Tagged(reason, v) && Tagged(reason, w)
    ensures v == w
  {
  }

  // ---------------------------------------------------------------------
  // Household.
  // ---------------------------------------------------------------------

  /** A maid who refuses exactly the client's household type is refused:
      "refuses_" followed by the type loses its prefix and matches. */
  lemma RefusesOwnHouseholdType(client: string)
    requires !Contains(client, "refuses_")
    ensures HouseholdRefused(client, "refuses_" + client)
  {
    RemoveLeading("refuses_", client);
    RemoveAbsent(client, "refuses_");
    assert ("refuses_" + client)[0] == 'r';
  }

  /** A household refusal holds only when the deletion leaves the client's
      value exactly: a maid column listing several refusals joined by "+"
      (say "refuses_baby+refuses_elderly") refuses no client value without a
      "+", so such a maid is credited for a "baby" household. */
  lemma CompositeRefusalNotRecognised(client: string, maid: string)
    requires '+' in maid && '+' !in client
    ensures !HouseholdRefused(client, maid)
  {
    RemoveKeepsOtherChars(maid, "refuses_", '+');
  }

  // ---------------------------------------------------------------------
  // Pets.
  // ---------------------------------------------------------------------

  /** A maid who refuses cats is refused by a cat household ... */
  lemma CatRefusalDeniesCat()
    ensures PetsRefused("cat", "refuses_cat")
  {
    assert StartsWith("refuses_cat", "refuses_cat");
    assert StartsWith("cat", "cat");
  }

  /** ... while a maid column without a 'd', such as "refuses_cat", refuses
      no dog household: a client whose value does not mention a cat is
      credited. */
  lemma CatRefusalSparesDog(client: string, maid: string)
    requires 'd' !in maid && !Contains(client, "cat")
    ensures !PetsRefused(client, maid)
  {
    NotContainsByChar(maid, "refuses_dog", 'd');
  }

  /** The pet refusal, stated with offsets instead of the scanning `in`: the
      maid is restricted, and "refuses_cat" sits somewhere in the maid's
      column while "cat" sits somewhere in the client's, or the same for dogs. */
  lemma PetsRefusedIffOccurs(client: string, maid: string)
    ensures PetsRefused(client, maid)
            <==> maid != "no_restriction_pets"
                 && (((exists i :: OccursAt(maid, "refuses_cat", i)) && (exists j :: OccursAt(client, "cat", j)))
                     || ((exists i :: OccursAt(maid, "refuses_dog", i)) && (exists j :: OccursAt(client, "dog", j))))
  {
    ContainsIffOccurs(maid, "refuses_cat");
    ContainsIffOccurs(client, "cat");
    ContainsIffOccurs(maid, "refuses_dog");
    ContainsIffOccurs(client, "dog");
  }

  /** The cat refusal is a substring test: "refuses_cat" anywhere in the
      maid's column, among any other conditions, refuses every client whose
      value mentions a cat. */
  lemma CatRefusalFoundAnywhere(client: string, pre: string, post: string)
    requires Contains(client, "cat")
    ensures PetsRefused(client, pre + "refuses_cat" + post)
  {
    ContainsInside(pre, "refuses_cat", post);
    if pre + "refuses_cat" + post == "no_restriction_pets" {
      NotContainsByChar("no_restriction_pets", "refuses_cat", 'f');
    }
  }

  /** The same for dogs. */
  lemma DogRefusalFoundAnywhere(client: string, pre: string, post: string)
    requires Contains(client, "dog")
    ensures PetsRefused(client, pre + "refuses_dog" + post)
  {
    ContainsInside(pre, "refuses_dog", post);
    if pre + "refuses_dog" + post == "no_restriction_pets" {
      NotContainsByChar("no_restriction_pets", "refuses_dog", 'f');
    }
  }

  // ---------------------------------------------------------------------
  // Living arrangement.
  // ---------------------------------------------------------------------

  /** A maid who requires no private room is not refused by a client who
      provides one. (That the private-room branch always credits is part of
      AddLiving's contract.) */
  lemma PrivateRoomNotDenied()
    ensures !LivingRefused("private_room", "requires_no_private_room")
  {
    NotContainsByChar("requires_no_private_room", "refuses_abu_dhabi", 'b');
  }

  /** The Abu Dhabi refusal, stated with offsets: the maid is restricted,
      "refuses_abu_dhabi" sits somewhere in the maid's column and "abu_dhabi"
      somewhere in the client's. */
  lemma LivingRefusedIffOccurs(client: string, maid: string)
    ensures LivingRefused(client, maid)
            <==> maid != "no_restriction_living_arrangement"
                 && (exists i :: OccursAt(maid, "refuses_abu_dhabi", i))
                 && (exists j :: OccursAt(client, "abu_dhabi", j))
  {
    ContainsIffOccurs(maid, "refuses_abu_dhabi");
    ContainsIffOccurs(client, "abu_dhabi");
  }

  /** The Abu Dhabi refusal is a substring test: "refuses_abu_dhabi" anywhere
      in the maid's column, among any other conditions, refuses every client
      whose arrangement mentions "abu_dhabi". Unlike the household test, a
      composite maid column is understood here. */
  lemma AbuDhabiRefusalFoundAnywhere(client: string, pre: string, post: string)
    requires Contains(client, "abu_dhabi")
    ensures LivingRefused(client, pre + "refuses_abu_dhabi" + post)
  {
    ContainsInside(pre, "refuses_abu_dhabi", post);
    if pre + "refuses_abu_dhabi" + post == "no_restriction_living_arrangement" {
      NotContainsByChar("no_restriction_living_arrangement", "refuses_abu_dhabi", 'f');
    }
  }

  // ---------------------------------------------------------------------
  // Cuisine.
  // ---------------------------------------------------------------------

  /** Only the empty string occurs in the empty string. */
  lemma ContainedInEmpty(t: string)
    ensures Contains("", t) <==> t == ""
  {
  }

  /** An absent cooking group scores the same as an empty one. */
  lemma MissingCookingGroupIsEmpty(row: Row)
    requires CookingGroup !in row
    ensures CuisineVerdict(row) == CuisineVerdict(row[CookingGroup := ""])
  {
    assert CookingGroup != ClientCuisine;
  }

  /** With no cooking skills, a cuisine preference is served only when it has
      an empty "+"-separated token (a leading, trailing or doubled "+"); an
      empty token is served by every cooking group. */
  lemma EmptyCookingGroup(preference: string, cooking: string)
    ensures CuisineServed(preference, "") <==> "" in Split(preference, '+')
    ensures "" in Split(preference, '+') ==> CuisineServed(preference, cooking)
  {
    if CuisineServed(preference, "") {
      var t :| t in Split(preference, '+') && Contains("", t);
      ContainedInEmpty(t);
    }
    if "" in Split(preference, '+') {
      assert Contains("", "") && Contains(cooking, "");
    }
  }

  /** Two preferences against two cooking skills: one shared cuisine is enough. */
  lemma SharedCuisineServed()
    ensures CuisineServed("italian+indian", "indian+thai")
  {
    var tokens := ["italian", "indian"];
    assert Join(tokens, '+') == "italian+indian";
    SplitJoin(tokens, '+');
    assert StartsWith("indian+thai", "indian");
    assert "indian" in Split("italian+indian", '+');
  }

  // ---------------------------------------------------------------------
  // Whole rows.
  // ---------------------------------------------------------------------

  /** A baby household without pets: an unrestricted maid scores 1, a maid
      who refuses babies scores 0. */
  lemma BabyHousehold()
    ensures var row := map[ClientHousehold := "baby", ClientPets := "no_pets",
                           MaidHousehold := "no_restriction_household_type"];
            MaidColumnsPresent(row) && ExpectedScore(row) == 1.0
    ensures var row := map[ClientHousehold := "baby", ClientPets := "no_pets",
                           MaidHousehold := "refuses_baby"];
            MaidColumnsPresent(row) && ExpectedScore(row) == 0.0
  {
    var ok := map[ClientHousehold := "baby", ClientPets := "no_pets",
                  MaidHousehold := "no_restriction_household_type"];
    var refusing := map[ClientHousehold := "baby", ClientPets := "no_pets",
                        MaidHousehold := "refuses_baby"];
    CountsOfFour(Verdicts(ok));
    CountsOfFour(Verdicts(refusing));
    assert Verdicts(ok) == [Credited, Neutral, Neutral, Neutral];
    assert "baby" != "" && !Contains("baby", "refuses_");
    RefusesOwnHouseholdType("baby");
    assert Verdicts(refusing) == [Denied, Neutral, Neutral, Neutral];
  }
}
