/** The client/maid matching score of one table row: four dimensions
    (household, pets, living arrangement, cuisine) are checked in a fixed
    order; each one the client states a preference for adds one weight unit to
    the maximum and, unless the maid's column refuses it, to the score; the
    result is score / maximum, or 0 when nothing applied, together with one
    explanation per dimension. */
module RowScore {
  import opened PyStrings

  /** One row of the uploaded table, column name to cell text. */
  type Row = map<string, string>

  // Column names read by the scoring function.
  const ClientHousehold := "clientmts_household_type"
  const MaidHousehold := "maidmts_household_type"
  const ClientPets := "clientmts_pet_type"
  const MaidPets := "maidmts_pet_type"
  const ClientLiving := "clientmts_living_arrangement"
  const MaidLiving := "maidmts_living_arrangement"
  const ClientCuisine := "clientmts_cuisine_preference"
  const CookingGroup := "cooking_group"

  // Keys of the explanation dictionary.
  const HouseholdKey := "Household"
  const PetsKey := "Pets"
  const LivingKey := "Living Arrangement"
  const CuisineKey := "Cuisine"

  // The explanation texts, one per branch.
  const NoRestriction := "Maid has no restriction → ✅"
  const MaidRefuses := "Maid refuses → ❌"
  const CompatibleHousehold := "Compatible household → ✅"
  const NoHouseholdPreference := "No preference → ⚪"
  const CompatiblePets := "Compatible pets → ✅"
  const NoPetsSpecified := "No pets specified → ⚪"
  const RefusesAbuDhabi := "Maid refuses Abu Dhabi → ❌"
  const NoPrivateRoom := "Maid requires no private room, client doesn’t provide one → ✅"
  const ArrangementAcceptable := "Arrangement acceptable → ✅"
  const NoLivingPreference := "No preference → ⚪"
  const CanCook := "Maid can cook requested cuisine → ✅"
  const CannotCook := "Maid cannot cook requested cuisine → ❌"
  const NoCuisineSpecified := "No cuisine specified → ⚪"

  /** Every dimension weighs 0.6, counted here in tenths so that the sums are exact. */
  const Weight := 6

  /** Python truthiness of `row.get(k)`: the column is there and not empty. */
  function Truthy(row: Row, k: string): (b: bool)
    ensures b <==> Get(row, k, "") != ""
  {
    k in row && row[k] != ""
  }

  /** `row.get(k, default)`. */
  function Get(row: Row, k: string, default: string): (r: string)
    ensures k in row ==> r == row[k]
    ensures k !in row ==> r == default
  {
    if k in row then row[k] else default
  }

  /** How one dimension came out for a row. */
  datatype Verdict = Neutral | Credited | Denied {
    /** The mark the explanation of such an outcome ends with. */
    function Mark(): char {
      match this
      case Neutral => '⚪'
      case Credited => '✅'
      case Denied => '❌'
    }
  }

  /** An explanation text carries the mark of `v` as its last character. */
  predicate Tagged(reason: string, v: Verdict) {
    |reason| > 0 && reason[|reason| - 1] == v.Mark()
  }

  /** A dimension is neutral when it does not apply, otherwise denied exactly
      when the maid refuses it. */
  function Judge(applies: bool, refused: bool): Verdict {
    if !applies then Neutral else if refused then Denied else Credited
  }

  // ---------------------------------------------------------------------
  // Specification of each dimension, as conditions on the two cell values.
  // ---------------------------------------------------------------------

  function HouseholdApplies(row: Row): (b: bool)
    ensures b <==> Get(row, ClientHousehold, "") !in {"", "unspecified"}
  {
    Truthy(row, ClientHousehold) && row[ClientHousehold] != "unspecified"
  }

  function PetsApplies(row: Row): (b: bool)
    ensures b <==> Get(row, ClientPets, "") !in {"", "no_pets"}
  {
    Truthy(row, ClientPets) && row[ClientPets] != "no_pets"
  }

  function LivingApplies(row: Row): (b: bool)
    ensures b <==> Get(row, ClientLiving, "") !in {"", "unspecified"}
  {
    Truthy(row, ClientLiving) && row[ClientLiving] != "unspecified"
  }

  function CuisineApplies(row: Row): (b: bool)
    ensures b <==> Get(row, ClientCuisine, "") !in {"", "unspecified"}
  {
    Truthy(row, ClientCuisine) && row[ClientCuisine] != "unspecified"
  }

  /** The maid's column is read (without a default) for every applicable
      dimension but cuisine, so the row must have it. */
  predicate MaidColumnsPresent(row: Row) {
    && (HouseholdApplies(row) ==> MaidHousehold in row)
    && (PetsApplies(row) ==> MaidPets in row)
    && (LivingApplies(row) ==> MaidLiving in row)
  }

  /** The maid refuses the household type: the maid's value is not the
      unrestricted one, and with every "refuses_" deleted it is exactly the
      client's type. */
  function HouseholdRefused(client: string, maid: string): (b: bool)
    ensures b ==> |client| <= |maid|
    ensures b ==> forall c :: c in client ==> c in maid
  {
    maid != "no_restriction_household_type" && Remove(maid, "refuses_") == client
  }

  /** The maid refuses cats and the client's pet value mentions a cat, or the
      same for dogs. */
  function PetsRefused(client: string, maid: string): (b: bool)
    ensures b ==> |maid| >= |"refuses_cat"| && |client| >= |"cat"|
  {
    && maid != "no_restriction_pets"
    && ((Contains(maid, "refuses_cat") && Contains(client, "cat"))
        || (Contains(maid, "refuses_dog") && Contains(client, "dog")))
  }

  /** The only refusal of a living arrangement: Abu Dhabi. */
  function LivingRefused(client: string, maid: string): (b: bool)
    ensures b ==> |maid| >= |"refuses_abu_dhabi"| && |client| >= |"abu_dhabi"|
  {
    && maid != "no_restriction_living_arrangement"
    && Contains(maid, "refuses_abu_dhabi") && Contains(client, "abu_dhabi")
  }

  /** Some "+"-separated token of the client's preference occurs in the maid's
      cooking group. */
  ghost function CuisineServed(preference: string, cooking: string): (b: bool)
    ensures b <==> AnyIn(Split(preference, '+'), cooking)
  {
    AnyInIff(Split(preference, '+'), cooking);
    exists t :: t in Split(preference, '+') && Contains(cooking, t)
  }

  ghost function HouseholdVerdict(row: Row): Verdict
    requires MaidColumnsPresent(row)
  {
    Judge(HouseholdApplies(row),
          HouseholdApplies(row) && HouseholdRefused(row[ClientHousehold], row[MaidHousehold]))
  }

  ghost function PetsVerdict(row: Row): Verdict
    requires MaidColumnsPresent(row)
  {
    Judge(PetsApplies(row), PetsApplies(row) && PetsRefused(row[ClientPets], row[MaidPets]))
  }

  ghost function LivingVerdict(row: Row): Verdict
    requires MaidColumnsPresent(row)
  {
    Judge(LivingApplies(row), LivingApplies(row) && LivingRefused(row[ClientLiving], row[MaidLiving]))
  }

  ghost function CuisineVerdict(row: Row): Verdict {
    Judge(CuisineApplies(row),
          CuisineApplies(row) && !CuisineServed(row[ClientCuisine], Get(row, CookingGroup, "")))
  }

  /** The four outcomes, in the order the dimensions are checked. */
  ghost function Verdicts(row: Row): seq<Verdict>
    requires MaidColumnsPresent(row)
  {
    [HouseholdVerdict(row), PetsVerdict(row), LivingVerdict(row), CuisineVerdict(row)]
  }

  /** 1 for a dimension that applied, else 0. */
  function Applies(v: Verdict): nat {
    if v != Neutral then 1 else 0
  }

  /** 1 for a dimension that was credited, else 0. */
  function Credit(v: Verdict): nat {
    if v == Credited then 1 else 0
  }

  /** Number of dimensions that applied. */
  function ApplicableCount(vs: seq<Verdict>): nat
    decreases |vs|
  {
    if vs == [] then 0 else Applies(vs[0]) + ApplicableCount(vs[1..])
  }

  /** Number of dimensions that were credited. */
  function CreditedCount(vs: seq<Verdict>): nat
    decreases |vs|
  {
    if vs == [] then 0 else Credit(vs[0]) + CreditedCount(vs[1..])
  }

  /** The two counts of four outcomes, written out. */
  lemma CountsOfFour(vs: seq<Verdict>)
    requires |vs| == 4
    ensures ApplicableCount(vs) == Applies(vs[0]) + Applies(vs[1]) + Applies(vs[2]) + Applies(vs[3])
    ensures CreditedCount(vs) == Credit(vs[0]) + Credit(vs[1]) + Credit(vs[2]) + Credit(vs[3])
  {
    var v1 := vs[1..];
    var v2 := v1[1..];
    var v3 := v2[1..];
    assert v3[1..] == [];
    assert ApplicableCount(v3) == Applies(v3[0]);
    assert ApplicableCount(v2) == Applies(v2[0]) + ApplicableCount(v3);
    assert ApplicableCount(v1) == Applies(v1[0]) + ApplicableCount(v2);
    assert ApplicableCount(vs) == Applies(vs[0]) + ApplicableCount(v1);
    assert CreditedCount(v3) == Credit(v3[0]);
    assert CreditedCount(v2) == Credit(v2[0]) + CreditedCount(v3);
    assert CreditedCount(v1) == Credit(v1[0]) + CreditedCount(v2);
    assert CreditedCount(vs) == Credit(vs[0]) + CreditedCount(v1);
  }

  /** k credited out of n applicable, with 0 when nothing applied. */
  function Ratio(k: nat, n: nat): real {
    if n == 0 then 0.0 else k as real / n as real
  }

  /** The score the row deserves: credited dimensions over applicable ones. */
  ghost function ExpectedScore(row: Row): real
    requires MaidColumnsPresent(row)
  {
    Ratio(CreditedCount(Verdicts(row)), ApplicableCount(Verdicts(row)))
  }

  // ---------------------------------------------------------------------
  // The scoring function itself.
  // ---------------------------------------------------------------------

  /** The explanation a dimension's outcome calls for, per branch of the check. */
  ghost function HouseholdReason(row: Row): string
    requires MaidColumnsPresent(row)
  {
    match HouseholdVerdict(row)
    case Neutral => NoHouseholdPreference
    case Denied => MaidRefuses
    case Credited =>
      if row[MaidHousehold] == "no_restriction_household_type" then NoRestriction
      else CompatibleHousehold
  }

  ghost function PetsReason(row: Row): string
    requires MaidColumnsPresent(row)
  {
    match PetsVerdict(row)
    case Neutral => NoPetsSpecified
    case Denied => MaidRefuses
    case Credited => if row[MaidPets] == "no_restriction_pets" then NoRestriction else CompatiblePets
  }

  ghost function LivingReason(row: Row): string
    requires MaidColumnsPresent(row)
  {
    match LivingVerdict(row)
    case Neutral => NoLivingPreference
    case Denied => RefusesAbuDhabi
    case Credited =>
      if row[MaidLiving] == "no_restriction_living_arrangement" then NoRestriction
      else if Contains(row[MaidLiving], "requires_no_private_room")
              && !Contains(row[ClientLiving], "private_room") then NoPrivateRoom
      else ArrangementAcceptable
  }

  ghost function CuisineReason(row: Row): string {
    match CuisineVerdict(row)
    case Neutral => NoCuisineSpecified
    case Denied => CannotCook
    case Credited => CanCook
  }

  /** The household block: adds the dimension's weight to the maximum when it
      applies, to the score when it is also credited, and files its explanation. */
  method AddHousehold(row: Row, score: nat, maxScore: nat, reasons: map<string, string>)
    returns (score': nat, maxScore': nat, reasons': map<string, string>)
    requires MaidColumnsPresent(row)
    ensures maxScore' == maxScore + Weight * Applies(HouseholdVerdict(row))
    ensures score' == score + Weight * Credit(HouseholdVerdict(row))
    ensures reasons' == reasons[HouseholdKey := HouseholdReason(row)]
    ensures Tagged(reasons'[HouseholdKey], HouseholdVerdict(row))
  {
    score', maxScore' := score, maxScore;
    if Truthy(row, ClientHousehold) && row[ClientHousehold] != "unspecified" {
      maxScore' := maxScore' + Weight;
      if row[MaidHousehold] == "no_restriction_household_type" {
        score' := score' + Weight;
        reasons' := reasons[HouseholdKey := NoRestriction];
      } else if Remove(row[MaidHousehold], "refuses_") == row[ClientHousehold] {
        reasons' := reasons[HouseholdKey := MaidRefuses];
      } else {
        score' := score' + Weight;
        reasons' := reasons[HouseholdKey := CompatibleHousehold];
      }
    } else {
      reasons' := reasons[HouseholdKey := NoHouseholdPreference];
    }
  }

  /** The pets block. */
  method AddPets(row: Row, score: nat, maxScore: nat, reasons: map<string, string>)
    returns (score': nat, maxScore': nat, reasons': map<string, string>)
    requires MaidColumnsPresent(row)
    ensures maxScore' == maxScore + Weight * Applies(PetsVerdict(row))
    ensures score' == score + Weight * Credit(PetsVerdict(row))
    ensures reasons' == reasons[PetsKey := PetsReason(row)]
    ensures Tagged(reasons'[PetsKey], PetsVerdict(row))
  {
    score', maxScore' := score, maxScore;
    if Truthy(row, ClientPets) && row[ClientPets] != "no_pets" {
      maxScore' := maxScore' + Weight;
      if row[MaidPets] == "no_restriction_pets" {
        score' := score' + Weight;
        reasons' := reasons[PetsKey := NoRestriction];
      } else if (Contains(row[MaidPets], "refuses_cat") && Contains(row[ClientPets], "cat"))
             || (Contains(row[MaidPets], "refuses_dog") && Contains(row[ClientPets], "dog")) {
        reasons' := reasons[PetsKey := MaidRefuses];
      } else {
        score' := score' + Weight;
        reasons' := reasons[PetsKey := CompatiblePets];
      }
    } else {
      reasons' := reasons[PetsKey := NoPetsSpecified];
    }
  }

  /** The living-arrangement block. */
  method AddLiving(row: Row, score: nat, maxScore: nat, reasons: map<string, string>)
    returns (score': nat, maxScore': nat, reasons': map<string, string>)
    requires MaidColumnsPresent(row)
    ensures maxScore' == maxScore + Weight * Applies(LivingVerdict(row))
    ensures score' == score + Weight * Credit(LivingVerdict(row))
    ensures reasons' == reasons[LivingKey := LivingReason(row)]
    ensures Tagged(reasons'[LivingKey], LivingVerdict(row))
  {
    score', maxScore' := score, maxScore;
    if Truthy(row, ClientLiving) && row[ClientLiving] != "unspecified" {
      maxScore' := maxScore' + Weight;
      if row[MaidLiving] == "no_restriction_living_arrangement" {
        score' := score' + Weight;
        reasons' := reasons[LivingKey := NoRestriction];
      } else if Contains(row[MaidLiving], "refuses_abu_dhabi") && Contains(row[ClientLiving], "abu_dhabi") {
        reasons' := reasons[LivingKey := RefusesAbuDhabi];
      } else if Contains(row[MaidLiving], "requires_no_private_room")
             && !Contains(row[ClientLiving], "private_room") {
        score' := score' + Weight;
        reasons' := reasons[LivingKey := NoPrivateRoom];
      } else {
        score' := score' + Weight;
        reasons' := reasons[LivingKey := ArrangementAcceptable];
      }
    } else {
      reasons' := reasons[LivingKey := NoLivingPreference];
    }
  }

  /** The cuisine block; a missing cooking group reads as "". */
  method AddCuisine(row: Row, score: nat, maxScore: nat, reasons: map<string, string>)
    returns (score': nat, maxScore': nat, reasons': map<string, string>)
    ensures maxScore' == maxScore + Weight * Applies(CuisineVerdict(row))
    ensures score' == score + Weight * Credit(CuisineVerdict(row))
    ensures reasons' == reasons[CuisineKey := CuisineReason(row)]
    ensures Tagged(reasons'[CuisineKey], CuisineVerdict(row))
  {
    score', maxScore' := score, maxScore;
    if Truthy(row, ClientCuisine) && row[ClientCuisine] != "unspecified" {
      maxScore' := maxScore' + Weight;
      var tokens := Split(row[ClientCuisine], '+');
      AnyInIff(tokens, Get(row, CookingGroup, ""));
      if AnyIn(tokens, Get(row, CookingGroup, "")) {
        score' := score' + Weight;
        reasons' := reasons[CuisineKey := CanCook];
      } else {
        reasons' := reasons[CuisineKey := CannotCook];
      }
    } else {
      reasons' := reasons[CuisineKey := NoCuisineSpecified];
    }
  }

  /** Scores one row and explains each dimension. The score is the number of
      credited dimensions over the number of applicable ones (0 when none
      applied) and lies in [0, 1]; `reasons` has exactly the four dimension
      keys, and each explanation names the branch taken and carries the mark
      of its dimension's outcome. */
  method CalculateRowScoreWithReasons(row: Row) returns (finalScore: real, reasons: map<string, string>)
    requires MaidColumnsPresent(row)
    ensures finalScore == ExpectedScore(row)
    ensures 0.0 <= finalScore <= 1.0
    ensures reasons.Keys == {HouseholdKey, PetsKey, LivingKey, CuisineKey}
    ensures reasons[HouseholdKey] == HouseholdReason(row) && Tagged(reasons[HouseholdKey], HouseholdVerdict(row))
    ensures reasons[PetsKey] == PetsReason(row) && Tagged(reasons[PetsKey], PetsVerdict(row))
    ensures reasons[LivingKey] == LivingReason(row) && Tagged(reasons[LivingKey], LivingVerdict(row))
    ensures reasons[CuisineKey] == CuisineReason(row) && Tagged(reasons[CuisineKey], CuisineVerdict(row))
  {
    var score, maxScore := 0, 0;
    reasons := map[];
    score, maxScore, reasons := AddHousehold(row, score, maxScore, reasons);
    score, maxScore, reasons := AddPets(row, score, maxScore, reasons);
    score, maxScore, reasons := AddLiving(row, score, maxScore, reasons);
    score, maxScore, reasons := AddCuisine(row, score, maxScore, reasons);

    ghost var vs := Verdicts(row);
    CountsOfFour(vs);
    ghost var k, n := CreditedCount(vs), ApplicableCount(vs);
    assert score == Weight * k && maxScore == Weight * n;
    finalScore := if maxScore > 0 then score as real / maxScore as real else 0.0;
    ScaledRatio(k, n);
    CreditedWithinApplicable(vs);
    RatioInUnit(k, n);
  }

  // ---------------------------------------------------------------------
  // Properties of the score.
  // ---------------------------------------------------------------------

  /** A dimension is credited only if it applied, so credit never exceeds the
      number of applicable dimensions. */
  lemma {:induction false} CreditedWithinApplicable(vs: seq<Verdict>)
    ensures CreditedCount(vs) <= ApplicableCount(vs)
    decreases |vs|
  {
    if vs != [] {
      CreditedWithinApplicable(vs[1..]);
    }
  }

  /** Counting in weight units instead of dimensions leaves the ratio unchanged. */
  lemma ScaledRatio(k: nat, n: nat)
    ensures Ratio(k, n) == if Weight * n > 0 then (Weight * k) as real / (Weight * n) as real else 0.0
  {
    if n > 0 {
      var w := Weight as real;
      calc {
        (Weight * k) as real / (Weight * n) as real;
        (w * k as real) / (w * n as real);
        k as real / n as real;
      }
    }
  }

  /** A ratio of credited over applicable dimensions lies in [0, 1]. */
  lemma RatioInUnit(k: nat, n: nat)
    requires k <= n
    ensures 0.0 <= Ratio(k, n) <= 1.0
  {
    if n > 0 {
      assert k as real <= n as real;
    }
  }
}
