# MaidsCC matching score, modelled in Dafny

The app scores how well a client fits a maid, one row of an uploaded table at a
time, and explains the result. The scoring function
`calculate_row_score_with_reasons` checks four dimensions in a fixed order:
household type, pets, living arrangement and cuisine. A dimension applies when
the client's column is present, non-empty and not that dimension's "no
preference" value (`"unspecified"`, or `"no_pets"` for pets). Every applicable
dimension adds 0.6 to the maximum. It also adds 0.6 to the score unless the
maid's column refuses it; for cuisine, one of the client's "+"-separated
tokens must occur in the maid's cooking group. The result is score / maximum, or 0 when
nothing applied, together with a dictionary holding one explanation per
dimension. Each explanation ends in ✅ (credited), ❌ (refused) or ⚪ (not
applicable).

The project has three modules:

- `PyStrings` (`py_strings.dfy`) writes out the Python string operations the
  function uses. `Contains` is `needle in hay`; it is proved equal to "occurs
  at some offset". `Remove` is `s.replace(pat, "")`. `Split` is `s.split("+")`;
  `Join` is its inverse, and round trips in both directions are proved.
  `Remove` is fixed on every string by `RemoveAbsent` and `RemoveAtFirst`.
  `AnyIn` is `any(t in hay for t in tokens)`.
- `RowScore` (`row_score.dfy`) holds the model of the function.
  - A row is a `map<string, string>`.
  - The weight 0.6 is counted as 6 tenths, so the sums are exact.
  - `CalculateRowScoreWithReasons` is a method with the local accumulators
    `score`, `maxScore` and `reasons`.
  - The method runs the four dimension blocks as four step methods
    (`AddHousehold`, `AddPets`, `AddLiving`, `AddCuisine`), each updating the
    accumulators the way its block of the source does. The steps are proved
    one at a time.
  - The specification is a set of ghost functions. They give each dimension a
    `Verdict` (`Neutral`, `Credited` or `Denied`), written as conditions on
    the two cell values rather than as the branch chain. `ExpectedScore` is
    credited / applicable.
- `ScoreProperties` (`score_properties.dfy`) holds lemmas about the
  specification: bounds, the zero fallback, when the score is exactly 0 or 1,
  that applicability does not depend on the maid's columns, and examples for
  each dimension's refusal test.

Facts about the code that the model keeps:

- There are exactly four dimensions, each weighted 0.6. The comment at
  app.py:68 leaves further dimensions for later.
- Refusals are found by substring tests, and for household by deleting every
  `"refuses_"`; no column is split into a set of tokens except the cuisine
  preference. A maid column listing several refusals joined by "+" therefore
  refuses no single household type
  (`ScoreProperties.CompositeRefusalNotRecognised`), while "refuses_cat" or
  "refuses_abu_dhabi" is found anywhere in the maid's column
  (`ScoreProperties.CatRefusalFoundAnywhere`,
  `ScoreProperties.AbuDhabiRefusalFoundAnywhere`).
- For the living arrangement, only the Abu Dhabi refusal withholds credit;
  the private-room branch credits like the fallback (`RowScore.AddLiving`).
- A preference with an empty "+" token (a leading, trailing or doubled "+")
  is served by every cooking group, an empty one included
  (`ScoreProperties.EmptyCookingGroup`).

## Model

| member | source | states |
|---|---|---|
| `RowScore.CalculateRowScoreWithReasons` | app.py:7-71 | The score equals credited over applicable dimensions, 0 when none applied, and lies in [0, 1]. `reasons` has exactly the keys Household, Pets, Living Arrangement and Cuisine. Each entry is the text of the branch taken, and its mark is ⚪, ✅ or ❌ exactly as the dimension was not applicable, credited or refused. |
| `RowScore.AddHousehold` | app.py:11-23 | Adds 0.6 to the maximum iff the client's household type is present, non-empty and not "unspecified". Adds 0.6 to the score unless the maid is not "no_restriction_household_type" and the maid's value with every "refuses_" deleted equals the client's. Files the matching explanation. |
| `RowScore.AddPets` | app.py:25-38 | Applies iff the client's pet type is present, non-empty and not "no_pets". Credit is withheld iff the maid is not "no_restriction_pets" and the maid refuses cats while the client's value contains "cat", or refuses dogs while it contains "dog". Files the matching explanation. |
| `RowScore.AddLiving` | app.py:40-55 | Applies iff the client's arrangement is present, non-empty and not "unspecified". Credit is withheld only when the maid is not "no_restriction_living_arrangement", the maid's column contains "refuses_abu_dhabi" and the client's contains "abu_dhabi". The private-room test never withholds credit: its branch and the fallback both credit, with their own texts. |
| `RowScore.AddCuisine` | app.py:57-66 | Applies iff the client's cuisine preference is present, non-empty and not "unspecified". Credits iff some "+"-separated token of it occurs in the cooking group, which defaults to "". Files the matching explanation. |
| `RowScore.Truthy` | app.py:12 | `row.get(k)` is true iff the cell read with default "" is not empty. |
| `RowScore.Get` | app.py:60 | `row.get(k, default)` gives the cell when the column is there and the default otherwise. |
| `RowScore.HouseholdApplies` | app.py:12 | The household dimension applies iff the client's cell, read with default "", is neither "" nor "unspecified". |
| `RowScore.PetsApplies` | app.py:26 | The pets dimension applies iff the client's cell, read with default "", is neither "" nor "no_pets". |
| `RowScore.LivingApplies` | app.py:41 | The living dimension applies iff the client's cell, read with default "", is neither "" nor "unspecified". |
| `RowScore.CuisineApplies` | app.py:58 | The cuisine dimension applies iff the client's cell, read with default "", is neither "" nor "unspecified". |
| `RowScore.HouseholdRefused` | app.py:14-17 | A household refusal needs a maid column at least as long as the client's value and holding every character of it. |
| `RowScore.PetsRefused` | app.py:28-32 | A pet refusal needs a maid column at least as long as "refuses_cat" and a client value at least as long as "cat". |
| `RowScore.LivingRefused` | app.py:43-46 | An Abu Dhabi refusal needs a maid column at least as long as "refuses_abu_dhabi" and a client value at least as long as "abu_dhabi". |
| `RowScore.CuisineServed` | app.py:60 | "Some "+"-token of the preference occurs in the cooking group" holds iff the code's `any(...)` over the split tokens holds. |
| `RowScore.CreditedWithinApplicable` | app.py:12-61 | Every credit sits inside an applicable branch, so the credited count never exceeds the applicable count. |
| `RowScore.RatioInUnit` | app.py:70 | score / max_score, or 0 when max_score is 0, lies in [0, 1] whenever score ≤ max_score. |
| `RowScore.ScaledRatio` | app.py:13-70 | Summing equal weights instead of counting dimensions leaves the final ratio unchanged. |
| `PyStrings.Contains` | app.py:31-32 | Python's `in`: the empty string occurs in every string, and a needle longer than the string never occurs. |
| `PyStrings.ContainsIffOccurs` | app.py:31-32 | Python's `in` on strings holds iff the needle occurs at some offset of the string, in both directions. |
| `PyStrings.NotContainsByChar` | app.py:46 | A needle holding a character the string lacks does not occur in it. |
| `PyStrings.ContainsInside` | app.py:46 | A string occurs in any string that holds it, whatever comes before and after. |
| `PyStrings.Remove` | app.py:17 | `replace("refuses_", "")` never lengthens its argument and introduces no new character. |
| `PyStrings.RemoveAbsent` | app.py:17 | A value without "refuses_" is left unchanged by the deletion. |
| `PyStrings.RemoveLeading` | app.py:17 | A leading "refuses_" is deleted and the scan goes on with the rest. |
| `PyStrings.RemoveAtFirst` | app.py:17 | Text before the first occurrence of the pattern is kept, that occurrence is deleted, and the scan goes on after it. With `RemoveAbsent` this fixes the result on every string. |
| `PyStrings.SinglePass` | app.py:17 | The deletion is a single pass: when deleting the first occurrence brings the letters around it together into a new occurrence, the new one stays. |
| `PyStrings.RefRefusesUses` | app.py:17 | "ref" + "refuses_" + "uses_" (that is "refrefuses_uses_") becomes "refuses_". |
| `PyStrings.RemoveKeepsOtherChars` | app.py:17 | A character that is not in "refuses_" survives the deletion. |
| `PyStrings.Split` | app.py:60 | `split("+")` gives at least one token, and no token contains "+". |
| `PyStrings.JoinSplit` | app.py:60 | Joining the tokens of a split with "+" gives back the original value. |
| `PyStrings.SplitJoin` | app.py:60 | Splitting a "+"-join of tokens without "+" gives back the tokens. |
| `PyStrings.AnyIn` | app.py:60 | `any(...)` over no tokens is false, and an empty token makes it true. |
| `PyStrings.AnyInIff` | app.py:60 | `any(t in hay for t in tokens)` holds iff some token occurs in `hay`, in both directions. |
| `ScoreProperties.ScoreInUnit` | app.py:8-70 | The returned score is always in [0, 1]. |
| `ScoreProperties.ZeroFallback` | app.py:12-70 | No dimension applies iff all four client columns are absent, empty or their sentinel, and then the score is exactly 0. |
| `ScoreProperties.NoCreditIffNoneCredited` | app.py:15-61 | The credited count is 0 iff no dimension was credited. |
| `ScoreProperties.FullCreditIffNoneDenied` | app.py:13-64 | The credited count equals the applicable count iff no dimension was refused. |
| `ScoreProperties.ScoreZeroIff` | app.py:70 | The score is 0 iff no dimension was credited. |
| `ScoreProperties.ScoreOneIff` | app.py:70 | The score is 1 iff some dimension applied and none was refused. |
| `ScoreProperties.ApplicabilityIgnoresMaid` | app.py:12-58 | Rows that agree on the four client columns have the same applicable count, whatever the maid's columns hold. |
| `ScoreProperties.MarkIdentifiesVerdict` | app.py:16-66 | An explanation's mark identifies one outcome, so a ✅, ❌ or ⚪ text stands for exactly one of credited, refused or not applicable. |
| `ScoreProperties.RefusesOwnHouseholdType` | app.py:17-18 | A maid whose column is "refuses_" followed by the client's household type refuses it, provided the type itself has no "refuses_". |
| `ScoreProperties.CompositeRefusalNotRecognised` | app.py:17-21 | A maid column with a "+" refuses no household value without a "+", so such a maid is credited. |
| `ScoreProperties.CatRefusalDeniesCat` | app.py:31-33 | A "refuses_cat" maid is refused by a "cat" client. |
| `ScoreProperties.CatRefusalSparesDog` | app.py:31-36 | A maid column without a "d", such as "refuses_cat", refuses no client whose value does not mention a cat, so a "dog" client is credited. |
| `ScoreProperties.PetsRefusedIffOccurs` | app.py:28-32 | The pet refusal holds iff the maid is not "no_restriction_pets" and "refuses_cat" occurs at some offset of the maid's column while "cat" occurs at some offset of the client's, or the same for dogs. |
| `ScoreProperties.CatRefusalFoundAnywhere` | app.py:31-33 | "refuses_cat" anywhere in the maid's column, among any other text, refuses every client whose value contains "cat". |
| `ScoreProperties.DogRefusalFoundAnywhere` | app.py:31-33 | "refuses_dog" anywhere in the maid's column, among any other text, refuses every client whose value contains "dog". |
| `ScoreProperties.PrivateRoomNotDenied` | app.py:46-53 | A "requires_no_private_room" maid is not refused by a "private_room" client. |
| `ScoreProperties.LivingRefusedIffOccurs` | app.py:43-46 | The living refusal holds iff the maid is not "no_restriction_living_arrangement", "refuses_abu_dhabi" occurs at some offset of the maid's column and "abu_dhabi" at some offset of the client's. |
| `ScoreProperties.AbuDhabiRefusalFoundAnywhere` | app.py:46-47 | "refuses_abu_dhabi" anywhere in the maid's column, among any other text, refuses every client whose arrangement contains "abu_dhabi". |
| `ScoreProperties.ContainedInEmpty` | app.py:60 | Only the empty token occurs in the empty cooking group. |
| `ScoreProperties.MissingCookingGroupIsEmpty` | app.py:60 | A row without a cooking group gets the same cuisine outcome as one whose cooking group is "". |
| `ScoreProperties.EmptyCookingGroup` | app.py:60-64 | With an empty cooking group, a preference is served iff it has an empty token. An empty token is served by every cooking group. |
| `ScoreProperties.SharedCuisineServed` | app.py:60-62 | The preference "italian+indian" is served by the cooking group "indian+thai". |
| `ScoreProperties.BabyHousehold` | app.py:11-70 | A "baby" household with "no_pets" scores 1 against an unrestricted maid and 0 against a "refuses_baby" maid. |

## Left out

- The Streamlit page, file upload, previews, explanation expanders, bar chart and CSV download (app.py:77-118). These are user interface and I/O.
- Reading the CSV or Excel file with pandas and applying the function to every row (app.py:86-95). These are library calls; the model scores one row given as a map.
- Floating-point arithmetic. Weights are counted in tenths and the result is an exact `real` ratio. With floats, `score` and `max_score` are sums of rounded 0.6s, so 2 credited of 3 comes out as 0.6666666666666667 and 1 of 3 as 0.33333333333333337, one unit in the last place above the float nearest the exact ratio. When every applicable dimension is credited the two sums are identical, so the result is exactly 1.0; with no credit it is 0.0.
- Pandas cells that are not strings, such as NaN, which Python treats as true. Every cell is a string and only "" counts as false.
- The `KeyError` raised when a maid column the function reads is missing. The model requires the maid's column whenever the client's side of that dimension applies (`MaidColumnsPresent`). `cooking_group` is read with a default, so it is not required.
- The insertion order of the `reasons` dictionary, which the page uses when it lists the explanations. The model keeps the explanations in a map.
