# Preflop decision core, in Dafny

The repository is a preflop advisor for heads-up and three-handed poker.
Given a table size, a stack depth, the hero's seat, a scenario and a
two-card hand, it answers an action: fold, call, raise or shove. It comes
in two versions that share most of their code:

- the first version, under `src/`, and
- the backend, under `backend/`.

This project models the core of both versions:

- **Hand labels.** Free hand text becomes the key a strategy table is
  indexed by. The backend's `normalizeHandLabel` recognises two full cards
  ("AhKs"), shorthand ("AKs", "AK", "AA") and, as a last resort, scans the
  text for its first two ranks. It returns either a pocket pair ("AA") or
  two distinct ranks, the higher first, followed by `S` or `O`. The first
  version only trims and upper-cases the text.
- **Seats.** The table sizes, the seats allowed at each size, and the
  villain seats left once the hero's seat is removed.
- **The strategy table** (`RangeRepository`). This is a JSON tree
  players -> depth -> seat -> scenario -> ... -> hand -> value. The model
  covers:
  - its structural validation, `validateRangesFile`, which both versions
    share except for the opening scenario's name and a whitelist of
    scenario names in the first version;
  - the choice of the nearest numeric depth key, `closestDepthKey`;
  - the descent of `find` and `getPositionNode`.
- **The decision engine** of the first version. It normalises the hand,
  looks it up, and answers a conservative default (`fallback`) when the
  table has nothing.
- **The profile check**, `validateProfileAgainstTemplate`. It compares a
  profile table with the template, key by key and level by level, and
  reports what is missing or extra.

JSON values are modelled after parsing, as the datatype `Json.Json`.
Objects keep their members in insertion order. `Json.OwnKeys` gives the
order JavaScript's `Object.keys` uses: array-index keys ascending, then the
other keys in insertion order. `Json.Prop` reads a property, `Json.OptChain`
is `?.[k]`, and `Json.Truthy` is JavaScript truthiness. `undefined` is
`None`. A `throw` is a `Failure` (or `Fail`) value. `Number(k)` on a depth
key and `String(n)` on a depth are modelled on the integers
(`JsNumber.ParseNumberKey`, `JsNumber.IntToString`).

Each loop of the source is a method with loop invariants, and each method
is proved equal to a specification function:

- the scan of `normalizeHandLabel`;
- the `best`/`bestDelta` loop of `closestDepthKey`;
- each level of `validateRangesFile`;
- each level of `validateProfileAgainstTemplate`.

The properties the source promises are then lemmas about those functions.
Each repository is a class whose table is a `const` field. Each class's
`Valid()` states that the table passed validation, and the constructor
can only be reached through validation.

Where the source's own comments and its code disagree, the model follows
the code:

- The comment above the backend's `normalizeHandLabel`
  (backend/src/domain.ts:41-52) says at line 47 that "10s" names a ten,
  like "Ts". No rank list or pattern of the code accepts "10", so "10s" is
  refused (`HandLabelProperties.TenIsNotARank`). The other examples of that
  comment, lines 43-46, agree with the code: "AhKs" is "AKO"
  (`HandLabelProperties.ExampleFullOffsuit`).
- Those examples hold for the backend only. The first version's
  normaliser (src/domain.ts:41-43) only trims and upper-cases, so it looks
  "AhKs" up as "AHKS" (`LegacyHandLabel.ExampleFullCards`,
  `Decisions.FullCardsLookedUpVerbatim`).
- Under a scenario other than the opening one, the backend's `find` has a
  branch that reads a hand straight from the scenario node; the comment at
  backend/src/ranges/RangeRepository.ts:74 presents it as a table shape of
  its own. The validator rejects every table in which that branch could
  return a plain action (`RangesValidation.NonObjectUnderScenarioRejected`).
  The model keeps the branch as written.

## Model

| member | source | states |
|---|---|---|
| Text.UpperAscii | backend/src/domain.ts:57 | upper-casing keeps the length and maps every character through ASCII upper-case |
| Text.UpperAsciiIdempotent | backend/src/domain.ts:57 | upper-casing twice is upper-casing once, and leaves no lower-case ASCII letter |
| Text.RemoveWhitespace | backend/src/domain.ts:57 | deleting the `\s` runs leaves no white space and never lengthens the text |
| Text.Trim | backend/src/domain.ts:55 | the trimmed text is empty or starts and ends with a non-white-space character |
| Text.TrimCutsWhitespace | backend/src/domain.ts:55 | what `trim` removes is white space, and only at the two ends |
| Text.TrimOfTrimmed | src/domain.ts:42 | text already trimmed is left unchanged |
| Text.TrimIgnoresPadding | src/domain.ts:42 | white space added before or after the text does not change `trim`'s result |
| JsNumber.NatToString | backend/src/ranges/RangeRepository.ts:113 | `String(n)` is a numeral without superfluous leading zeros whose decimal value is `n` |
| JsNumber.IntToString | backend/src/ranges/RangeRepository.ts:113 | `String(n)` is never empty, and for a negative `n` it is `-` followed by `String(-n)` |
| JsNumber.ParseNumberKey | backend/src/ranges/RangeRepository.ts:99 | `Number(k)` of a key that is empty or all white space is 0 |
| JsNumber.ParseLonePoint | backend/src/ranges/RangeRepository.ts:99-100 | a key that is a point alone, white space aside, reads as NaN and is dropped |
| JsNumber.ParseFractionOnly | backend/src/ranges/RangeRepository.ts:99 | a zero fraction with no integer part (".0", "-.00") reads as 0 |
| JsNumber.ParseIntToString | backend/src/ranges/RangeRepository.ts:99-113 | reading back with `Number` what `String` wrote gives the same integer, for every integer |
| Json.JsKeyOrder | backend/src/ranges/RangeRepository.ts:96 | the `Object.keys` order lists exactly the keys given, no more and no fewer |
| Json.OwnKeysMembership | backend/src/ranges/RangeRepository.ts:96 | `Object.keys(j)` lists a key exactly when `j` has a value at that key |
| Seats.ParsePlayersCount | backend/src/domain.ts:17-22 | succeeds exactly for 2 and 3, returns the count unchanged, and otherwise fails naming the count |
| Seats.AllowedPositions | backend/src/domain.ts:33-35 | one seat per player, no seat twice, SB and BB always and last, BTN exactly three-handed |
| Seats.Without | backend/src/domain.ts:38 | the filter keeps exactly the seats other than the hero's |
| Seats.WithoutIsSubsequence | backend/src/domain.ts:38 | the filter keeps the seats in table order |
| Seats.WithoutAbsent | backend/src/domain.ts:38 | filtering out a seat that is absent changes nothing |
| Seats.AllVillainPositions | backend/src/domain.ts:37-39 | the villain seats are exactly the allowed seats other than the hero's, in table order |
| Seats.PositionNamed | backend/src/domain.ts:5-9 | the seat whose enum string is the name given, and none exactly when no seat has it |
| Seats.ParsePosition | backend/src/domain.ts:24-31 | succeeds exactly when the upper-cased text names a seat allowed at the table size, returns that seat, and otherwise fails naming the original text |
| Seats.ParsePositionIgnoresCase | backend/src/domain.ts:25 | a seat name and its upper-cased form parse alike, to the same seat |
| Seats.HeadsUpHasNoButton | backend/src/domain.ts:34 | "btn" is refused at a heads-up table |
| Seats.SeatExamples | backend/src/domain.ts:24-31 | "sb" at two players is SB, and "Btn" at three players is BTN |
| Seats.VillainExamples | backend/src/domain.ts:134 | heads-up, the small blind faces the big blind; three-handed, the small blind faces BTN and BB in that order |
| HandLabel.RankIndex | backend/src/domain.ts:127-128 | `indexOf` in the rank list is found exactly for a rank and points at that rank |
| HandLabel.OrderRanks | backend/src/domain.ts:126-131 | succeeds exactly on two ranks, returns them higher first, and otherwise fails naming both |
| HandLabel.LabelOf | backend/src/domain.ts:89-93 | the label of two ranks is canonical: a pair written twice, or three letters ending in `S` exactly when suited |
| HandLabel.LabelOfSymmetric | backend/src/domain.ts:52 | the label does not depend on the order in which the two ranks come |
| HandLabel.OrderedLabel | backend/src/domain.ts:75-77 | the label assembled from `orderRanks` is the order-independent label |
| HandLabel.Compact | backend/src/domain.ts:55-57 | the compact text has no white space and no lower-case ASCII letter |
| HandLabel.ScanFrom | backend/src/domain.ts:101-113 | the scan collects at most two characters, all of them ranks |
| HandLabel.PairOrLabel | backend/src/domain.ts:72-77 | the shared tail fails exactly when the two characters differ and are not both ranks, with `orderRanks`'s error |
| HandLabel.PairOrLabelIsLabel | backend/src/domain.ts:72-77 | on two ranks the shared tail returns the order-independent label |
| HandLabel.ScanCards | backend/src/domain.ts:98-113 | the scan loop, with its index bumped past a suit and its early exit, computes the declarative scan |
| HandLabel.NormalizeHandLabel | backend/src/domain.ts:53-124 | the three recognisers in order compute the specification, and every label returned is canonical |
| HandLabel.RankUnchangedByUpper | backend/src/domain.ts:67-70 | upper-casing a rank, `S` or `O` leaves it unchanged |
| HandLabel.NormalizeShape | backend/src/domain.ts:53-131 | every label returned is canonical, and the only errors are empty input and unrecognised text: `orderRanks` never throws |
| HandLabelProperties.SkipNonRanks | backend/src/domain.ts:103 | the scan passes over characters that are not ranks, suit letters included |
| HandLabelProperties.ScanAtRank | backend/src/domain.ts:103-111 | a rank is collected together with the suit letter right after it, which is skipped; the scan stops at the second rank |
| HandLabelProperties.ScanFirstTwo | backend/src/domain.ts:101-113 | the scan keeps the first two ranks of the text in order, each with the suit letter right after it if there is one |
| HandLabelProperties.ScanTwoIff | backend/src/domain.ts:101-114 | the scan collects two ranks exactly when the text holds two |
| HandLabelProperties.ScanSuited | backend/src/domain.ts:119 | the scan reports suited exactly when both ranks carry a suit letter and the two letters are the same |
| HandLabelProperties.FullCardForm | backend/src/domain.ts:64-78 | two full cards give the label of their ranks, suited exactly when the suits agree |
| HandLabelProperties.ShorthandForm | backend/src/domain.ts:82-94 | shorthand gives the label of its ranks, suited only with an explicit `S` |
| HandLabelProperties.ScanBranch | backend/src/domain.ts:114-123 | text neither pattern accepts goes through the scan, and fails as unrecognised unless two ranks are found |
| HandLabelProperties.ScanForm | backend/src/domain.ts:96-121 | other text gives the label of its first two ranks, suited only when both carry the same suit letter |
| HandLabelProperties.EmptyHandIff | backend/src/domain.ts:54 | the empty-hand error is raised exactly for empty text |
| HandLabelProperties.NormalizeFailsIff | backend/src/domain.ts:53-124 | normalisation fails exactly for empty text, or for text no pattern accepts that holds fewer than two ranks |
| HandLabelProperties.UnrecognizedOf | backend/src/domain.ts:123 | text no pattern accepts that holds fewer than two ranks fails, naming the original text |
| HandLabelProperties.CompactOfPlain | backend/src/domain.ts:55-57 | text made of upper-case ranks, `S` and `O` is its own compact form |
| HandLabelProperties.PlainShorthand | backend/src/domain.ts:82-94 | text whose compact form is upper-case shorthand is the label of its two ranks |
| HandLabelProperties.PlainLabel | backend/src/domain.ts:82-94 | upper-case shorthand is the label of its two ranks |
| HandLabelProperties.RankOrderIrrelevant | backend/src/domain.ts:52 | "KAs" and "AKs" name the same hand, for every two ranks and every suffix |
| HandLabelProperties.CanonicalIsFixed | backend/src/domain.ts:53-124 | a canonical label normalises to itself |
| HandLabelProperties.NormalizeIdempotent | backend/src/domain.ts:53-124 | normalising a label already produced changes nothing |
| HandLabelProperties.ExampleFullOffsuit | backend/src/tests/normalize.test.ts:5 | "AhKs" is "AKO" |
| HandLabelProperties.ExampleFullSuited | backend/src/tests/normalize.test.ts:6 | "AsKs" is "AKS" |
| HandLabelProperties.ExampleShorthandSuited | backend/src/tests/normalize.test.ts:7 | "AKs" is "AKS" |
| HandLabelProperties.ExampleUnsuffixed | backend/src/tests/normalize.test.ts:8 | "AK" defaults to offsuit, "AKO" |
| HandLabelProperties.ExamplePair | backend/src/tests/normalize.test.ts:9 | "AA" is "AA" |
| HandLabelProperties.ExampleFullPair | backend/src/tests/normalize.test.ts:10 | "TsTh" is the pair "TT" |
| HandLabelProperties.ExampleSpaced | backend/src/tests/normalize.test.ts:11 | "a k s" is "AKS" |
| HandLabelProperties.ExampleLowerCase | backend/src/tests/normalize.test.ts:12 | "a5s" is "A5S" |
| HandLabelProperties.ExampleReversed | backend/src/domain.ts:52 | "KAs" is "AKS" |
| HandLabelProperties.TenIsNotARank | backend/src/domain.ts:47 | "10s" is refused as unrecognised: the code has no "10" alias for T |
| LegacyHandLabel.Normalize | src/domain.ts:41-43 | the result is trimmed, has no lower-case ASCII letter, and is no longer than the input |
| LegacyHandLabel.FixedPoints | src/domain.ts:41-43 | trimmed text without lower-case letters is left as it is |
| LegacyHandLabel.NormalizeIdempotent | src/domain.ts:41-43 | normalising twice is normalising once |
| LegacyHandLabel.PaddingIgnored | src/domain.ts:42 | white space around the hand text makes no difference |
| LegacyHandLabel.ExampleLowerCase | src/domain.ts:42 | "aks" is "AKS" |
| LegacyHandLabel.ExamplePadded | src/domain.ts:42 | " aks " is "AKS" |
| LegacyHandLabel.ExampleFullCards | src/domain.ts:42 | "AhKs" stays "AHKS": suits are neither read nor dropped |
| DepthKeys.NumericKeys | backend/src/ranges/RangeRepository.ts:98-100 | the depths are exactly the readings of the keys that read as numbers |
| DepthKeys.ClosestIndex | backend/src/ranges/RangeRepository.ts:103-112 | the chosen depth is at minimal distance, and no earlier depth is at that distance |
| DepthKeys.ClosestIndexUnique | backend/src/ranges/RangeRepository.ts:103-112 | those two properties single out the chosen position |
| DepthKeys.ClosestStep | backend/src/ranges/RangeRepository.ts:105-111 | one more depth replaces the best so far only when it is strictly nearer |
| DepthKeys.ClosestDepthKey | backend/src/ranges/RangeRepository.ts:95-114 | the `best`/`bestDelta` loop computes the specification of `closestDepthKey` |
| DepthKeys.ClosestDepthKeyNearest | backend/src/ranges/RangeRepository.ts:95-114 | no key is chosen exactly when no key reads as a number; otherwise the result is `String` of the reading of a key nearest to the depth |
| DepthKeys.ClosestDepthKeyValue | backend/src/ranges/RangeRepository.ts:95-114 | the key chosen is `String` of the nearest depth, first enumerated on a tie |
| DepthKeys.TieGoesToSmaller | backend/src/ranges/RangeRepository.ts:108 | when the depths come in ascending order, a tie goes to the smaller depth |
| DepthKeys.SortedIndicesAscending | backend/src/ranges/RangeRepository.ts:96-100 | integer-like keys enumerated by `Object.keys` read as ascending depths |
| DepthKeys.IndexObjectKeys | backend/src/ranges/RangeRepository.ts:96 | an object whose keys all look like array indices enumerates them sorted by value |
| DepthKeys.IndexKeysTieGoesToSmaller | backend/src/ranges/RangeRepository.ts:96-112 | with only integer-like depth keys, a tie between two depths goes to the smaller one |
| DepthKeys.ClosestExamples | backend/src/ranges/RangeRepository.ts:103-112 | 9 picks 10 among 5, 10 and 15, and a tie goes to the depth enumerated first |
| DepthKeys.ReadTenPointZero | backend/src/ranges/RangeRepository.ts:99 | `Number("10.0")` is 10 |
| DepthKeys.OneNumericKey | backend/src/ranges/RangeRepository.ts:103-113 | with a single key that reads as a number, that number is chosen |
| DepthKeys.TenPointZeroBecomesTen | backend/src/ranges/RangeRepository.ts:98-113 | a node whose only depth key is "10.0" yields the key "10", at any depth |
| DepthKeys.PointZeroKeyIsNearest | backend/src/ranges/RangeRepository.ts:96-113 | with depth keys "12" and ".0", depth 5 picks ".0" read as 0 and yields the key "0", which the node does not have |
| RangesValidation.ValidateVillains | backend/src/ranges/RangeRepository.ts:160-165 | the villain loop computes its specification: the first child that is not an object is reported |
| RangesValidation.ValidateScenarioNode | backend/src/ranges/RangeRepository.ts:150-166 | the scenario check computes its specification |
| RangesValidation.ValidatePositionNode | backend/src/ranges/RangeRepository.ts:139-170 | the scenario loop with its `hasAny` flag computes its specification |
| RangesValidation.ValidateDepthNode | backend/src/ranges/RangeRepository.ts:133-171 | the position loop computes its specification |
| RangesValidation.ValidatePlayersNode | backend/src/ranges/RangeRepository.ts:124-172 | the depth loop computes its specification |
| RangesValidation.ValidateRangesFile | backend/src/ranges/RangeRepository.ts:117-174 | the players loop computes the specification of `validateRangesFile`, in both dialects |
| RangesValidation.CheckVillainsPass | backend/src/ranges/RangeRepository.ts:160-165 | the villain check passes exactly when every villain child is an object |
| RangesValidation.CheckScenarioPass | backend/src/ranges/RangeRepository.ts:150-166 | one scenario passes exactly when it satisfies the declarative scenario rule |
| RangesValidation.CheckScenariosPass | backend/src/ranges/RangeRepository.ts:148-167 | the scenario loop passes exactly when every scenario passes |
| RangesValidation.CheckPositionPass | backend/src/ranges/RangeRepository.ts:139-170 | a seat node passes exactly when it is a non-empty object whose scenarios all pass |
| RangesValidation.CheckPositionsPass | backend/src/ranges/RangeRepository.ts:138-171 | the position loop passes exactly when every seat node passes |
| RangesValidation.CheckDepthPass | backend/src/ranges/RangeRepository.ts:133-171 | a depth node passes exactly when it is an object whose seat nodes all pass |
| RangesValidation.CheckDepthsPass | backend/src/ranges/RangeRepository.ts:132-172 | the depth loop passes exactly when every depth node passes |
| RangesValidation.CheckPlayersPass | backend/src/ranges/RangeRepository.ts:124-172 | a players node passes exactly when it is a non-empty object whose depth nodes all pass |
| RangesValidation.CheckRootPass | backend/src/ranges/RangeRepository.ts:123-173 | the players loop passes exactly when every players node passes |
| RangesValidation.ValidationPassIff | backend/src/ranges/RangeRepository.ts:117-174 | the loader accepts a table exactly when it is well formed |
| RangesValidation.ScenarioOfWellFormed | backend/src/ranges/RangeRepository.ts:148-167 | every scenario node of an accepted table satisfies the scenario rule |
| RangesValidation.NonObjectUnderScenarioRejected | backend/src/ranges/RangeRepository.ts:155-165 | a non-object directly under a scenario other than the opening one gets the whole table rejected |
| RangesValidation.LegacyRejectsUnknownScenario | src/ranges/RangeRepository.ts:126-131 | the first version's loader rejects any scenario name other than FirstIn, VsOpen and VsShove |
| BackendRanges.RangeRepository.constructor | backend/src/ranges/RangeRepository.ts:14 | the repository holds the table it is given, which passed validation |
| BackendRanges.RangeRepository.FromObject | backend/src/ranges/RangeRepository.ts:34-38 | a repository is built exactly for a well-formed table, and otherwise the validator's error is returned |
| BackendRanges.RangeRepository.GetPositionNode | backend/src/ranges/RangeRepository.ts:84-93 | a seat node is found only under an existing players node |
| BackendRanges.PositionNodeAtNearestDepth | backend/src/ranges/RangeRepository.ts:84-93 | the seat node is the hero's entry under `String` of the numeric depth key nearest to the request; it is missing exactly when the players node or the node under that key is falsy, or no key reads as a number |
| BackendRanges.RangeRepository.Find | backend/src/ranges/RangeRepository.ts:40-81 | a value is found only under an existing players node |
| BackendRanges.FindThroughPositionNode | backend/src/ranges/RangeRepository.ts:50-80 | `find` descends through the seat node `getPositionNode` returns; `Open` is a hand map; any other scenario is tried per villain seat when that entry is truthy, then as a direct hand map |
| BackendRanges.OpenIgnoresVillain | backend/src/ranges/RangeRepository.ts:62-64 | for `Open`, the villain seat plays no part |
| BackendRanges.MissingLevelMisses | backend/src/ranges/RangeRepository.ts:50-60 | a missing or falsy level on the way to the seat node makes every lookup miss, with no default |
| BackendRanges.PositionNodeOfValid | backend/src/ranges/RangeRepository.ts:138-142 | in an accepted table, every seat node found is an object |
| BackendRanges.RekeyedDepthMisses | backend/src/ranges/RangeRepository.ts:53-57 | when the key `String` writes for the nearest depth is not a key of the players node, every lookup misses |
| BackendRanges.NonCanonicalDepthKeyMisses | backend/src/ranges/RangeRepository.ts:53-57 | a depth stored as "10.0" is never found: the table answers nothing |
| BackendRanges.PointZeroDepthKeyMisses | backend/src/ranges/RangeRepository.ts:53-57 | with depths "12" and ".0" stored, a lookup at depth 5 picks ".0", rewrites it as "0" and misses |
| LegacyRanges.RangeRepository.constructor | src/ranges/RangeRepository.ts:14 | the repository holds the table it is given, which passed validation |
| LegacyRanges.RangeRepository.FromFile | src/ranges/RangeRepository.ts:27-30 | a repository is built exactly for a well-formed table, and otherwise the validator's error, naming the path, is returned |
| LegacyRanges.RangeRepository.GetPositionNode | src/ranges/RangeRepository.ts:66-75 | a seat node is found only under an existing players node |
| LegacyRanges.PositionNodeAtNearestDepth | src/ranges/RangeRepository.ts:66-75 | the seat node is the hero's entry under `String` of the numeric depth key nearest to the request; it is missing exactly when the players node or the node under that key is falsy, or no key reads as a number |
| LegacyRanges.RangeRepository.Find | src/ranges/RangeRepository.ts:33-63 | a value is found only under an existing players node |
| LegacyRanges.FindThroughPositionNode | src/ranges/RangeRepository.ts:43-62 | `find` descends through the seat node `getPositionNode` returns; `FirstIn` is a hand map; any other scenario needs a villain seat and is looked up per villain seat only |
| LegacyRanges.FirstInIgnoresVillain | src/ranges/RangeRepository.ts:55-57 | for `FirstIn`, the villain seat plays no part |
| LegacyRanges.NoVillainMisses | src/ranges/RangeRepository.ts:60 | any scenario other than `FirstIn` misses when no villain seat is given |
| LegacyRanges.MissingLevelMisses | src/ranges/RangeRepository.ts:43-53 | a missing or falsy level on the way to the seat node makes every lookup miss |
| LegacyRanges.PositionNodeOfValid | src/ranges/RangeRepository.ts:120-124 | in an accepted table, every seat node found is an object |
| Decisions.Fallback | src/DecisionEngine.ts:37-49 | the default is `call` exactly when facing a shove, and `fold` for every other scenario name |
| Decisions.FallbackExamples | src/DecisionEngine.ts:39-47 | FirstIn and VsOpen fold, VsShove calls, and an unknown scenario folds |
| Decisions.DecisionEngine.constructor | src/DecisionEngine.ts:19 | the engine holds the repository it is given |
| Decisions.DecisionEngine.Decide | src/DecisionEngine.ts:21-35 | the answer carries the normalised label, and either the stored value when `??` keeps it or the scenario's default; never null |
| Decisions.MissFallsBack | src/DecisionEngine.ts:24-32 | on a miss, facing a shove calls and anything else folds |
| Decisions.NoVillainFallsBack | src/DecisionEngine.ts:24-32 | without a villain seat, every scenario but `FirstIn` gets the default |
| Decisions.FirstInIgnoresVillain | src/DecisionEngine.ts:21-35 | for `FirstIn`, the villain seat makes no difference to the decision |
| Decisions.PaddingIgnored | src/DecisionEngine.ts:22 | white space around the hand text makes no difference to the decision |
| Decisions.FullCardsLookedUpVerbatim | src/DecisionEngine.ts:22 | "AhKs" is looked up as "AHKS" |
| Profiles.VillainKeys | backend/scripts/validateProfiles.js:55-56 | the filter keeps exactly the keys that are BTN, SB or BB |
| Profiles.VillainIssues | backend/scripts/validateProfiles.js:59-63 | every issue is a missing villain seat of this scenario, at this place |
| Profiles.ScenarioIssues | backend/scripts/validateProfiles.js:51-69 | every issue is a missing villain seat or a non-object scenario, of this scenario, at this place |
| Profiles.ScenariosIssues | backend/scripts/validateProfiles.js:45-70 | the issues lie below this seat and are about scenarios or deeper |
| Profiles.ExtraIssues | backend/scripts/validateProfiles.js:73-77 | every issue is an extra key of the level given, at this place |
| Profiles.PositionIssues | backend/scripts/validateProfiles.js:41-77 | the issues lie below this seat and are about scenarios or deeper |
| Profiles.PositionsIssues | backend/scripts/validateProfiles.js:36-78 | the issues lie below this depth; missing ones are about seats or deeper |
| Profiles.DepthIssues | backend/scripts/validateProfiles.js:33-85 | the issues lie below this depth and are about seats or deeper |
| Profiles.DepthsIssues | backend/scripts/validateProfiles.js:28-86 | the issues lie below this players count; missing ones are about depths or deeper |
| Profiles.PlayerIssues | backend/scripts/validateProfiles.js:25-93 | the issues lie below this players count and are about depths or deeper |
| Profiles.PlayersIssues | backend/scripts/validateProfiles.js:20-94 | missing issues may be at any level; extra ones are about depths or deeper |
| Profiles.ProfileIssues | backend/scripts/validateProfiles.js:17-104 | a null template throws at once (`Object.keys(null)`); a comparison that completes had neither table null |
| Profiles.CheckVillains | backend/scripts/validateProfiles.js:59-63 | the villain loop pushes exactly the issues of its specification |
| Profiles.CheckScenario | backend/scripts/validateProfiles.js:51-69 | the body for one scenario pushes exactly the issues of its specification |
| Profiles.CheckExtras | backend/scripts/validateProfiles.js:73-77 | each extra-key loop pushes exactly the keys the other table lacks |
| Profiles.CheckScenarios | backend/scripts/validateProfiles.js:45-70 | the scenario loop pushes exactly the issues of its specification |
| Profiles.CheckPosition | backend/scripts/validateProfiles.js:41-77 | the body for one seat pushes exactly the issues of its specification |
| Profiles.CheckPositions | backend/scripts/validateProfiles.js:36-78 | the seat loop pushes exactly the issues of its specification |
| Profiles.CheckDepth | backend/scripts/validateProfiles.js:33-85 | the body for one depth pushes exactly the issues of its specification |
| Profiles.CheckDepths | backend/scripts/validateProfiles.js:28-86 | the depth loop pushes exactly the issues of its specification |
| Profiles.CheckPlayers | backend/scripts/validateProfiles.js:25-93 | the body for one players count pushes exactly the issues of its specification |
| Profiles.CheckAllPlayers | backend/scripts/validateProfiles.js:20-94 | the players loop pushes exactly the issues of its specification |
| Profiles.ValidateProfileAgainstTemplate | backend/scripts/validateProfiles.js:17-104 | the whole comparison returns exactly the issues of its specification, or the `TypeError` it throws |
| ProfileProperties.VillainIssuesIff | backend/scripts/validateProfiles.js:59-63 | a villain seat is reported exactly when it is listed and the profile scenario lacks it |
| ProfileProperties.ScenarioVillainsIff | backend/scripts/validateProfiles.js:54-63 | a villain seat is reported exactly when the template scenario has it and the profile scenario lacks it; extra villain seats are never reported |
| ProfileProperties.UnkeyedScenarioNeedsObject | backend/scripts/validateProfiles.js:64-69 | a template scenario without villain seats only needs an object, or a falsy value read as `{}`, in the profile, and otherwise gets exactly one issue |
| ProfileProperties.MissingScenarioIff | backend/scripts/validateProfiles.js:45-49 | a scenario is reported missing exactly when the template has it and the profile seat lacks it, and then nothing else is reported about it |
| ProfileProperties.MissingPositionIff | backend/scripts/validateProfiles.js:36-40 | a seat is reported missing exactly when the template has it and the profile depth lacks it, and then nothing below it is reported |
| ProfileProperties.MissingDepthIff | backend/scripts/validateProfiles.js:28-32 | a depth is reported missing exactly when the template has it and the profile lacks it, and then nothing below it is reported |
| ProfileProperties.MissingPlayersIff | backend/scripts/validateProfiles.js:20-24 | a players count is reported missing exactly when the template has it and the profile lacks it, and then nothing below it is reported |
| ProfileProperties.ExtraIssuesIff | backend/scripts/validateProfiles.js:73-77 | a key is reported extra exactly when it is listed and the other table lacks it |
| ProfileProperties.ExtraScenarioIff | backend/scripts/validateProfiles.js:72-77 | a profile scenario is reported extra exactly when the template seat lacks it |
| ProfileProperties.ExtraPositionIff | backend/scripts/validateProfiles.js:80-85 | a profile seat is reported extra exactly when the template depth lacks it |
| ProfileProperties.ExtraDepthIff | backend/scripts/validateProfiles.js:88-93 | a profile depth is reported extra exactly when the template players node lacks it |
| ProfileProperties.PlayersKeysIff | backend/scripts/validateProfiles.js:20-101 | a players count is reported missing exactly when only the template has it, and extra exactly when only the profile has it |
| ProfileProperties.NonObjectProfileThrows | backend/scripts/validateProfiles.js:21 | when the template has a players key, a profile that is not an object makes the first `in` throw |
| ProfileProperties.SelfComparisonClean | backend/scripts/validateProfiles.js:17-104 | a table either loader accepts, compared with itself, reports nothing and throws nothing |

## Left out

- Reading files, `JSON.parse`, `loadJson` and `main` of the profile script, the servers, the command-line tools and the browser front end are not part of this model. The model starts from an already-parsed JSON value, and `LegacyRanges.RangeRepository.FromFile` takes the parsed value and the path as parameters.
- The backend's decision engine samples an action from a probability distribution, using `Math.random` and floating-point weights. backend/src/DecisionEngine.ts is not part of this model.
- The "10" = T rank alias, promised by the comment at `backend/src/domain.ts:47`, is not modelled because the code does not implement it; `HandLabelProperties.TenIsNotARank` states the code's behaviour.
- Prototype properties (`constructor`, `toString`, `__proto__`) and an array's `length` are not modelled as keys: `find` and the `in` operator of the profile script see only own keys here.
- `Number(k)` is modelled only for keys whose value is an integer. A key with an exponent, a hexadecimal or binary prefix, a non-zero fraction or `Infinity` is read as not a number.
- JsNumber.ParseNumberKey: reads a numeral exactly; JavaScript rounds integer keys above 2^53 to the nearest double, so two such keys that the model keeps apart can read as one number there.
- JsNumber.IntToString: writes every integer in plain decimal; `String` writes 10^21 and above (and -10^21 and below) in exponent form, so for depths that large the key chosen differs from the model's.
- The depth asked for is an integer in the model. The callers clamp and round it (backend/src/server.ts:108, src/server.ts:94, backend/src/cli.ts:41, src/cli.ts:32), but `Math.round(Number(q))` of a non-numeric query is NaN, and the clamp keeps NaN. With a NaN depth every `delta < bestDelta` test of `closestDepthKey` is false, so the first numeric key in `Object.keys` order wins. That NaN depth is not modelled.
- Upper-casing is modelled for ASCII letters only. Other letters are left unchanged, whereas JavaScript's `toUpperCase` maps them too.
- The `DecisionValue` union of `src/ranges/types.ts` is not checked at run time, so table leaves are kept as JSON values and the action returned is whatever the table stores.
- `profileName`, the third parameter of `validateProfileAgainstTemplate`, is accepted and unused, as in the source.
- Profiles.Message: the text pushed for each issue is modelled, but no property of it is stated. Lemmas about its prefixes were too costly for the solver.
- RangesValidation.ValidateRangesFile: its contract ties it to the function `Validation`. The statement that the loader accepts exactly the well-formed tables is the lemma `RangesValidation.ValidationPassIff`.
- DepthKeys.ClosestDepthKeyOf: it has no contract of its own. What it promises is stated by the lemmas `DepthKeys.ClosestDepthKeyNearest` and `DepthKeys.ClosestDepthKeyValue`.
- BackendRanges.RangeRepository.Find: its contract says only that a value lies under an existing players node. The full descent is stated by `BackendRanges.FindThroughPositionNode`.
- LegacyRanges.RangeRepository.Find: its contract says only that a value lies under an existing players node. The full descent is stated by `LegacyRanges.FindThroughPositionNode`.
- That a repository never changes its table and that lookups are deterministic is not stated as a lemma. It follows from the table being a `const` field and the lookups being functions.
- The `assert.ok` at the end of each `domain.ts` runs when the module loads. It is modelled as the lemma `Seats.VillainExamples`, not as a load-time check.
