# bet-track settlement engine, modelled in Dafny

bet-track records sports bets: single bets and parlays (several legs whose
odds multiply). This project models the **settlement engine** at the core of
bet-track, together with the pure helpers around it.

**Settlement, as a pure state transition over an in-memory store** (a
sequence of bets and a sequence of legs):

- the lifecycle classifier `autoStatus`;
- the free-text market normaliser `parseBetTypeToMarket`, including a
  backtracking matcher for its over/under regular expression;
- the leg decision table `settleLeg`;
- the parlay rollup `calculateParlayResult`;
- the whole reconciliation cycle `runSettlementCycle`, which selects legs,
  groups them by event, makes one provider lookup per group, settles legs,
  closes bets, writes audit entries and counts;
- the API-Football status table and reply-to-fixture mapping.

**Bet routes:**

- turning a validated bet into rows (leg numbering, the default leg);
- the status refresh on read;
- copying a validated patch onto a bet;
- ordering legs for display;
- the list page arithmetic;
- the request validators (`legSchema`, `createBetSchema`, `patchBetSchema`
  and `listQuerySchema`), as acceptance predicates with their defaults and
  normalisation.

**Dashboard:**

- the CSV export, proved to read back field for field through a CSV reader;
- the profit-and-loss fold;
- the upcoming strip;
- the list query builder, proved to be accepted by `listQuerySchema`;
- the edit payload, proved to be accepted by `patchBetSchema`.

**Modelling conventions:**

- Times are integer milliseconds. The current instant is a parameter `now`:
  one value for a whole settlement cycle.
- Odds, stakes and returns are exact `real`s. `toFixed(2)` rounds half away
  from zero to whole cents.
- Text handling (`trim`, `toLowerCase`, `toUpperCase`, `\s`) covers ASCII
  only. `length` counts UTF-16 code units, and `Number(text)` reads decimal,
  exponent and `0x`/`0o`/`0b` notation exactly.
- The results provider is a function from event id to
  `ProviderError | Absent | Found(fixture)`. `NoneProvider` always answers
  `Absent`.
- Row ids, `new Date(text)`, `toISOString`, `String(number)` and zod's
  ISO-date check are parameters of the members that use them.

Modules, one per source file: `Domain`, `MarketParser`, `Rules`, `Parlay`
and `Runner` (runner.ts), `Providers`, `ApiFootball`, `Schemas`, `Server`,
`ClientApi` (api.ts) and `Dashboard` (App.tsx). `Wrappers`, `Text`
(JavaScript's string primitives, `Number(text)` and `length`), `Sequences`,
`Products` and `Entities` hold shared helpers and the row types.

## Model

| member | source | states |
|---|---|---|
| Domain.AutoStatus | backend/src/lib/domain.ts:5-11 | a stored `settled` stays settled. Otherwise the status is never settled, and: upcoming iff the match starts after now; live iff kick-off is at or before now and less than three hours ago; finished iff kick-off was at least three hours ago |
| Domain.AutoStatusMonotone | backend/src/lib/domain.ts:8-11 | for a fixed match time, a later instant never moves the status back along upcoming, live, finished |
| Domain.AutoStatusShift | backend/src/lib/domain.ts:7-8 | only the distance between kick-off and now matters: shifting both by the same amount changes nothing |
| Domain.AutoStatusBoundaries | backend/src/lib/domain.ts:9-11 | kick-off itself is live, one millisecond before the three-hour mark is still live, the exact mark is finished, and one millisecond before kick-off is upcoming |
| MarketParser.MatchAtIsGreedy | backend/src/settlement/marketParser.ts:8 | at every position, the backtracking matcher for `\b(over\|under)\s*(\d+(?:\.\d+)?)\b` agrees with the greedy reading: the longest spaces, the longest digit run, and the fraction kept only when a word boundary follows it |
| MarketParser.SearchFrom | backend/src/settlement/marketParser.ts:8 | finds the leftmost match at or after a position: no earlier position matches, and the match found is well formed |
| MarketParser.ParseOverUnder | backend/src/settlement/marketParser.ts:7-15 | gives a market iff the pattern matches at some position. The market is `over_under` with a line, and the selection is "over" or "under" |
| MarketParser.ParseOverUnderLeftmost | backend/src/settlement/marketParser.ts:7-15 | when the first match starts at position p, the market is built from the match at p: its keyword as the selection and its number as the line |
| MarketParser.ParseOverUnderHasLeftmost | backend/src/settlement/marketParser.ts:7-15 | a market is given iff some position is the leftmost match, and then it is the one built from that match |
| MarketParser.ParseBetTypeToMarket | backend/src/settlement/marketParser.ts:17-30 | never fails. The line is present iff the market is over_under. An over/under match in the trimmed, lower-cased text takes precedence. The market is custom iff there is no match and no alias, and then the selection is the trimmed text with its casing kept |
| MarketParser.AliasTable | backend/src/settlement/marketParser.ts:23-27 | each alias (draw/x; home win/home/1; away win/away/2; the btts yes and btts no lists), once trimmed and lower-cased, gives its market and selection with no line |
| MarketParser.AliasTablesDisjoint | backend/src/settlement/marketParser.ts:23-27 | no alias appears in two lists, so the order the lists are tried in does not matter |
| MarketParser.AliasesHaveNoOverUnder | backend/src/settlement/marketParser.ts:20-27 | no alias contains an over/under match, so putting the pattern first never hides an alias |
| MarketParser.NoDigitNoOverUnder | backend/src/settlement/marketParser.ts:8 | text without a digit never matches the pattern |
| MarketParser.ParseIgnoresCaseAndPadding | backend/src/settlement/marketParser.ts:18 | two texts equal after trimming and lower-casing get the same market and line, and the same selection unless the market is custom |
| MarketParser.FractionGivenBack | backend/src/settlement/marketParser.ts:8-13 | "over 2.5x" gives over_under / over / line 2: backtracking drops the fraction because a letter follows it |
| MarketParser.NoBoundaryNoMatch | backend/src/settlement/marketParser.ts:8-29 | any text that trims and lower-cases to "over 25x" has no match (no word boundary after the digits) and becomes a custom market whose selection is the trimmed text, casing kept |
| MarketParser.CaseAndPaddingExample | backend/src/settlement/marketParser.ts:18-21 | "  OVER 2.5 " and "over 2.5" both give over_under / over / line 2.5 |
| MarketParser.WholeTextAliases | backend/src/settlement/marketParser.ts:23-29 | an alias must be the whole text: "home team" is custom |
| MarketParser.PaddedAlias | backend/src/settlement/marketParser.ts:18-23 | " Draw" gives 1x2 / draw |
| Rules.SettleLeg | backend/src/settlement/rules.ts:9-44 | pending iff the fixture is not finished. A finished fixture missing a score needs review. The outcome is never push or void |
| Rules.MatchWinnerPartition | backend/src/settlement/rules.ts:19-22 | in 1x2/match_winner, draw wins iff the scores are level, home iff home > away, away iff away > home. Of the three keywords exactly one wins and the other two lose |
| Rules.KeywordSelections | backend/src/settlement/rules.ts:19-22 | the three 1x2 keywords settle on the score relation alone, whatever the team names |
| Rules.TeamNameSelection | backend/src/settlement/rules.ts:6-25 | a non-keyword selection equal to the home team name (after trimming, lower-casing and collapsing spaces) settles as "home". One equal only to the away name settles as "away". One equal to neither needs review |
| Rules.OverUnderAgainstLine | backend/src/settlement/rules.ts:28-34 | a missing line needs review. Over wins iff the total is above the line, under iff below. A total on the line loses both. The two never both win |
| Rules.BothTeamsToScoreOpposite | backend/src/settlement/rules.ts:36-41 | "yes" wins iff both sides scored, and "no" always settles the opposite way |
| Rules.SettleIgnoresCase | backend/src/settlement/rules.ts:16-17 | lower-casing the market and the selection first changes no outcome |
| Rules.UnknownNeedsReview | backend/src/settlement/rules.ts:19-43 | an unknown market, or a selection a known market does not recognise, needs review once the fixture is finished and scored |
| Parlay.CalculateParlayResult | backend/src/settlement/runner.ts:6-34 | not done iff some leg is pending. Once done: state needs_review iff some leg needs review, iff the result is void (stake returned); otherwise the state is settled. With no leg needing review, lost iff some leg is lost (no return), and push iff no leg is lost or won (stake returned). Won implies a won leg and no lost leg, and the return is the stake times the product of the won legs' odds, rounded to cents |
| Parlay.WonOddsIsFilterMap | backend/src/settlement/runner.ts:19-21 | the odds multiplied are exactly those of the won legs, in leg order |
| Parlay.ToFixed2 | backend/src/settlement/runner.ts:31 | the result is whole cents and within half a cent of the input, ties going away from zero, which determines it uniquely |
| Parlay.ToFixed2OfCents | backend/src/settlement/runner.ts:31 | an amount already in whole cents comes back unchanged |
| Parlay.RollupPermutation | backend/src/settlement/runner.ts:6-34 | reordering the legs gives the same rollup: the same done flag, result, return and state |
| Products.ProductConcat | backend/src/settlement/runner.ts:21 | the product of two lists joined is the product of their products |
| Products.ProductPermutation | backend/src/settlement/runner.ts:21 | two lists holding the same factors, in any order, have the same product |
| Parlay.WonOddsPermutation | backend/src/settlement/runner.ts:19-21 | leg lists that are permutations of each other give the same multiset of won-leg odds |
| Parlay.NeutralLeg | backend/src/settlement/runner.ts:19-26 | adding a push or void leg never changes the rollup (a factor of 1 in the product) |
| Parlay.SingleLegRollup | backend/src/settlement/runner.ts:6-34 | a one-leg bet follows its leg: won returns stake times odds in cents, lost loses, needs review voids for review, push or void pushes, pending stays open |
| Parlay.AllWonReturn | backend/src/settlement/runner.ts:19-33 | when every leg is won, the return is the stake times the product of all the odds, rounded to cents |
| Runner.EligibleLegs | backend/src/settlement/runner.ts:45-53 | exactly the legs that are pending, carry an event id and belong to a bet that exists and is not deleted |
| Runner.SelectLegs | backend/src/settlement/runner.ts:45-56 | at most 300 legs, all drawn from the eligible ones (none more often than it occurs), sorted by event time. All of them when there are at most 300. Otherwise exactly 300, and every leg left out starts no earlier than any leg taken |
| Runner.AddToGroups | backend/src/settlement/runner.ts:59-63 | appends the leg to the group with its key, or opens a new group at the end iff no group has that key. Keys stay distinct |
| Runner.GroupLegs | backend/src/settlement/runner.ts:58-64 | distinct keys, non-empty groups, each group holding exactly the legs with its key in scan order, every leg's key present, and the legs as a whole a permutation of the input |
| Runner.GroupKeyInjective | backend/src/settlement/runner.ts:60 | when neither provider label contains ':', two legs share a key iff they name the same provider and the same event |
| Runner.GroupKeyAmbiguous | backend/src/settlement/runner.ts:60 | a label containing ':' can merge two different events into one group ("a:b" + "c" and "a" + "b:c") |
| Runner.UpdateLeg | backend/src/settlement/runner.ts:90-99 | with a decided outcome, every row either stays as it was or becomes a leg update stamped with now; an id that no row carries changes nothing |
| Runner.ApplyFixture | backend/src/settlement/runner.ts:86-101 | the number of updates is at most the number of legs, and all of them when the fixture is finished. Rows of other legs are unchanged. Every changed row is a leg update stamped with `now` |
| Runner.ApplyFixtureSettles | backend/src/settlement/runner.ts:86-101 | against a finished fixture, every row carrying a leg's id is that leg's update: its outcome, the fixture's scores, checked now, settled now unless it needs review |
| Runner.ResolveGroup | backend/src/settlement/runner.ts:70-101 | an empty event id skips the group with no lookup. Otherwise exactly one lookup is made. An error, an absent fixture or an unfinished fixture leaves every row and writes nothing. A finished one updates every leg of the group |
| Runner.FinishedFixtureSettlesGroup | backend/src/settlement/runner.ts:82-101 | for a finished fixture, each leg row of the group gets its own outcome and the fixture's scores, and `settledAt` is null iff the outcome needs review |
| Runner.Lookups | backend/src/settlement/runner.ts:70-76 | never looks up an empty id, and, when group keys are distinct (as `GroupLegs` makes them), never twice for the same key |
| Runner.LookupsInOrder | backend/src/settlement/runner.ts:70-76 | the lookups are exactly one per group whose event id is not empty, in group order |
| Runner.ResolveGroups | backend/src/settlement/runner.ts:70-102 | the lookups are exactly `Lookups` of the groups. The count of updated legs is the total size of the groups whose event is finished. With no group settling, nothing changes. Rows outside the groups are unchanged. Every changed row is a leg update |
| Runner.ResolveGroupsSettles | backend/src/settlement/runner.ts:70-101 | with leg ids unique across the groups, every row carrying the id of a leg in a group whose event is finished ends as that leg settled against the group's fixture: its outcome, the scores, checked now, settled now unless it needs review |
| Runner.ResolveStore | backend/src/settlement/runner.ts:45-102 | the lookups are those of the selected legs grouped by event, and the update count is the number of those legs in groups whose event is finished. Updates never exceed the legs scanned. Rows not selected are unchanged, and a provider that finds nothing changes nothing |
| Runner.CloseBets | backend/src/settlement/runner.ts:104-133 | a bet changes iff it is a candidate (not deleted, not settled, with legs) whose rollup is done. It then becomes settled at now and carries exactly the rollup's result, return and state, every other column kept. Settled and deleted bets are never touched |
| Runner.AuditTrail | backend/src/settlement/runner.ts:135-146 | one entry per closed bet, each with action `auto_settled` by the actor |
| Runner.AuditEntriesClosedBets | backend/src/settlement/runner.ts:135-146 | every audit entry belongs to a bet the cycle closes and records that bet's rollup |
| Runner.ClosedBetsAudited | backend/src/settlement/runner.ts:115-146 | every bet the cycle closes has its audit entry |
| Runner.RunSettlementCycle | backend/src/settlement/runner.ts:36-158 | table sizes are kept. The actor defaults to `system:settlement`. The lookups are one per selected event group with an id, in group order, and `updatedLegs` counts the selected legs whose event is finished. The counters satisfy updated ≤ scanned ≤ 300 and review ≤ settled = the number of audit entries. Leg rows change only by leg updates. Settled or deleted bets are unchanged, and a changed bet is settled |
| Runner.CycleSettlesFinishedEvents | backend/src/settlement/runner.ts:36-101 | with unique leg ids, after a cycle every selected leg whose event is finished carries its own outcome against that fixture, the scores and the timestamps, and the update count is the number of such legs |
| Runner.IneligibleLegsUnchanged | backend/src/settlement/runner.ts:45-56 | with unique leg ids, a leg the cycle does not select (already decided, no event id, or on a deleted bet) is left exactly as it was |
| Runner.NothingFoundLeavesLegs | backend/src/settlement/runner.ts:74-84 | a provider that never finds a fixture changes no leg and reports no updates |
| Runner.NoneProviderLeavesLegs | backend/src/settlement/providers/none.ts:3-8 | the "none" provider changes no leg |
| Runner.NothingLeftToClose | backend/src/settlement/runner.ts:104-133 | after a cycle, no bet remains that its legs would close |
| Runner.CycleIdempotent | backend/src/settlement/runner.ts:104-146 | a second cycle that learns nothing new changes nothing and writes no audit entry |
| ApiFootball.StatusFromShort | backend/src/settlement/providers/apiFootball.ts:22-27 | finished iff the upper-cased code (missing read as empty) is in the finished table; live iff in the live table; scheduled otherwise |
| ApiFootball.KnownCodes | backend/src/settlement/providers/apiFootball.ts:22-27 | FT, AET, PEN, CANC, ABD, AWD and WO are finished, also in lower case. 1H, 2H, HT, ET, BT, P and LIVE are live. Any other code, such as NS, is scheduled |
| ApiFootball.CodeTablesDisjoint | backend/src/settlement/providers/apiFootball.ts:24-25 | no code is in both tables |
| ApiFootball.StatusIgnoresCase | backend/src/settlement/providers/apiFootball.ts:23 | lower-casing or upper-casing the code changes nothing |
| ApiFootball.MissingCodeScheduled | backend/src/settlement/providers/apiFootball.ts:23-26 | a missing or empty code is scheduled |
| ApiFootball.FirstFixtureId | backend/src/settlement/providers/apiFootball.ts:49-52 | present iff the reply has a first item with a fixture whose id is present and not zero (JavaScript truthiness), and then it is that id |
| ApiFootball.FixtureFromReply | backend/src/settlement/providers/apiFootball.ts:44-66 | an error iff the HTTP status is not OK. Absent iff OK with no first fixture id. Otherwise the event id is `String(id)`, the id's decimal numeral, which `Number` reads back as the id; the status is mapped, team names are empty when missing, each score is the first item's goals for that side (null when missing), the start is the parsed date iff the date is non-empty, and the finish time is now iff finished |
| ApiFootball.FullTimeReplyScored | backend/src/settlement/providers/apiFootball.ts:54-66 | a full-time reply with both goals gives a finished fixture carrying exactly those two goal counts, finished now |
| Schemas.EnumNamesRoundTrip | backend/src/lib/schemas.ts:20-31 | every kind, confidence, status and result reads back from its wire name |
| Schemas.ParseLeg | backend/src/lib/schemas.ts:7-16 | succeeds iff teams are 3–200 UTF-16 code units, market 2–80, selection 1–120, odds ≥ 1.01 and the event time is an ISO date. The fields are then copied, with absent and null optional members read as null |
| Schemas.ParseLegs | backend/src/lib/schemas.ts:35 | succeeds iff every leg does, and then parses each leg in order |
| Schemas.CreateError | backend/src/lib/schemas.ts:18-45 | reports no error iff the body is acceptable: every member valid, and a parlay with at least two legs |
| Schemas.BuildCreate | backend/src/lib/schemas.ts:18-36 | the kind is the one named, single when missing. Teams, bet type, odds, stake and match time are copied, and the currency is upper-cased and, under the ASCII case mapping, 3 code units long. Confidence, status and result are present iff given and then are the value with the given name. Notes, uploader, return, provider and provider reference are the given value or null. Legs are present iff given and then are the parsed legs. A parlay has at least two legs |
| Schemas.ParseCreate | backend/src/lib/schemas.ts:18-45 | succeeds iff the body is acceptable, yielding the built bet; a failure names the first rejected member |
| Schemas.ParlayNeedsTwoLegs | backend/src/lib/schemas.ts:37-45 | a parlay with no legs or fewer than two is rejected |
| Schemas.KindDefault | backend/src/lib/schemas.ts:20 | a missing kind becomes single, and a null kind is rejected |
| Schemas.ParsePatch | backend/src/lib/schemas.ts:47-61 | succeeds iff every present member is valid and at least one member is present. Presence and explicit nulls are kept, a given kind, status or result becomes the value with that name, the other members are copied, and the currency is upper-cased |
| Schemas.EmptyPatchRejected | backend/src/lib/schemas.ts:61 | a patch with no members is rejected |
| Schemas.CoercedInt | backend/src/lib/schemas.ts:74-75 | an absent value takes the default. A given one is accepted iff `Number(text)` is a finite integer within bounds, and it is then that number |
| Schemas.CoercedNumber | backend/src/lib/schemas.ts:74-75 | a text that `Number` reads as an integer within the bounds is accepted as that integer |
| Schemas.ExponentLimit | backend/src/lib/schemas.ts:74 | `limit=1e2` is accepted as 100 |
| Schemas.HexOffset | backend/src/lib/schemas.ts:75 | `offset=0x10` is accepted as 16 |
| Schemas.InfiniteLimit | backend/src/lib/schemas.ts:74 | `limit=Infinity` is rejected: it is not an integer |
| Schemas.ParseListQuery | backend/src/lib/schemas.ts:63-78 | succeeds iff status, dates, limit, offset, sort and order are each acceptable. On success the status is present iff given and then is the one named, a given sort or order is the one named, a given limit or offset is the integer `Number` reads from it, from, to and search are copied, the limit is in [1, 200], and defaults are 50, 0, match_time and asc |
| Schemas.DefaultListQuery | backend/src/lib/schemas.ts:74-77 | an empty query gives limit 50, offset 0, match_time, asc |
| Schemas.LimitRoundTrip | backend/src/lib/schemas.ts:74 | a limit written as an integer's text is accepted iff it lies in [1, 200], and reads back as that integer |
| Schemas.EmptyNumberIsZero | backend/src/lib/schemas.ts:74-75 | an empty limit is rejected (it reads as 0), and an empty offset reads as 0 |
| Text.IntToStringIsNumber | backend/src/lib/schemas.ts:74-75 | `Number(String(n))` is n for every integer |
| Text.ExponentNumeral | backend/src/lib/schemas.ts:74-75 | `Number` reads "<m>e<k>" as m·10^k exactly |
| Text.HundredInExponentForm | frontend/src/App.tsx:104 | "1e2" is 100 |
| Text.QuarterInExponentForm | frontend/src/App.tsx:104 | " 2.5E-1 " is 0.25: padding, an upper-case marker and a negative exponent |
| Text.HexNumber | backend/src/lib/schemas.ts:74-75 | "0x1F" is 31 |
| Text.BinaryNumber | backend/src/lib/schemas.ts:74-75 | "0B101" is 5 |
| Text.SignedHexIsNaN | backend/src/lib/schemas.ts:74-75 | "-0x10" is not a number: no sign before a radix prefix |
| Text.BarePrefixIsNaN | backend/src/lib/schemas.ts:74-75 | "0x" is not a number: a prefix needs a digit |
| Text.WordIsNaN | backend/src/lib/schemas.ts:74-75 | unpadded text starting with anything but a digit, a point or a sign has no finite value |
| Text.InfinityIsNotFinite | backend/src/lib/schemas.ts:74-75 | "Infinity" has no finite value |
| Text.EmptyExponentIsNaN | backend/src/lib/schemas.ts:74-75 | "1e" is not a number: an exponent needs a digit |
| Text.JsLengthBounds | backend/src/lib/schemas.ts:8-10 | the length zod compares counts each character as one or two UTF-16 code units |
| Text.JsLengthBmp | backend/src/lib/schemas.ts:8-10 | text inside the Basic Multilingual Plane has as many code units as characters |
| Text.JsLengthAstral | backend/src/lib/schemas.ts:8-10 | a character outside the Basic Multilingual Plane makes the code-unit length exceed the character count |
| Text.JsLengthUpper | backend/src/lib/schemas.ts:25 | under the ASCII case mapping, upper-casing keeps the code-unit length, so an accepted currency stays 3 long |
| Text.EmojiLength | backend/src/lib/schemas.ts:21 | "a" followed by an emoji is 3 code units long, so it meets the teams minimum |
| Server.SubmittedLegs | backend/src/server.ts:143-154 | one row per submitted leg, numbered 1..n in order, pending, with the leg's fields copied and the bet's provider when the leg names none |
| Server.ToCreateInput | backend/src/server.ts:120-162 | the bet is pending settlement, not deleted, with the payload's columns. Its status is the given one or `autoStatus(matchTime)`, and the uploader defaults to the actor. There is at least one leg, numbered from 1 and pending: the submitted legs when there are any, else the single default leg |
| Server.DefaultLegFromBet | backend/src/server.ts:104-118 | the default leg's market comes from `parseBetTypeToMarket(betType)`, with a line iff over_under. Odds, event time, provider and event id come from the bet |
| Server.MapBetLegs | backend/src/server.ts:84-85 | legs sorted by leg order, as a permutation of the stored legs |
| Server.CreatedLegsReadBackInOrder | backend/src/server.ts:84-85 | legs as created are already in display order |
| Server.CreatedLegsAwaitSettlement | backend/src/server.ts:143-159 | every created leg with an event id is pending, belongs to the new bet, and, once the bet and legs are stored, is eligible for the next settlement cycle (pending, with an event id, on a bet that is not deleted) |
| Server.RefreshAutoStatus | backend/src/server.ts:173-184 | writes iff the stored status is not settled and differs from the recomputed one. The bet returned carries the recomputed status, and is unchanged when nothing is written |
| Server.RefreshProperties | backend/src/server.ts:173-184 | a settled bet is returned untouched, a non-settled one never becomes settled, and a second refresh at the same instant writes nothing |
| Server.RefreshMonotone | backend/src/server.ts:174 | a later refresh never moves the status back |
| Server.ParsedPatchNullOnlyWhereAllowed | backend/src/lib/schemas.ts:49-59 | a validated patch can carry null only for result, actual return and notes |
| Server.ApplyPatch | backend/src/server.ts:353-364 | absent members leave columns unchanged, present ones replace them, and result, return and notes are cleared by an explicit null. Columns a patch cannot reach are kept |
| Server.PatchLaws | backend/src/server.ts:353-364 | the empty patch is the identity, and applying a patch twice equals applying it once |
| Server.PatchWithOwnValues | backend/src/server.ts:353-364 | patching a bet with its own values gives it back |
| Server.PageNumber | backend/src/server.ts:328 | the page number p ≥ 1 satisfies (p−1)·limit ≤ offset < p·limit |
| Server.PageCount | backend/src/server.ts:329 | at least one page, enough pages for the total, no empty last page when the total is positive, and exactly one page when it is 0 |
| Server.PageWithinPages | backend/src/server.ts:328-329 | an offset inside the total lands on a page no later than the last |
| ClientApi.Esc | frontend/src/api.ts:83-86 | quoted iff the text contains a comma, a double quote or LF; otherwise the text itself (empty for a missing value) |
| ClientApi.QuotedRoundTrip | frontend/src/api.ts:85 | a quoted field with doubled quotes reads back as the original text |
| ClientApi.PlainRoundTrip | frontend/src/api.ts:85 | an unquoted field without comma or LF reads back up to the next separator |
| ClientApi.FieldRoundTrip | frontend/src/api.ts:83-86 | every escaped value reads back as its text, whatever separator follows |
| ClientApi.LineRoundTrip | frontend/src/api.ts:88 | a line of escaped values reads back as one record of their texts |
| ClientApi.DocumentRoundTrip | frontend/src/api.ts:90 | lines joined by LF read back as one record per line |
| ClientApi.HeaderLine | frontend/src/api.ts:82-87 | the header line is exactly the column names joined by commas, no name being quoted |
| ClientApi.ColumnPlain | frontend/src/api.ts:82-85 | no column name needs quoting |
| ClientApi.HeaderTexts | frontend/src/api.ts:82 | the header row's texts are the column names |
| ClientApi.BetRow | frontend/src/api.ts:88 | a bet row has exactly twelve fields |
| ClientApi.RowsShape | frontend/src/api.ts:87-88 | the header first, then one row per bet in input order |
| ClientApi.RecordsShape | frontend/src/api.ts:82-88 | the expected records are the header and then each bet's twelve field texts |
| ClientApi.ExportReadsBack | frontend/src/api.ts:87-90 | the document reads back as the texts of all rows |
| ClientApi.CsvText | frontend/src/api.ts:81-90 | the exported text parses as CSV into one record more than there are bets: the column names, then each bet's twelve field texts in input order |
| Dashboard.Stats | frontend/src/App.tsx:138-147 | the loop computes the total stake of every bet and the total profit and loss |
| Dashboard.TotalsConcat | frontend/src/App.tsx:141-145 | both totals split over concatenation, so each bet contributes independently |
| Dashboard.PnlOnlyFromDecided | frontend/src/App.tsx:143-144 | only won and lost bets move the profit and loss; push, void and unsettled bets do not |
| Dashboard.WonReturnCases | frontend/src/App.tsx:143 | a won bet with a recorded return of 0 loses its stake; with none recorded it gains stake·odds − stake |
| Dashboard.UpcomingStrip | frontend/src/App.tsx:133-136 | the first min(6, n) upcoming or live bets, in list order |
| Dashboard.StripShowsAllWhenFew | frontend/src/App.tsx:134 | with at most six upcoming or live bets, every one is shown |
| Dashboard.StripIsStable | frontend/src/App.tsx:134 | appending bets to the list never changes the strip already shown, only extends it |
| Dashboard.QueryParams | frontend/src/App.tsx:41-51 | the parameters always end with sort, order and limit 200 |
| Dashboard.ParamOfQuery | frontend/src/App.tsx:43-49 | status is present iff not "all"; search, from and to iff non-empty; sort, order and limit always |
| Dashboard.QueryParamsReadBack | frontend/src/App.tsx:41-51 | the server reads every parameter the dashboard sets under its name, and the ones left out (and offset) as absent |
| Dashboard.DashboardQueryAccepted | frontend/src/App.tsx:41-51 | a query built from valid filters passes `listQuerySchema`, with limit 200, offset 0, and a status filter iff status is not "all" |
| Dashboard.FullPageQuery | backend/src/lib/schemas.ts:63-78 | a query with valid members, limit "200" and no offset is accepted with limit 200, offset 0, and a status filter iff one is given |
| Dashboard.PageLimitNumeral | frontend/src/App.tsx:49 | the limit text is the numeral of 200 |
| Dashboard.EditPayload | frontend/src/App.tsx:92-106 | ten keys, no kind. Teams, bet type, odds, stake and status are copied, the match time is the form's time converted by `toIso`, and the currency is upper-cased. The result is null iff empty and otherwise the form's result; the notes are null iff empty or absent and otherwise the form's notes. The return is present iff the text is non-empty and a finite number (so " " is sent as 0), and then is the value `Number` reads from it |
| Dashboard.EditPayloadAccepted | frontend/src/App.tsx:100-105 | a valid form's payload passes `patchBetSchema`. Copied onto a bet, it clears the result, notes and return when they are empty or absent and sets the upper-cased currency |

## Left out

- HTTP plumbing (routing, helmet, CORS, rate limiting, JWT, bcrypt, the error hook and logging) and Prisma persistence. The store is two in-memory sequences, and the `where`/`orderBy`/`take` clauses are predicates and a stable sort.
- The provider's HTTP request and JSON decoding: the API-Football reply arrives already decoded as a record of optional members.
- The settlement timer, the manual settlement route, and their possible overlap. The model is sequential and claims no mutual exclusion and no provider timeout.
- Wall clock and id generation: `now`, fresh ids and the date parser are parameters, and one `now` stands for every `new Date()` of a cycle.
- IEEE floating point: amounts are exact reals, so binary rounding effects in `toFixed(2)` and in `stake * odds` are not modelled. `Number(text)` gives the exact decimal value: rounding to the nearest double and the overflow of huge exponents to `Infinity` are not modelled, so `limit=1e400` is rejected as out of range rather than as not an integer, and `offset=1e400` is accepted.
- Unicode: trimming (also inside `Number(text)`), case mapping and `\s` handle ASCII characters only. String lengths are counted in UTF-16 code units, as zod counts them.
- Text.JsLengthUpper: holds only under the ASCII case mapping. zod checks `.length(3)` before upper-casing, and full Unicode upper-casing can lengthen text ("ßab" becomes "SSAB"), so the program may store a 4-unit currency.
- zod's full issue list: a rejected body yields one message naming the first failing member. Members of the wrong JSON type and unknown keys are not modelled.
- Zod's ISO-datetime check, `new Date(text)` validity, `toISOString` and `String(number)` are abstract parameters.
- Dashboard.EditPayload: `toIso` is total, whereas `toISOString` throws a RangeError on an invalid date and then no PATCH is sent; that failure path is not modelled.
- URLSearchParams percent-encoding: query parameters are modelled as name/value pairs in insertion order.
- The `mapBet` output fields other than the leg order, and the PATCH route's audit log entry.
- The extraction service, environment loading, the password and seed scripts, and the React rendering and formatting.
- providerFactory.ts is not part of this model: selecting a provider from configuration is plain I/O, and both providers it can return are modelled (`NoneProvider`, `ApiFootball.ApiFootballProvider`).
- Server.MapBetLegs: it states sortedness and permutation but not stability, which `Array.prototype.sort` guarantees for equal leg orders.
- Provider lookups are functions, so a provider answers the same way for the same event id throughout one cycle.
