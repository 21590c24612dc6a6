/** The request validators: what a leg, a new bet, a bet patch and a list
    query must look like, the defaults they fill in and the normalisation
    they apply. A decoded JSON member is absent, an explicit `null`, or a
    value of the expected JSON type; members of the wrong JSON type and
    unknown keys are not modelled. A rejection names the first failing
    member in declaration order. */
module Schemas {
  import opened Wrappers
  import opened Text
  import opened Domain
  import opened Entities

  /** One member of a decoded body. */
  datatype Field<+T> = Missing | Null | Given(value: T)

  /** `.optional().nullable()` once parsed: absent and `null` both read as
      no value. */
  function Opt<T>(f: Field<T>): (r: Option<T>)
    ensures r.Some? <==> f.Given?
    ensures r.Some? ==> r.value == f.value
  {
    if f.Given? then Some(f.value) else None
  }

  /** zod's `.min(lo).max(hi)` on a string, which counts UTF-16 code units. */
  predicate LenIn(s: string, lo: nat, hi: nat) {
    lo <= JsLength(s) <= hi
  }

  /** The smallest odds a bet or leg may carry. */
  const MinOdds: real := 1.01

  // ---------------------------------------------------------------------
  // Enumerations and their wire names
  // ---------------------------------------------------------------------

  function KindName(k: BetKind): string {
    match k
    case Single => "single"
    case Parlay => "parlay"
  }

  function KindOf(s: string): (r: Option<BetKind>)
    ensures r.Some? ==> KindName(r.value) == s
  {
    if s == "single" then Some(Single) else if s == "parlay" then Some(Parlay) else None
  }

  function ConfidenceName(c: Confidence): string {
    match c
    case High => "high"
    case Medium => "medium"
    case Low => "low"
  }

  function ConfidenceOf(s: string): (r: Option<Confidence>)
    ensures r.Some? ==> ConfidenceName(r.value) == s
  {
    if s == "high" then Some(High)
    else if s == "medium" then Some(Medium)
    else if s == "low" then Some(Low)
    else None
  }

  function StatusName(s: BetStatus): string {
    match s
    case Upcoming => "upcoming"
    case Live => "live"
    case Finished => "finished"
    case Settled => "settled"
  }

  function StatusOf(s: string): (r: Option<BetStatus>)
    ensures r.Some? ==> StatusName(r.value) == s
  {
    if s == "upcoming" then Some(Upcoming)
    else if s == "live" then Some(Live)
    else if s == "finished" then Some(Finished)
    else if s == "settled" then Some(Settled)
    else None
  }

  function ResultName(r: BetResult): string {
    match r
    case BetWon => "won"
    case BetLost => "lost"
    case BetPush => "push"
    case BetVoid => "void"
  }

  function ResultOf(s: string): (r: Option<BetResult>)
    ensures r.Some? ==> ResultName(r.value) == s
  {
    if s == "won" then Some(BetWon)
    else if s == "lost" then Some(BetLost)
    else if s == "push" then Some(BetPush)
    else if s == "void" then Some(BetVoid)
    else None
  }

  /** Every enumeration value is accepted under its wire name, so the names
      and the parsers are inverse. */
  lemma EnumNamesRoundTrip(k: BetKind, c: Confidence, s: BetStatus, r: BetResult)
    ensures KindOf(KindName(k)) == Some(k)
    ensures ConfidenceOf(ConfidenceName(c)) == Some(c)
    ensures StatusOf(StatusName(s)) == Some(s)
    ensures ResultOf(ResultName(r)) == Some(r)
  {
  }

  /** An `.optional().nullable()` enumeration member. */
  function OptEnum<T>(f: Field<string>, parse: string -> Option<T>): Result<Option<T>, ()> {
    match f
    case Given(s) => if parse(s).Some? then Success(Some(parse(s).value)) else Failure(())
    case _ => Success(None)
  }

  // ---------------------------------------------------------------------
  // Legs
  // ---------------------------------------------------------------------

  datatype LegInput = LegInput(
    teams: Field<string>,
    marketType: Field<string>,
    selection: Field<string>,
    line: Field<real>,
    odds: Field<real>,
    eventTime: Field<string>,
    provider: Field<string>,
    providerEventId: Field<string>)

  /** A validated leg. */
  datatype LegData = LegData(
    teams: string,
    marketType: string,
    selection: string,
    line: Option<real>,
    odds: real,
    eventTime: string,
    provider: Option<string>,
    providerEventId: Option<string>)

  /** What `legSchema` accepts; `isDateTime` is the ISO-8601-with-offset check. */
  predicate LegAcceptable(l: LegInput, isDateTime: string -> bool) {
    && l.teams.Given? && LenIn(l.teams.value, 3, 200)
    && l.marketType.Given? && LenIn(l.marketType.value, 2, 80)
    && l.selection.Given? && LenIn(l.selection.value, 1, 120)
    && l.odds.Given? && l.odds.value >= MinOdds
    && l.eventTime.Given? && isDateTime(l.eventTime.value)
  }

  /** `legSchema.parse`, member by member. */
  function ParseLeg(l: LegInput, isDateTime: string -> bool): (r: Result<LegData, string>)
    ensures r.Success? <==> LegAcceptable(l, isDateTime)
    ensures r.Success? ==>
      && r.value.teams == l.teams.value && r.value.marketType == l.marketType.value
      && r.value.selection == l.selection.value && r.value.odds == l.odds.value
      && r.value.eventTime == l.eventTime.value
      && r.value.line == Opt(l.line) && r.value.provider == Opt(l.provider)
      && r.value.providerEventId == Opt(l.providerEventId)
  {
    if !(l.teams.Given? && LenIn(l.teams.value, 3, 200)) then Failure("teams")
    else if !(l.marketType.Given? && LenIn(l.marketType.value, 2, 80)) then Failure("market_type")
    else if !(l.selection.Given? && LenIn(l.selection.value, 1, 120)) then Failure("selection")
    else if !(l.odds.Given? && l.odds.value >= MinOdds) then Failure("odds")
    else if !(l.eventTime.Given? && isDateTime(l.eventTime.value)) then Failure("event_time")
    else
      Success(LegData(l.teams.value, l.marketType.value, l.selection.value, Opt(l.line),
                      l.odds.value, l.eventTime.value, Opt(l.provider), Opt(l.providerEventId)))
  }

  /** `z.array(legSchema)`: every element must pass; order is kept. */
  function ParseLegs(ls: seq<LegInput>, isDateTime: string -> bool): (r: Result<seq<LegData>, string>)
    ensures r.Success? <==> forall i :: 0 <= i < |ls| ==> LegAcceptable(ls[i], isDateTime)
    ensures r.Success? ==> (|r.value| == |ls|
      && forall i :: 0 <= i < |ls| ==> Success(r.value[i]) == ParseLeg(ls[i], isDateTime))
  {
    if |ls| == 0 then Success([])
    else
      match ParseLeg(ls[0], isDateTime)
      case Failure(e) => Failure(e)
      case Success(first) =>
        match ParseLegs(ls[1..], isDateTime)
        case Failure(e) =>
          assert forall i :: 1 <= i < |ls| ==> ls[1..][i - 1] == ls[i];
          Failure(e)
        case Success(rest) =>
          assert forall i :: 1 <= i < |ls| ==> ls[1..][i - 1] == ls[i];
          Success([first] + rest)
  }

  // ---------------------------------------------------------------------
  // Creating a bet
  // ---------------------------------------------------------------------

  datatype CreateInput = CreateInput(
    kind: Field<string>,
    teams: Field<string>,
    betType: Field<string>,
    odds: Field<real>,
    stake: Field<real>,
    currency: Field<string>,
    matchTime: Field<string>,
    confidence: Field<string>,
    notes: Field<string>,
    uploadedBy: Field<string>,
    status: Field<string>,
    result: Field<string>,
    actualReturn: Field<real>,
    provider: Field<string>,
    providerRef: Field<string>,
    legs: Field<seq<LegInput>>)

  /** A validated new bet. */
  datatype CreateBet = CreateBet(
    kind: BetKind,
    teams: string,
    betType: string,
    odds: real,
    stake: real,
    currency: string,
    matchTime: string,
    confidence: Option<Confidence>,
    notes: Option<string>,
    uploadedBy: Option<string>,
    status: Option<BetStatus>,
    result: Option<BetResult>,
    actualReturn: Option<real>,
    provider: Option<string>,
    providerRef: Option<string>,
    legs: Option<seq<LegData>>)

  /** A `.optional()` enumeration member: absent is fine, `null` is not. */
  predicate OptionalEnumOk<T>(f: Field<string>, parse: string -> Option<T>) {
    f.Missing? || (f.Given? && parse(f.value).Some?)
  }

  /** An `.optional().nullable()` enumeration member. */
  predicate NullableEnumOk<T>(f: Field<string>, parse: string -> Option<T>) {
    !f.Given? || parse(f.value).Some?
  }

  /** The kind after defaulting; `null` is not replaced by the default. */
  function KindField(f: Field<string>): Option<BetKind> {
    match f
    case Missing => Some(Single)
    case Null => None
    case Given(s) => KindOf(s)
  }

  /** What `createBetSchema` accepts, the parlay refinement included. */
  predicate CreateAcceptable(b: CreateInput, isDateTime: string -> bool) {
    && KindField(b.kind).Some?
    && b.teams.Given? && LenIn(b.teams.value, 3, 200)
    && b.betType.Given? && LenIn(b.betType.value, 2, 100)
    && b.odds.Given? && b.odds.value >= MinOdds
    && b.stake.Given? && b.stake.value > 0.0
    && b.currency.Given? && JsLength(b.currency.value) == 3
    && b.matchTime.Given? && isDateTime(b.matchTime.value)
    && NullableEnumOk(b.confidence, ConfidenceOf)
    && (b.notes.Given? ==> JsLength(b.notes.value) <= 2000)
    && (b.uploadedBy.Given? ==> JsLength(b.uploadedBy.value) <= 50)
    && OptionalEnumOk(b.status, StatusOf)
    && NullableEnumOk(b.result, ResultOf)
    && (b.actualReturn.Given? ==> b.actualReturn.value >= 0.0)
    && !b.legs.Null?
    && (b.legs.Given? ==> forall i :: 0 <= i < |b.legs.value| ==> LegAcceptable(b.legs.value[i], isDateTime))
    && (KindField(b.kind) == Some(Parlay) ==> b.legs.Given? && |b.legs.value| >= 2)
  }

  /** The first member `createBetSchema` rejects, if any. */
  function CreateError(b: CreateInput, isDateTime: string -> bool): (r: Option<string>)
    ensures r.None? <==> CreateAcceptable(b, isDateTime)
  {
    if KindField(b.kind).None? then Some("kind")
    else if !(b.teams.Given? && LenIn(b.teams.value, 3, 200)) then Some("teams")
    else if !(b.betType.Given? && LenIn(b.betType.value, 2, 100)) then Some("bet_type")
    else if !(b.odds.Given? && b.odds.value >= MinOdds) then Some("odds")
    else if !(b.stake.Given? && b.stake.value > 0.0) then Some("stake")
    else if !(b.currency.Given? && JsLength(b.currency.value) == 3) then Some("currency")
    else if !(b.matchTime.Given? && isDateTime(b.matchTime.value)) then Some("match_time")
    else OptionalMembersError(b, isDateTime)
  }

  /** The first of the optional members `createBetSchema` rejects, the
      parlay refinement last. */
  function OptionalMembersError(b: CreateInput, isDateTime: string -> bool): (r: Option<string>)
    ensures r.None? <==>
      && NullableEnumOk(b.confidence, ConfidenceOf)
      && (b.notes.Given? ==> JsLength(b.notes.value) <= 2000)
      && (b.uploadedBy.Given? ==> JsLength(b.uploadedBy.value) <= 50)
      && OptionalEnumOk(b.status, StatusOf)
      && NullableEnumOk(b.result, ResultOf)
      && (b.actualReturn.Given? ==> b.actualReturn.value >= 0.0)
      && !b.legs.Null?
      && (b.legs.Given? ==> forall i :: 0 <= i < |b.legs.value| ==> LegAcceptable(b.legs.value[i], isDateTime))
      && (KindField(b.kind) == Some(Parlay) ==> b.legs.Given? && |b.legs.value| >= 2)
  {
    if !NullableEnumOk(b.confidence, ConfidenceOf) then Some("confidence")
    else if b.notes.Given? && JsLength(b.notes.value) > 2000 then Some("notes")
    else if b.uploadedBy.Given? && JsLength(b.uploadedBy.value) > 50 then Some("uploaded_by")
    else if !OptionalEnumOk(b.status, StatusOf) then Some("status")
    else if !NullableEnumOk(b.result, ResultOf) then Some("result")
    else if b.actualReturn.Given? && b.actualReturn.value < 0.0 then Some("actual_return")
    else if b.legs.Null? then Some("legs")
    else if b.legs.Given? && ParseLegs(b.legs.value, isDateTime).Failure? then Some("legs")
    else if KindField(b.kind) == Some(Parlay) && !(b.legs.Given? && |b.legs.value| >= 2) then Some("legs")
    else None
  }

  /** The parsed bet once every member has passed: defaults filled in, the
      currency upper-cased, enumeration names read. */
  function BuildCreate(b: CreateInput, isDateTime: string -> bool): (r: CreateBet)
    requires CreateAcceptable(b, isDateTime)
    ensures r.kind == (if b.kind.Missing? then Single else KindOf(b.kind.value).value)
    ensures r.currency == Upper(b.currency.value) && JsLength(r.currency) == 3
    ensures r.odds >= MinOdds && r.stake > 0.0
    ensures r.actualReturn.Some? ==> r.actualReturn.value >= 0.0
    ensures r.kind == Parlay ==> r.legs.Some? && |r.legs.value| >= 2
    ensures r.legs.Some? <==> b.legs.Given?
    ensures r.legs.Some? ==> ParseLegs(b.legs.value, isDateTime) == Success(r.legs.value)
    ensures KindName(r.kind) == (if b.kind.Missing? then "single" else b.kind.value)
    ensures r.teams == b.teams.value && r.betType == b.betType.value && r.matchTime == b.matchTime.value
    ensures r.odds == b.odds.value && r.stake == b.stake.value
    ensures r.confidence.Some? <==> b.confidence.Given?
    ensures r.confidence.Some? ==> ConfidenceName(r.confidence.value) == b.confidence.value
    ensures r.status.Some? <==> b.status.Given?
    ensures r.status.Some? ==> StatusName(r.status.value) == b.status.value
    ensures r.result.Some? <==> b.result.Given?
    ensures r.result.Some? ==> ResultName(r.result.value) == b.result.value
    ensures (r.notes.Some? <==> b.notes.Given?) && (r.notes.Some? ==> r.notes.value == b.notes.value)
    ensures (r.uploadedBy.Some? <==> b.uploadedBy.Given?) && (r.uploadedBy.Some? ==> r.uploadedBy.value == b.uploadedBy.value)
    ensures (r.actualReturn.Some? <==> b.actualReturn.Given?)
      && (r.actualReturn.Some? ==> r.actualReturn.value == b.actualReturn.value)
    ensures (r.provider.Some? <==> b.provider.Given?) && (r.provider.Some? ==> r.provider.value == b.provider.value)
    ensures (r.providerRef.Some? <==> b.providerRef.Given?)
      && (r.providerRef.Some? ==> r.providerRef.value == b.providerRef.value)
  {
    JsLengthUpper(b.currency.value);
    CreateBet(
      KindField(b.kind).value, b.teams.value, b.betType.value, b.odds.value, b.stake.value,
      Upper(b.currency.value), b.matchTime.value,
      if b.confidence.Given? then ConfidenceOf(b.confidence.value) else None,
      Opt(b.notes), Opt(b.uploadedBy),
      if b.status.Given? then StatusOf(b.status.value) else None,
      if b.result.Given? then ResultOf(b.result.value) else None,
      Opt(b.actualReturn), Opt(b.provider), Opt(b.providerRef),
      GivenLegs(b.legs, isDateTime))
  }

  /** The parsed `legs` member, when one was given and every leg is valid. */
  function GivenLegs(f: Field<seq<LegInput>>, isDateTime: string -> bool): (r: Option<seq<LegData>>)
    requires f.Given? ==> forall i :: 0 <= i < |f.value| ==> LegAcceptable(f.value[i], isDateTime)
    ensures r.Some? <==> f.Given?
    ensures r.Some? ==> ParseLegs(f.value, isDateTime) == Success(r.value) && |r.value| == |f.value|
  {
    if f.Given? then Some(ParseLegs(f.value, isDateTime).value) else None
  }

  /** `createBetSchema.parse`. */
  function ParseCreate(b: CreateInput, isDateTime: string -> bool): (r: Result<CreateBet, string>)
    ensures r.Success? <==> CreateAcceptable(b, isDateTime)
    ensures r.Failure? ==> Some(r.error) == CreateError(b, isDateTime)
    ensures r.Success? ==> r.value == BuildCreate(b, isDateTime)
  {
    match CreateError(b, isDateTime)
    case Some(e) => Failure(e)
    case None => Success(BuildCreate(b, isDateTime))
  }

  /** A parlay with fewer than two legs, or with no `legs` member, is
      rejected; a single with any number of valid legs is not held to a
      count. */
  lemma ParlayNeedsTwoLegs(b: CreateInput, isDateTime: string -> bool)
    requires b.kind == Given("parlay")
    requires b.legs.Missing? || (b.legs.Given? && |b.legs.value| < 2)
    ensures ParseCreate(b, isDateTime).Failure?
  {
  }

  /** Leaving `kind` out gives a single bet; sending `null` is an error. */
  lemma KindDefault(b: CreateInput, isDateTime: string -> bool)
    ensures b.kind.Missing? && ParseCreate(b, isDateTime).Success? ==> ParseCreate(b, isDateTime).value.kind == Single
    ensures b.kind.Null? ==> ParseCreate(b, isDateTime) == Failure("kind")
  {
  }

  // ---------------------------------------------------------------------
  // Patching a bet
  // ---------------------------------------------------------------------

  datatype PatchInput = PatchInput(
    kind: Field<string>,
    teams: Field<string>,
    betType: Field<string>,
    odds: Field<real>,
    stake: Field<real>,
    currency: Field<string>,
    matchTime: Field<string>,
    status: Field<string>,
    result: Field<string>,
    actualReturn: Field<real>,
    notes: Field<string>)

  /** A validated patch: a member is absent, `null` (only `result`,
      `actual_return` and `notes` may be), or a checked value. */
  datatype BetPatch = BetPatch(
    kind: Field<BetKind>,
    teams: Field<string>,
    betType: Field<string>,
    odds: Field<real>,
    stake: Field<real>,
    currency: Field<string>,
    matchTime: Field<string>,
    status: Field<BetStatus>,
    result: Field<BetResult>,
    actualReturn: Field<real>,
    notes: Field<string>)

  function Present<T>(f: Field<T>): nat {
    if f.Missing? then 0 else 1
  }

  /** `Object.keys(v).length` of the parsed patch. */
  function KeyCount(p: PatchInput): nat {
    Present(p.kind) + Present(p.teams) + Present(p.betType) + Present(p.odds) + Present(p.stake)
    + Present(p.currency) + Present(p.matchTime) + Present(p.status) + Present(p.result)
    + Present(p.actualReturn) + Present(p.notes)
  }

  /** An `.optional()` member: absent, or a value passing `ok`. */
  predicate OptionalOk<T>(f: Field<T>, ok: T -> bool) {
    f.Missing? || (f.Given? && ok(f.value))
  }

  /** A `.nullable().optional()` member. */
  predicate NullableOk<T>(f: Field<T>, ok: T -> bool) {
    !f.Given? || ok(f.value)
  }

  /** What `patchBetSchema` accepts: every present member valid, and at
      least one member present. */
  predicate PatchAcceptable(p: PatchInput, isDateTime: string -> bool) {
    && OptionalEnumOk(p.kind, KindOf)
    && OptionalOk(p.teams, (s: string) => LenIn(s, 3, 200))
    && OptionalOk(p.betType, (s: string) => LenIn(s, 2, 100))
    && OptionalOk(p.odds, (x: real) => x >= MinOdds)
    && OptionalOk(p.stake, (x: real) => x > 0.0)
    && OptionalOk(p.currency, (s: string) => JsLength(s) == 3)
    && OptionalOk(p.matchTime, isDateTime)
    && OptionalEnumOk(p.status, StatusOf)
    && NullableEnumOk(p.result, ResultOf)
    && NullableOk(p.actualReturn, (x: real) => x >= 0.0)
    && NullableOk(p.notes, (s: string) => JsLength(s) <= 2000)
    && KeyCount(p) > 0
  }

  function MapField<T, U>(f: Field<T>, g: T -> U): (r: Field<U>)
    ensures r.Missing? == f.Missing? && r.Null? == f.Null?
  {
    match f
    case Missing => Missing
    case Null => Null
    case Given(v) => Given(g(v))
  }

  /** `patchBetSchema.parse`. A present member stays present and an absent
      one stays absent; the currency is upper-cased. */
  function ParsePatch(p: PatchInput, isDateTime: string -> bool): (r: Result<BetPatch, string>)
    ensures r.Success? <==> PatchAcceptable(p, isDateTime)
    ensures r.Success? ==>
      && r.value.kind.Missing? == p.kind.Missing? && r.value.teams == p.teams
      && r.value.betType == p.betType && r.value.odds == p.odds && r.value.stake == p.stake
      && r.value.matchTime == p.matchTime && r.value.status.Missing? == p.status.Missing?
      && r.value.result.Missing? == p.result.Missing? && r.value.result.Null? == p.result.Null?
      && r.value.actualReturn == p.actualReturn && r.value.notes == p.notes
      && r.value.currency.Missing? == p.currency.Missing?
      && (p.currency.Given? ==> r.value.currency == Given(Upper(p.currency.value)))
    ensures r.Success? && p.kind.Given? ==> r.value.kind.Given? && KindName(r.value.kind.value) == p.kind.value
    ensures r.Success? && p.status.Given? ==>
      r.value.status.Given? && StatusName(r.value.status.value) == p.status.value
    ensures r.Success? && p.result.Given? ==>
      r.value.result.Given? && ResultName(r.value.result.value) == p.result.value
  {
    if !OptionalEnumOk(p.kind, KindOf) then Failure("kind")
    else if !OptionalOk(p.teams, (s: string) => LenIn(s, 3, 200)) then Failure("teams")
    else if !OptionalOk(p.betType, (s: string) => LenIn(s, 2, 100)) then Failure("bet_type")
    else if !OptionalOk(p.odds, (x: real) => x >= MinOdds) then Failure("odds")
    else if !OptionalOk(p.stake, (x: real) => x > 0.0) then Failure("stake")
    else if !OptionalOk(p.currency, (s: string) => JsLength(s) == 3) then Failure("currency")
    else if !OptionalOk(p.matchTime, isDateTime) then Failure("match_time")
    else if !OptionalEnumOk(p.status, StatusOf) then Failure("status")
    else if !NullableEnumOk(p.result, ResultOf) then Failure("result")
    else if !NullableOk(p.actualReturn, (x: real) => x >= 0.0) then Failure("actual_return")
    else if !NullableOk(p.notes, (s: string) => JsLength(s) <= 2000) then Failure("notes")
    else if KeyCount(p) == 0 then Failure("At least one field is required")
    else
      Success(BetPatch(
        MapField(p.kind, (s: string) => KindOf(s).GetOr(Single)),
        p.teams, p.betType, p.odds, p.stake,
        MapField(p.currency, Upper),
        p.matchTime,
        MapField(p.status, (s: string) => StatusOf(s).GetOr(Upcoming)),
        MapField(p.result, (s: string) => ResultOf(s).GetOr(BetWon)),
        p.actualReturn, p.notes))
  }

  /** An empty patch body is rejected. */
  lemma EmptyPatchRejected(isDateTime: string -> bool)
    ensures ParsePatch(PatchInput(Missing, Missing, Missing, Missing, Missing, Missing, Missing,
                                  Missing, Missing, Missing, Missing), isDateTime).Failure?
  {
  }

  // ---------------------------------------------------------------------
  // Listing bets
  // ---------------------------------------------------------------------

  /** The query string members, each absent or the text sent. */
  datatype QueryInput = QueryInput(
    status: Option<string>,
    from: Option<string>,
    to: Option<string>,
    search: Option<string>,
    limit: Option<string>,
    offset: Option<string>,
    sort: Option<string>,
    order: Option<string>)

  datatype SortKey = ByMatchTime | ByCreatedAt | ByStake | ByOdds

  datatype SortOrder = Asc | Desc

  datatype ListQuery = ListQuery(
    status: Option<BetStatus>,
    from: Option<string>,
    to: Option<string>,
    search: Option<string>,
    limit: nat,
    offset: nat,
    sort: SortKey,
    order: SortOrder)

  function SortKeyOf(s: string): Option<SortKey> {
    if s == "match_time" then Some(ByMatchTime)
    else if s == "created_at" then Some(ByCreatedAt)
    else if s == "stake" then Some(ByStake)
    else if s == "odds" then Some(ByOdds)
    else None
  }

  function SortOrderOf(s: string): Option<SortOrder> {
    if s == "asc" then Some(Asc) else if s == "desc" then Some(Desc) else None
  }

  predicate IsInteger(x: real) {
    x.Floor as real == x
  }

  /** `z.coerce.number().int().min(lo).max(hi).default(d)`: an absent member
      takes the default; otherwise `Number(text)` must be an integer in
      range (`NaN` fails). */
  function CoercedInt(v: Option<string>, lo: int, hi: Option<int>, default: int): (r: Option<int>)
    requires lo <= default && (hi.Some? ==> default <= hi.value)
    ensures r.Some? ==> lo <= r.value && (hi.Some? ==> r.value <= hi.value)
    ensures v.None? ==> r == Some(default)
    ensures v.Some? ==> (r.Some? <==> (JsNumber(v.value).Some? && IsInteger(JsNumber(v.value).value)
      && lo as real <= JsNumber(v.value).value && (hi.Some? ==> JsNumber(v.value).value <= hi.value as real)))
    ensures r.Some? && v.Some? ==> r.value as real == JsNumber(v.value).value
  {
    match v
    case None => Some(default)
    case Some(text) =>
      match JsNumber(text)
      case None => None
      case Some(x) =>
        if IsInteger(x) && lo as real <= x && (hi.None? || x <= hi.value as real) then Some(x.Floor) else None
  }

  /** An empty date text passes the date refinement. */
  predicate DateOk(v: Option<string>, validDate: string -> bool) {
    v.None? || v.value == "" || validDate(v.value)
  }

  /** `listQuerySchema.parse`; `validDate` says whether `new Date(text)` is a
      valid date. */
  function ParseListQuery(q: QueryInput, validDate: string -> bool): (r: Result<ListQuery, string>)
    ensures r.Success? ==> 1 <= r.value.limit <= 200
    ensures r.Success? && q.limit.None? ==> r.value.limit == 50
    ensures r.Success? && q.offset.None? ==> r.value.offset == 0
    ensures r.Success? && q.sort.None? ==> r.value.sort == ByMatchTime
    ensures r.Success? && q.order.None? ==> r.value.order == Asc
    ensures r.Success? ==> (r.value.status.Some? <==> q.status.Some?)
    ensures r.Success? && q.status.Some? ==> StatusName(r.value.status.value) == q.status.value
    ensures r.Success? && q.sort.Some? ==> SortKeyOf(q.sort.value) == Some(r.value.sort)
    ensures r.Success? && q.order.Some? ==> SortOrderOf(q.order.value) == Some(r.value.order)
    ensures r.Success? && q.limit.Some? ==> JsNumber(q.limit.value) == Some(r.value.limit as real)
    ensures r.Success? && q.offset.Some? ==> JsNumber(q.offset.value) == Some(r.value.offset as real)
    ensures r.Success? ==> r.value.from == q.from && r.value.to == q.to && r.value.search == q.search
    ensures r.Success? <==>
      && (q.status.None? || StatusOf(q.status.value).Some?)
      && DateOk(q.from, validDate) && DateOk(q.to, validDate)
      && CoercedInt(q.limit, 1, Some(200), 50).Some?
      && CoercedInt(q.offset, 0, None, 0).Some?
      && (q.sort.None? || SortKeyOf(q.sort.value).Some?)
      && (q.order.None? || SortOrderOf(q.order.value).Some?)
  {
    var limit := CoercedInt(q.limit, 1, Some(200), 50);
    var offset := CoercedInt(q.offset, 0, None, 0);
    if q.status.Some? && StatusOf(q.status.value).None? then Failure("status")
    else if !DateOk(q.from, validDate) then Failure("Invalid from date")
    else if !DateOk(q.to, validDate) then Failure("Invalid to date")
    else if limit.None? then Failure("limit")
    else if offset.None? then Failure("offset")
    else if q.sort.Some? && SortKeyOf(q.sort.value).None? then Failure("sort")
    else if q.order.Some? && SortOrderOf(q.order.value).None? then Failure("order")
    else
      Success(ListQuery(
        if q.status.Some? then StatusOf(q.status.value) else None,
        q.from, q.to, q.search,
        limit.value, offset.value,
        if q.sort.Some? then SortKeyOf(q.sort.value).value else ByMatchTime,
        if q.order.Some? then SortOrderOf(q.order.value).value else Asc))
  }

  /** An empty query string parses to the defaults. */
  lemma DefaultListQuery(validDate: string -> bool)
    ensures ParseListQuery(QueryInput(None, None, None, None, None, None, None, None), validDate)
         == Success(ListQuery(None, None, None, None, 50, 0, ByMatchTime, Asc))
  {
  }

  /** A limit written as its decimal numeral is read back as that number
      when it is in range, and rejected otherwise. */
  lemma LimitRoundTrip(q: QueryInput, n: int, validDate: string -> bool)
    requires q.limit == Some(IntToString(n))
    ensures var r := ParseListQuery(q, validDate);
      r.Success? ==> r.value.limit == n
    ensures CoercedInt(q.limit, 1, Some(200), 50).Some? <==> 1 <= n <= 200
  {
    IntToStringIsNumber(n);
    assert (n as real).Floor == n;
  }

  /** The empty text counts as 0, so `limit=` is rejected and `offset=` reads
      as 0. */
  lemma EmptyNumberIsZero()
    ensures CoercedInt(Some(""), 1, Some(200), 50).None?
    ensures CoercedInt(Some(""), 0, None, 0) == Some(0)
  {
    assert Trim("") == "";
  }

  /** A text that `Number` reads as an integer within bounds is accepted as
      that integer. */
  lemma CoercedNumber(text: string, lo: int, hi: Option<int>, default: int, n: int)
    requires lo <= default && (hi.Some? ==> default <= hi.value)
    requires JsNumber(text) == Some(n as real) && lo <= n && (hi.Some? ==> n <= hi.value)
    ensures CoercedInt(Some(text), lo, hi, default) == Some(n)
  {
    assert (n as real).Floor == n;
  }

  /** `Number` accepts exponent and radix notation, so `limit=1e2` reads as
      100 and `offset=0x10` as 16, while `limit=Infinity` is rejected. */
  lemma ExponentLimit()
    ensures CoercedInt(Some("1e2"), 1, Some(200), 50) == Some(100)
  {
    HundredInExponentForm();
    CoercedNumber("1e2", 1, Some(200), 50, 100);
  }

  lemma HexOffset()
    ensures CoercedInt(Some("0x10"), 0, None, 0) == Some(16)
  {
    HexSixteen();
    CoercedNumber("0x10", 0, None, 0, 16);
  }

  lemma InfiniteLimit()
    ensures CoercedInt(Some("Infinity"), 1, Some(200), 50).None?
  {
    InfinityIsNotFinite();
  }
}
