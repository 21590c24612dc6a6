/** The pure parts of the bet routes: turning a validated new bet into rows,
    refreshing the stored lifecycle status on read, copying a validated patch
    onto a bet, ordering legs for display, and the list page arithmetic.
    Row ids and the current instant are parameters; `parseDate` stands for
    `new Date(text)` read as milliseconds. */
module Server {
  import opened Wrappers
  import opened Domain
  import opened Entities
  import opened Sequences
  import opened MarketParser
  import opened Schemas
  import Runner

  /** A bet row together with the leg rows created with it. */
  datatype NewBet = NewBet(bet: Bet, legs: seq<Leg>)

  function LegOrder(l: Leg): int {
    l.legOrder
  }

  /** A leg row as created: not yet settled, no scores, never checked. */
  function FreshLeg(id: string, betId: string, legOrder: int, teams: string, market: ParsedMarket,
                    odds: real, eventTime: int, provider: Option<string>, providerEventId: Option<string>): Leg {
    Leg(id, betId, legOrder, teams, market.marketType, market.selection, market.line, odds, eventTime,
        provider, providerEventId, Pending, None, None, None, None)
  }

  /** `makeDefaultLeg`: the single leg a bet gets when none was submitted,
      read off the bet itself. */
  function MakeDefaultLeg(base: Bet, id: string): Leg {
    FreshLeg(id, base.id, 1, base.teams, ParseBetTypeToMarket(base.betType), base.odds, base.matchTime,
             base.provider, base.providerRef)
  }

  /** The `idx`-th submitted leg; a leg naming no provider takes the bet's. */
  function SubmittedLeg(leg: LegData, idx: nat, id: string, b: CreateBet, betId: string,
                        parseDate: string -> int): (r: Leg)
    ensures r.betId == betId && r.legOrder == idx + 1 && r.settlement == Pending
    ensures LegCopied(r, leg, b, parseDate)
  {
    FreshLeg(id, betId, idx + 1, leg.teams, ParsedMarket(leg.marketType, leg.selection, leg.line),
             leg.odds, parseDate(leg.eventTime),
             if leg.provider.Some? then leg.provider else b.provider, leg.providerEventId)
  }

  /** The submitted legs as rows, numbered from 1 in submission order. */
  function SubmittedLegs(submitted: seq<LegData>, b: CreateBet, betId: string, legId: nat -> string,
                         parseDate: string -> int): (r: seq<Leg>)
    ensures |r| == |submitted|
    ensures forall i :: 0 <= i < |r| ==>
      r[i].betId == betId && r[i].legOrder == i + 1 && r[i].settlement == Pending
      && LegCopied(r[i], submitted[i], b, parseDate)
  {
    var r := seq(|submitted|, i requires 0 <= i < |submitted| =>
                   SubmittedLeg(submitted[i], i, legId(i), b, betId, parseDate));
    assert forall i :: 0 <= i < |r| ==> r[i] == SubmittedLeg(submitted[i], i, legId(i), b, betId, parseDate);
    r
  }

  /** `toCreateInput`. `betId` and `legId(i)` are the fresh ids of the bet
      and of its `i`-th leg. */
  function ToCreateInput(b: CreateBet, actor: string, now: int, parseDate: string -> int,
                         betId: string, legId: nat -> string): (r: NewBet)
    ensures r.bet.id == betId && r.bet.deletedAt.None? && r.bet.settledAt.None?
    ensures r.bet.settlementState == StatePending
    ensures r.bet.status == if b.status.Some? then b.status.value else AutoStatus(parseDate(b.matchTime), now, None)
    ensures r.bet.uploadedBy == b.uploadedBy.GetOr(actor)
    ensures BetCopied(r.bet, b, parseDate)
    ensures |r.legs| >= 1
    ensures forall i :: 0 <= i < |r.legs| ==>
      r.legs[i].betId == betId && r.legs[i].legOrder == i + 1 && r.legs[i].settlement == Pending
    ensures b.legs.Some? && |b.legs.value| > 0 ==>
      && |r.legs| == |b.legs.value|
      && forall i :: 0 <= i < |r.legs| ==> LegCopied(r.legs[i], b.legs.value[i], b, parseDate)
    ensures b.legs.None? || |b.legs.value| == 0 ==>
      && |r.legs| == 1
      && r.legs[0] == MakeDefaultLeg(r.bet, legId(0))
  {
    var matchTime := parseDate(b.matchTime);
    var base := Bet(betId, b.kind, b.teams, b.betType, b.odds, b.stake, b.currency, matchTime,
                    b.uploadedBy.GetOr(actor),
                    if b.status.Some? then b.status.value else AutoStatus(matchTime, now, None),
                    b.confidence, b.result, b.actualReturn, StatePending, None,
                    b.provider, b.providerRef, b.notes, None);
    var submitted := if b.legs.Some? then b.legs.value else [];
    var legs := SubmittedLegs(submitted, b, betId, legId, parseDate);
    if |legs| > 0 then NewBet(base, legs) else NewBet(base, [MakeDefaultLeg(base, legId(0))])
  }

  /** A created bet row carries the payload's members, its match time
      parsed, and `null` for every optional member left out. */
  predicate BetCopied(row: Bet, b: CreateBet, parseDate: string -> int) {
    && row.kind == b.kind && row.teams == b.teams && row.betType == b.betType
    && row.odds == b.odds && row.stake == b.stake && row.currency == b.currency
    && row.matchTime == parseDate(b.matchTime) && row.confidence == b.confidence
    && row.result == b.result && row.actualReturn == b.actualReturn
    && row.provider == b.provider && row.providerRef == b.providerRef && row.notes == b.notes
  }

  /** A created leg row carries the submitted leg's fields, its event time
      parsed, and the bet's provider when it names none. */
  predicate LegCopied(row: Leg, leg: LegData, b: CreateBet, parseDate: string -> int) {
    && row.teams == leg.teams && row.marketType == leg.marketType && row.selection == leg.selection
    && row.line == leg.line && row.odds == leg.odds && row.eventTime == parseDate(leg.eventTime)
    && row.provider == (if leg.provider.Some? then leg.provider else b.provider)
    && row.providerEventId == leg.providerEventId
  }

  /** The default leg takes its market from the bet type text, and its odds,
      event time and event id from the bet's odds, match time and provider
      reference. */
  lemma DefaultLegFromBet(b: CreateBet, actor: string, now: int, parseDate: string -> int,
                          betId: string, legId: nat -> string)
    requires b.legs.None? || |b.legs.value| == 0
    ensures var r := ToCreateInput(b, actor, now, parseDate, betId, legId);
      var m := ParseBetTypeToMarket(b.betType);
      && r.legs[0].marketType == m.marketType && r.legs[0].selection == m.selection
      && r.legs[0].line == m.line
      && (r.legs[0].line.Some? <==> r.legs[0].marketType == "over_under")
      && r.legs[0].odds == b.odds && r.legs[0].eventTime == parseDate(b.matchTime)
      && r.legs[0].provider == b.provider && r.legs[0].providerEventId == b.providerRef
  {
  }

  /** `mapBet`'s leg list: ordered by `legOrder`, the same rows. */
  function MapBetLegs(legs: seq<Leg>): (r: seq<Leg>)
    ensures SortedBy(r, LegOrder)
    ensures multiset(r) == multiset(legs)
  {
    SortBy(legs, LegOrder)
  }

  /** The legs of a newly created bet are numbered in submission order, so
      reading the bet back lists them exactly as submitted. */
  lemma CreatedLegsReadBackInOrder(b: CreateBet, actor: string, now: int, parseDate: string -> int,
                                   betId: string, legId: nat -> string)
    ensures var r := ToCreateInput(b, actor, now, parseDate, betId, legId);
      MapBetLegs(r.legs) == r.legs
  {
    var r := ToCreateInput(b, actor, now, parseDate, betId, legId);
    assert SortedBy(r.legs, LegOrder);
    SortSorted(r.legs, LegOrder);
  }

  /** A created leg with an event id is at once a candidate for the
      settlement cycle: it is pending and its bet is not deleted. */
  lemma CreatedLegsAwaitSettlement(store: Store, b: CreateBet, actor: string, now: int,
                                   parseDate: string -> int, betId: string, legId: nat -> string)
    ensures var r := ToCreateInput(b, actor, now, parseDate, betId, legId);
      var after := Store(store.bets + [r.bet], store.legs + r.legs);
      forall l :: l in r.legs && l.providerEventId.Some? ==>
        && l.settlement == Pending && l.betId == r.bet.id && after.bets[|store.bets|] == r.bet
        && Runner.Eligible(after, l)
  {
    var r := ToCreateInput(b, actor, now, parseDate, betId, legId);
    var after := Store(store.bets + [r.bet], store.legs + r.legs);
    assert after.bets[|store.bets|] == r.bet;
  }

  /** The outcome of `refreshAutoStatus`: the bet as returned and whether a
      write was issued. */
  datatype Refreshed = Refreshed(bet: Bet, written: bool)

  /** `refreshAutoStatus`: recompute the lifecycle status; write it only when
      the bet is not settled and the status changes. */
  function RefreshAutoStatus(bet: Bet, now: int): (r: Refreshed)
    ensures r.written <==> bet.status != Settled && bet.status != AutoStatus(bet.matchTime, now, Some(bet.status))
    ensures r.bet == bet.(status := AutoStatus(bet.matchTime, now, Some(bet.status)))
    ensures !r.written ==> r.bet == bet
  {
    var next := AutoStatus(bet.matchTime, now, Some(bet.status));
    if bet.status != Settled && bet.status != next then Refreshed(bet.(status := next), true)
    else Refreshed(bet, false)
  }

  /** A settled bet is never rewritten, an unsettled one never becomes
      settled, and a second refresh at the same instant writes nothing. */
  lemma RefreshProperties(bet: Bet, now: int)
    ensures bet.status == Settled ==> RefreshAutoStatus(bet, now) == Refreshed(bet, false)
    ensures bet.status != Settled ==> RefreshAutoStatus(bet, now).bet.status != Settled
    ensures var once := RefreshAutoStatus(bet, now).bet;
      RefreshAutoStatus(once, now) == Refreshed(once, false)
  {
  }

  /** Letting time pass never moves a refreshed status back along upcoming,
      live, finished. */
  lemma RefreshMonotone(bet: Bet, now1: int, now2: int)
    requires now1 <= now2
    ensures Phase(RefreshAutoStatus(bet, now1).bet.status) <= Phase(RefreshAutoStatus(bet, now2).bet.status)
  {
    AutoStatusMonotone(bet.matchTime, now1, now2, Some(bet.status));
  }

  /** A validated patch never holds `null` for a member that is not nullable. */
  predicate NullOnlyWhereAllowed(p: BetPatch) {
    && !p.kind.Null? && !p.teams.Null? && !p.betType.Null? && !p.odds.Null? && !p.stake.Null?
    && !p.currency.Null? && !p.matchTime.Null? && !p.status.Null?
  }

  lemma ParsedPatchNullOnlyWhereAllowed(p: PatchInput, isDateTime: string -> bool)
    requires ParsePatch(p, isDateTime).Success?
    ensures NullOnlyWhereAllowed(ParsePatch(p, isDateTime).value)
  {
  }

  /** A non-nullable member: a present value replaces the column. */
  function Replace<T>(f: Field<T>, current: T): T {
    if f.Given? then f.value else current
  }

  /** A nullable member: present (even as `null`) replaces the column. */
  function ReplaceNullable<T>(f: Field<T>, current: Option<T>): Option<T> {
    match f
    case Missing => current
    case Null => None
    case Given(v) => Some(v)
  }

  /** The columns a patch cannot reach. */
  predicate SameUnpatchable(a: Bet, b: Bet) {
    && a.id == b.id && a.uploadedBy == b.uploadedBy && a.confidence == b.confidence
    && a.settlementState == b.settlementState && a.settledAt == b.settledAt
    && a.provider == b.provider && a.providerRef == b.providerRef && a.deletedAt == b.deletedAt
  }

  /** A column after a patch: kept when its member is absent, and the
      member's value when present. */
  predicate Patched<T(==)>(f: Field<T>, before: T, after: T) {
    (f.Missing? ==> after == before) && (f.Given? ==> after == f.value)
  }

  /** A nullable column after a patch: kept when its member is absent,
      cleared by `null`, and the member's value when present. */
  predicate PatchedNullable<T(==)>(f: Field<T>, before: Option<T>, after: Option<T>) {
    && (f.Missing? ==> after == before)
    && (f.Null? ==> after == None)
    && (f.Given? ==> after == Some(f.value))
  }

  /** The PATCH route's field copying: every member the patch carries
      overwrites its column, the match time parsed from its text, and
      every other column keeps its value. */
  function ApplyPatch(bet: Bet, p: BetPatch, parseDate: string -> int): (r: Bet)
    requires NullOnlyWhereAllowed(p)
    ensures SameUnpatchable(bet, r)
    ensures Patched(p.kind, bet.kind, r.kind)
    ensures Patched(p.teams, bet.teams, r.teams)
    ensures Patched(p.betType, bet.betType, r.betType)
    ensures Patched(p.odds, bet.odds, r.odds)
    ensures Patched(p.stake, bet.stake, r.stake)
    ensures Patched(p.currency, bet.currency, r.currency)
    ensures p.matchTime.Missing? ==> r.matchTime == bet.matchTime
    ensures p.matchTime.Given? ==> r.matchTime == parseDate(p.matchTime.value)
    ensures Patched(p.status, bet.status, r.status)
    ensures PatchedNullable(p.result, bet.result, r.result)
    ensures PatchedNullable(p.actualReturn, bet.actualReturn, r.actualReturn)
    ensures PatchedNullable(p.notes, bet.notes, r.notes)
  {
    bet.(kind := Replace(p.kind, bet.kind),
         teams := Replace(p.teams, bet.teams),
         betType := Replace(p.betType, bet.betType),
         odds := Replace(p.odds, bet.odds),
         stake := Replace(p.stake, bet.stake),
         currency := Replace(p.currency, bet.currency),
         matchTime := if p.matchTime.Given? then parseDate(p.matchTime.value) else bet.matchTime,
         status := Replace(p.status, bet.status),
         result := ReplaceNullable(p.result, bet.result),
         actualReturn := ReplaceNullable(p.actualReturn, bet.actualReturn),
         notes := ReplaceNullable(p.notes, bet.notes))
  }

  /** The patch with no member present. */
  const NoChanges: BetPatch := BetPatch(Missing, Missing, Missing, Missing, Missing, Missing, Missing,
                                        Missing, Missing, Missing, Missing)

  /** Copying nothing changes nothing, and copying the same patch twice is
      the same as copying it once. */
  lemma PatchLaws(bet: Bet, p: BetPatch, parseDate: string -> int)
    requires NullOnlyWhereAllowed(p)
    ensures ApplyPatch(bet, NoChanges, parseDate) == bet
    ensures ApplyPatch(ApplyPatch(bet, p, parseDate), p, parseDate) == ApplyPatch(bet, p, parseDate)
  {
  }

  /** Every column a present member names takes that member's value, so a
      patch that repeats the bet's own values is a no-op. */
  lemma PatchWithOwnValues(bet: Bet, parseDate: string -> int)
    ensures ApplyPatch(bet, BetPatch(Given(bet.kind), Given(bet.teams), Given(bet.betType), Given(bet.odds),
                                     Given(bet.stake), Given(bet.currency), Missing, Given(bet.status),
                                     if bet.result.Some? then Given(bet.result.value) else Null,
                                     if bet.actualReturn.Some? then Given(bet.actualReturn.value) else Null,
                                     if bet.notes.Some? then Given(bet.notes.value) else Null),
                       parseDate) == bet
  {
  }

  /** `Math.floor(offset / limit) + 1`. */
  function PageNumber(offset: nat, limit: nat): (page: nat)
    requires limit >= 1
    ensures page >= 1
    ensures (page - 1) * limit <= offset < page * limit
  {
    offset / limit + 1
  }

  /** `Math.max(1, Math.ceil(total / limit))`. */
  function PageCount(total: nat, limit: nat): (pages: nat)
    requires limit >= 1
    ensures pages >= 1
    ensures total <= pages * limit
    ensures total > 0 ==> (pages - 1) * limit < total
    ensures total == 0 ==> pages == 1
  {
    var q := (total + limit - 1) / limit;
    if q < 1 then 1 else q
  }

  /** A page that starts on an existing row is one of the counted pages. */
  lemma PageWithinPages(offset: nat, total: nat, limit: nat)
    requires limit >= 1
    requires offset < total
    ensures PageNumber(offset, limit) <= PageCount(total, limit)
  {
    var page, pages := PageNumber(offset, limit), PageCount(total, limit);
    if page > pages {
      assert pages * limit <= (page - 1) * limit by {
        MulMonotone(pages, page - 1, limit);
      }
      assert false;
    }
  }

  lemma MulMonotone(a: nat, b: nat, k: nat)
    requires a <= b
    ensures a * k <= b * k
  {
  }
}
