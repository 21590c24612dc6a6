/** The records the settlement engine reads and writes: bets and their legs as
    stored, the outcome vocabulary, and the fixture a results provider returns. */
module Entities {
  import opened Wrappers
  import opened Domain

  datatype BetKind = Single | Parlay

  /** The result recorded on a settled bet. */
  datatype BetResult = BetWon | BetLost | BetPush | BetVoid

  /** Whether a bet still waits for settlement, was settled, or was settled
      but flagged for a human to look at. */
  datatype SettlementState = StatePending | StateSettled | StateNeedsReview

  datatype Confidence = High | Medium | Low

  /** The outcome of one leg. A leg starts `Pending`; the rule table only ever
      produces `Won`, `Lost` or `NeedsReview`, but the column admits all six. */
  datatype LegOutcome = Pending | Won | Lost | Push | Void | NeedsReview

  /** A real-world fixture's state as reported by the results provider. */
  datatype FixtureStatus = Scheduled | FixtureLive | FixtureFinished

  /** One fixture as a provider returns it; times are milliseconds. */
  datatype ProviderFixture = ProviderFixture(
    providerEventId: string,
    status: FixtureStatus,
    homeTeam: string,
    awayTeam: string,
    scoreHome: Option<int>,
    scoreAway: Option<int>,
    startedAt: Option<int>,
    finishedAt: Option<int>)

  /** A stored leg of a bet. */
  datatype Leg = Leg(
    id: string,
    betId: string,
    legOrder: int,
    teams: string,
    marketType: string,
    selection: string,
    line: Option<real>,
    odds: real,
    eventTime: int,
    provider: Option<string>,
    providerEventId: Option<string>,
    settlement: LegOutcome,
    scoreHome: Option<int>,
    scoreAway: Option<int>,
    checkedAt: Option<int>,
    settledAt: Option<int>)

  /** A stored bet; `deletedAt` marks a soft delete. */
  datatype Bet = Bet(
    id: string,
    kind: BetKind,
    teams: string,
    betType: string,
    odds: real,
    stake: real,
    currency: string,
    matchTime: int,
    uploadedBy: string,
    status: BetStatus,
    confidence: Option<Confidence>,
    result: Option<BetResult>,
    actualReturn: Option<real>,
    settlementState: SettlementState,
    settledAt: Option<int>,
    provider: Option<string>,
    providerRef: Option<string>,
    notes: Option<string>,
    deletedAt: Option<int>)

  /** The two tables the settlement engine works on. Rows keep their position;
      `id` is the primary key of each table. */
  datatype Store = Store(bets: seq<Bet>, legs: seq<Leg>)

  predicate UniqueLegIds(legs: seq<Leg>) {
    forall i, j :: 0 <= i < |legs| && 0 <= j < |legs| && legs[i].id == legs[j].id ==> i == j
  }
}
