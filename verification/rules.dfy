/** The leg outcome evaluator: the decision table that settles one leg of a
    bet against the fixture the results provider reported. */
module Rules {
  import opened Wrappers
  import opened Text
  import opened Entities

  /** `compareTeams`: two names are the same team when they agree after
      trimming, lower-casing and collapsing whitespace runs. */
  function CompareTeams(a: string, b: string): bool {
    NormalizeName(a) == NormalizeName(b)
  }

  function WonIf(b: bool): LegOutcome {
    if b then Won else Lost
  }

  /** `settleLeg`. An unfinished fixture leaves the leg pending; a finished one
      with a missing score needs review; otherwise the market (compared
      case-insensitively) decides: 1x2 / match_winner by the scores (a
      selection naming a team counts as that side, keywords first), over_under
      against the line with a tie losing both ways, btts on whether both sides
      scored. Anything the table does not know needs review. */
  function SettleLeg(leg: Leg, fixture: ProviderFixture): (r: LegOutcome)
    ensures r == Pending <==> fixture.status != FixtureFinished
    ensures fixture.status == FixtureFinished && (fixture.scoreHome.None? || fixture.scoreAway.None?) ==> r == NeedsReview
    ensures r != Push && r != Void
  {
    if fixture.status != FixtureFinished then Pending
    else if fixture.scoreHome.None? || fixture.scoreAway.None? then NeedsReview
    else
      SettleScored(Lower(leg.marketType), Lower(leg.selection), leg.line,
                   fixture.scoreHome.value, fixture.scoreAway.value, fixture.homeTeam, fixture.awayTeam)
  }

  /** The market table for a finished, scored fixture; `market` and `pick`
      arrive lower-cased. */
  function SettleScored(market: string, pick: string, line: Option<real>,
                        home: int, away: int, homeTeam: string, awayTeam: string): (r: LegOutcome)
    ensures r == Won || r == Lost || r == NeedsReview
  {
    if market == "1x2" || market == "match_winner" then MatchWinner(pick, home, away, homeTeam, awayTeam)
    else if market == "over_under" then
      if line.None? then NeedsReview else OverUnder(pick, (home + away) as real, line.value)
    else if market == "btts" then BothTeamsToScore(pick, home, away)
    else NeedsReview
  }

  function MatchWinner(pick: string, home: int, away: int, homeTeam: string, awayTeam: string): (r: LegOutcome)
    ensures r == Won || r == Lost || r == NeedsReview
  {
    if pick == "draw" then WonIf(home == away)
    else if pick == "home" then WonIf(home > away)
    else if pick == "away" then WonIf(away > home)
    else if CompareTeams(pick, homeTeam) then WonIf(home > away)
    else if CompareTeams(pick, awayTeam) then WonIf(away > home)
    else NeedsReview
  }

  function OverUnder(pick: string, total: real, line: real): (r: LegOutcome)
    ensures r == Won || r == Lost || r == NeedsReview
  {
    if pick == "over" then WonIf(total > line)
    else if pick == "under" then WonIf(total < line)
    else NeedsReview
  }

  function BothTeamsToScore(pick: string, home: int, away: int): (r: LegOutcome)
    ensures r == Won || r == Lost || r == NeedsReview
  {
    var bothScored := home > 0 && away > 0;
    if pick == "yes" then WonIf(bothScored)
    else if pick == "no" then WonIf(!bothScored)
    else NeedsReview
  }

  /** A finished fixture with both scores. */
  predicate Scored(fixture: ProviderFixture) {
    fixture.status == FixtureFinished && fixture.scoreHome.Some? && fixture.scoreAway.Some?
  }

  /** In the 1x2 market exactly one of draw, home and away wins, and each wins
      exactly on its own score relation, whatever the team names are. */
  lemma MatchWinnerPartition(leg: Leg, fixture: ProviderFixture)
    requires Scored(fixture)
    requires Lower(leg.marketType) == "1x2" || Lower(leg.marketType) == "match_winner"
    ensures var home, away := fixture.scoreHome.value, fixture.scoreAway.value;
      && (SettleLeg(leg.(selection := "draw"), fixture) == Won <==> home == away)
      && (SettleLeg(leg.(selection := "home"), fixture) == Won <==> home > away)
      && (SettleLeg(leg.(selection := "away"), fixture) == Won <==> away > home)
    ensures ExactlyOneWins([SettleLeg(leg.(selection := "draw"), fixture),
                            SettleLeg(leg.(selection := "home"), fixture),
                            SettleLeg(leg.(selection := "away"), fixture)])
  {
    KeywordSelections(leg, fixture);
    var home, away := fixture.scoreHome.value, fixture.scoreAway.value;
    var outcomes := [WonIf(home == away), WonIf(home > away), WonIf(away > home)];
    var i := if home == away then 0 else if home > away then 1 else 2;
    assert outcomes[i] == Won;
    assert forall j :: 0 <= j < 3 && j != i ==> outcomes[j] == Lost;
  }

  /** Every outcome is a win or a loss, and exactly one is a win. */
  predicate ExactlyOneWins(outcomes: seq<LegOutcome>) {
    && (forall i :: 0 <= i < |outcomes| ==> outcomes[i] == Won || outcomes[i] == Lost)
    && exists i :: 0 <= i < |outcomes| && outcomes[i] == Won
         && forall j :: 0 <= j < |outcomes| && j != i ==> outcomes[j] == Lost
  }

  /** A selection that is not a keyword but names the home team (after
      trimming, lower-casing and collapsing whitespace) settles like "home";
      one naming only the away team settles like "away". */
  lemma TeamNameSelection(leg: Leg, fixture: ProviderFixture)
    requires Scored(fixture)
    requires Lower(leg.marketType) == "1x2" || Lower(leg.marketType) == "match_winner"
    requires Lower(leg.selection) != "draw" && Lower(leg.selection) != "home" && Lower(leg.selection) != "away"
    ensures NormalizeName(leg.selection) == NormalizeName(fixture.homeTeam) ==>
      SettleLeg(leg, fixture) == SettleLeg(leg.(selection := "home"), fixture)
    ensures (NormalizeName(leg.selection) != NormalizeName(fixture.homeTeam)
             && NormalizeName(leg.selection) == NormalizeName(fixture.awayTeam)) ==>
      SettleLeg(leg, fixture) == SettleLeg(leg.(selection := "away"), fixture)
    ensures (NormalizeName(leg.selection) != NormalizeName(fixture.homeTeam)
             && NormalizeName(leg.selection) != NormalizeName(fixture.awayTeam)) ==>
      SettleLeg(leg, fixture) == NeedsReview
  {
    var pick := Lower(leg.selection);
    var home, away := fixture.scoreHome.value, fixture.scoreAway.value;
    NormalizeNameLower(leg.selection);
    assert CompareTeams(pick, fixture.homeTeam) <==> NormalizeName(leg.selection) == NormalizeName(fixture.homeTeam);
    assert CompareTeams(pick, fixture.awayTeam) <==> NormalizeName(leg.selection) == NormalizeName(fixture.awayTeam);
    assert SettleLeg(leg, fixture) == MatchWinner(pick, home, away, fixture.homeTeam, fixture.awayTeam);
    KeywordSelections(leg, fixture);
  }

  /** The three 1x2 keywords settle on the score relation alone. */
  lemma KeywordSelections(leg: Leg, fixture: ProviderFixture)
    requires Scored(fixture)
    requires Lower(leg.marketType) == "1x2" || Lower(leg.marketType) == "match_winner"
    ensures var home, away := fixture.scoreHome.value, fixture.scoreAway.value;
      && SettleLeg(leg.(selection := "draw"), fixture) == WonIf(home == away)
      && SettleLeg(leg.(selection := "home"), fixture) == WonIf(home > away)
      && SettleLeg(leg.(selection := "away"), fixture) == WonIf(away > home)
  {
    assert Lower("draw") == "draw";
    assert Lower("home") == "home";
    assert Lower("away") == "away";
  }

  /** over_under: over wins exactly above the line, under exactly below it, a
      total on the line loses both, and the two never both win. A missing line
      needs review. */
  lemma OverUnderAgainstLine(leg: Leg, fixture: ProviderFixture)
    requires Scored(fixture)
    requires Lower(leg.marketType) == "over_under"
    ensures leg.line.None? ==> SettleLeg(leg, fixture) == NeedsReview
    ensures leg.line.Some? ==>
      var total := (fixture.scoreHome.value + fixture.scoreAway.value) as real;
      var over := SettleLeg(leg.(selection := "over"), fixture);
      var under := SettleLeg(leg.(selection := "under"), fixture);
      && (over == Won <==> total > leg.line.value)
      && (under == Won <==> total < leg.line.value)
      && (over == Won || over == Lost) && (under == Won || under == Lost)
      && (total == leg.line.value ==> over == Lost && under == Lost)
      && !(over == Won && under == Won)
  {
    assert Lower("over") == "over" && Lower("under") == "under";
  }

  /** btts: "yes" wins exactly when both sides scored and "no" always settles
      the opposite way. */
  lemma BothTeamsToScoreOpposite(leg: Leg, fixture: ProviderFixture)
    requires Scored(fixture)
    requires Lower(leg.marketType) == "btts"
    ensures var yes := SettleLeg(leg.(selection := "yes"), fixture);
      var no := SettleLeg(leg.(selection := "no"), fixture);
      && (yes == Won <==> fixture.scoreHome.value > 0 && fixture.scoreAway.value > 0)
      && (yes == Won || yes == Lost)
      && (no == Won <==> yes == Lost)
      && (no == Lost <==> yes == Won)
  {
    assert Lower("yes") == "yes" && Lower("no") == "no";
  }

  /** Market and selection are compared case-insensitively. */
  lemma SettleIgnoresCase(leg: Leg, fixture: ProviderFixture)
    ensures SettleLeg(leg, fixture)
         == SettleLeg(leg.(marketType := Lower(leg.marketType), selection := Lower(leg.selection)), fixture)
  {
    LowerIdempotent(leg.marketType);
    LowerIdempotent(leg.selection);
  }

  /** Markets outside the table, and selections a known market does not
      recognise, need review once the fixture is finished and scored. */
  lemma UnknownNeedsReview(leg: Leg, fixture: ProviderFixture)
    requires Scored(fixture)
    ensures var m, p := Lower(leg.marketType), Lower(leg.selection);
      m != "1x2" && m != "match_winner" && m != "over_under" && m != "btts" ==>
        SettleLeg(leg, fixture) == NeedsReview
    ensures var m, p := Lower(leg.marketType), Lower(leg.selection);
      m == "over_under" && p != "over" && p != "under" ==> SettleLeg(leg, fixture) == NeedsReview
    ensures var m, p := Lower(leg.marketType), Lower(leg.selection);
      m == "btts" && p != "yes" && p != "no" ==> SettleLeg(leg, fixture) == NeedsReview
  {
  }
}
