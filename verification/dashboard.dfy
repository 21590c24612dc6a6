/** The dashboard's derived data: the staked and profit-and-loss totals, the
    strip of matches about to start, the list query it sends, and the body
    the edit form sends. */
module Dashboard {
  import opened Wrappers
  import opened Text
  import opened Domain
  import opened Entities
  import opened Sequences
  import opened Schemas
  import opened Server
  import opened ClientApi

  // ---------------------------------------------------------------------
  // Totals
  // ---------------------------------------------------------------------

  /** What one bet adds to the profit and loss: a win its return (the
      recorded one, else stake times odds) less the stake, a loss minus the
      stake, anything else nothing. A recorded return of 0 is used as it is. */
  function PnlDelta(b: BetView): real {
    match b.result
    case Some(BetWon) => (if b.actualReturn.Some? then b.actualReturn.value else b.stake * b.odds) - b.stake
    case Some(BetLost) => -b.stake
    case _ => 0.0
  }

  /** The sum of every bet's stake, whatever its result. */
  function TotalStaked(bets: seq<BetView>): real {
    if |bets| == 0 then 0.0 else TotalStaked(bets[..|bets| - 1]) + bets[|bets| - 1].stake
  }

  function TotalPnl(bets: seq<BetView>): real {
    if |bets| == 0 then 0.0 else TotalPnl(bets[..|bets| - 1]) + PnlDelta(bets[|bets| - 1])
  }

  /** The `stats` fold over the listed bets. */
  method Stats(bets: seq<BetView>) returns (staked: real, pnl: real)
    ensures staked == TotalStaked(bets)
    ensures pnl == TotalPnl(bets)
  {
    staked, pnl := 0.0, 0.0;
    var i := 0;
    while i < |bets|
      invariant 0 <= i <= |bets|
      invariant staked == TotalStaked(bets[..i])
      invariant pnl == TotalPnl(bets[..i])
    {
      var b := bets[i];
      staked := staked + b.stake;
      if b.result == Some(BetWon) {
        pnl := pnl + ((if b.actualReturn.Some? then b.actualReturn.value else b.stake * b.odds) - b.stake);
      }
      if b.result == Some(BetLost) {
        pnl := pnl - b.stake;
      }
      assert bets[..i + 1][..i] == bets[..i];
      i := i + 1;
    }
    assert bets[..i] == bets;
  }

  /** Both totals add up over a split of the list. */
  lemma {:induction false} TotalsConcat(a: seq<BetView>, b: seq<BetView>)
    ensures TotalStaked(a + b) == TotalStaked(a) + TotalStaked(b)
    ensures TotalPnl(a + b) == TotalPnl(a) + TotalPnl(b)
  {
    if |b| == 0 {
      assert a + b == a;
    } else {
      var init := b[..|b| - 1];
      assert (a + b)[..|a + b| - 1] == a + init;
      TotalsConcat(a, init);
    }
  }

  predicate Decided(b: BetView) {
    b.result == Some(BetWon) || b.result == Some(BetLost)
  }

  /** Only won and lost bets move the profit and loss: dropping the pushed,
      voided and unsettled ones leaves it unchanged. */
  lemma {:induction false} PnlOnlyFromDecided(bets: seq<BetView>)
    ensures TotalPnl(Filter(bets, Decided)) == TotalPnl(bets)
  {
    if |bets| > 0 {
      var init, last := bets[..|bets| - 1], bets[|bets| - 1];
      assert bets == init + [last];
      FilterConcat(init, [last], Decided);
      PnlOnlyFromDecided(init);
      TotalsConcat(Filter(init, Decided), Filter([last], Decided));
      PnlOfOne(last);
    }
  }

  lemma PnlOfOne(b: BetView)
    ensures TotalPnl(Filter([b], Decided)) == PnlDelta(b)
  {
    assert [b][1..] == [];
    if Decided(b) {
      assert Filter([b], Decided) == [b];
      assert [b][..0] == [];
    } else {
      assert Filter([b], Decided) == [];
    }
  }

  /** A win with a recorded return of 0 counts as losing the stake; a win
      without a recorded return earns stake times odds less the stake. */
  lemma WonReturnCases(b: BetView)
    requires b.result == Some(BetWon)
    ensures b.actualReturn == Some(0.0) ==> PnlDelta(b) == -b.stake
    ensures b.actualReturn.None? ==> PnlDelta(b) == b.stake * b.odds - b.stake
  {
  }

  // ---------------------------------------------------------------------
  // The upcoming strip
  // ---------------------------------------------------------------------

  const UpcomingSlots: nat := 6

  predicate Soon(b: BetView) {
    b.status == Upcoming || b.status == Live
  }

  /** The first six upcoming or live bets, in list order. */
  function UpcomingStrip(bets: seq<BetView>): (r: seq<BetView>)
    ensures |r| <= UpcomingSlots
    ensures |r| == if |Filter(bets, Soon)| < UpcomingSlots then |Filter(bets, Soon)| else UpcomingSlots
    ensures forall b :: b in r ==> b in bets && Soon(b)
    ensures r == Filter(bets, Soon)[..|r|]
  {
    var soon := Filter(bets, Soon);
    var r := if |soon| <= UpcomingSlots then soon else soon[..UpcomingSlots];
    assert forall b :: b in r ==> b in soon;
    r
  }

  /** With at most six upcoming or live bets, the strip shows every one. */
  lemma StripShowsAllWhenFew(bets: seq<BetView>)
    requires |Filter(bets, Soon)| <= UpcomingSlots
    ensures forall b :: b in bets && Soon(b) ==> b in UpcomingStrip(bets)
  {
  }

  /** Bets further down the list never displace one already on the strip:
      the strip of a list is a prefix of the strip of any longer list. */
  lemma StripIsStable(bets: seq<BetView>, more: seq<BetView>)
    ensures var s, t := UpcomingStrip(bets), UpcomingStrip(bets + more);
      |s| <= |t| && t[..|s|] == s
  {
    FilterConcat(bets, more, Soon);
    var a, b := Filter(bets, Soon), Filter(more, Soon);
    var s, t := UpcomingStrip(bets), UpcomingStrip(bets + more);
    assert s == (if |a| <= UpcomingSlots then a else a[..UpcomingSlots]);
    assert t == (if |a + b| <= UpcomingSlots then a + b else (a + b)[..UpcomingSlots]);
    assert forall i :: 0 <= i < |s| ==> t[i] == s[i];
  }

  // ---------------------------------------------------------------------
  // The list query
  // ---------------------------------------------------------------------

  /** The filter controls. */
  datatype Filters = Filters(status: string, search: string, from: string, to: string, sort: string, order: string)

  /** The fixed page size the dashboard asks for. */
  const PageLimit: string := "200"

  /** A parameter given only when `present` holds. */
  function ParamIf(present: bool, name: string, value: string): seq<(string, string)> {
    if present then [(name, value)] else []
  }

  /** The query parameters, in insertion order: status unless "all";
      search, from and to unless empty; then sort, order and the limit. */
  function QueryParams(f: Filters): (r: seq<(string, string)>)
    ensures |r| >= 3 && r[|r| - 3] == ("sort", f.sort) && r[|r| - 2] == ("order", f.order)
      && r[|r| - 1] == ("limit", PageLimit)
  {
    ParamIf(f.status != "all", "status", f.status)
    + ParamIf(f.search != "", "search", f.search)
    + ParamIf(f.from != "", "from", f.from)
    + ParamIf(f.to != "", "to", f.to)
    + ParamIf(true, "sort", f.sort)
    + ParamIf(true, "order", f.order)
    + ParamIf(true, "limit", PageLimit)
  }

  /** The first value given for `name`. */
  function Param(params: seq<(string, string)>, name: string): (r: Option<string>)
    ensures r.Some? <==> exists i :: 0 <= i < |params| && params[i].0 == name
  {
    if |params| == 0 then None
    else if params[0].0 == name then Some(params[0].1)
    else
      var rest := Param(params[1..], name);
      assert forall i :: 1 <= i < |params| ==> params[1..][i - 1] == params[i];
      rest
  }

  /** Looking a name up in two lists in a row finds it in the first when it
      is there. */
  lemma {:induction false} ParamAppend(a: seq<(string, string)>, b: seq<(string, string)>, name: string)
    ensures Param(a + b, name) == if Param(a, name).Some? then Param(a, name) else Param(b, name)
  {
    if |a| == 0 {
      assert a + b == b;
    } else {
      assert (a + b)[1..] == a[1..] + b;
      ParamAppend(a[1..], b, name);
    }
  }

  lemma ParamOfQuery(f: Filters, name: string)
    ensures Param(QueryParams(f), name)
         == if f.status != "all" && name == "status" then Some(f.status)
            else if f.search != "" && name == "search" then Some(f.search)
            else if f.from != "" && name == "from" then Some(f.from)
            else if f.to != "" && name == "to" then Some(f.to)
            else if name == "sort" then Some(f.sort)
            else if name == "order" then Some(f.order)
            else if name == "limit" then Some(PageLimit)
            else None
  {
    var s1 := ParamIf(f.status != "all", "status", f.status);
    var s2 := ParamIf(f.search != "", "search", f.search);
    var s3 := ParamIf(f.from != "", "from", f.from);
    var s4 := ParamIf(f.to != "", "to", f.to);
    var s5 := ParamIf(true, "sort", f.sort);
    var s6 := ParamIf(true, "order", f.order);
    var s7 := ParamIf(true, "limit", PageLimit);
    ParamAppend(s1 + s2 + s3 + s4 + s5 + s6, s7, name);
    ParamAppend(s1 + s2 + s3 + s4 + s5, s6, name);
    ParamAppend(s1 + s2 + s3 + s4, s5, name);
    ParamAppend(s1 + s2 + s3, s4, name);
    ParamAppend(s1 + s2, s3, name);
    ParamAppend(s1, s2, name);
  }

  /** The query string as the server reads it. */
  function ServerView(params: seq<(string, string)>): QueryInput {
    QueryInput(Param(params, "status"), Param(params, "from"), Param(params, "to"), Param(params, "search"),
               Param(params, "limit"), Param(params, "offset"), Param(params, "sort"), Param(params, "order"))
  }

  /** Every parameter the dashboard sets is read back by the server under its
      name, and the ones it leaves out read as absent. */
  lemma QueryParamsReadBack(f: Filters)
    ensures var q := ServerView(QueryParams(f));
      && q.status == (if f.status != "all" then Some(f.status) else None)
      && q.search == (if f.search != "" then Some(f.search) else None)
      && q.from == (if f.from != "" then Some(f.from) else None)
      && q.to == (if f.to != "" then Some(f.to) else None)
      && q.sort == Some(f.sort) && q.order == Some(f.order)
      && q.limit == Some(PageLimit) && q.offset.None?
  {
    ParamOfQuery(f, "status");
    ParamOfQuery(f, "from");
    ParamOfQuery(f, "to");
    ParamOfQuery(f, "search");
    ParamOfQuery(f, "limit");
    ParamOfQuery(f, "offset");
    ParamOfQuery(f, "sort");
    ParamOfQuery(f, "order");
  }

  /** Any query the filter controls can produce (a known status or "all", a
      known sort column and order, and dates the server can read) is
      accepted, asks for 200 rows from the first, and filters by status
      exactly when one is chosen. */
  lemma DashboardQueryAccepted(f: Filters, validDate: string -> bool)
    requires f.status == "all" || StatusOf(f.status).Some?
    requires SortKeyOf(f.sort).Some? && SortOrderOf(f.order).Some?
    requires f.from == "" || validDate(f.from)
    requires f.to == "" || validDate(f.to)
    ensures var r := ParseListQuery(ServerView(QueryParams(f)), validDate);
      && r.Success? && r.value.limit == 200 && r.value.offset == 0
      && (r.value.status.Some? <==> f.status != "all")
  {
    var q := ServerView(QueryParams(f));
    QueryParamsReadBack(f);
    PageLimitNumeral();
    FullPageQuery(q, validDate);
  }

  /** A query whose members are all valid, with limit 200 and no offset. */
  lemma FullPageQuery(q: QueryInput, validDate: string -> bool)
    requires q.status.None? || StatusOf(q.status.value).Some?
    requires DateOk(q.from, validDate) && DateOk(q.to, validDate)
    requires q.limit == Some(IntToString(200)) && q.offset.None?
    requires q.sort.Some? && SortKeyOf(q.sort.value).Some? && q.order.Some? && SortOrderOf(q.order.value).Some?
    ensures var r := ParseListQuery(q, validDate);
      && r.Success? && r.value.limit == 200 && r.value.offset == 0
      && (r.value.status.Some? <==> q.status.Some?)
  {
    LimitRoundTrip(q, 200, validDate);
  }

  lemma PageLimitNumeral()
    ensures PageLimit == IntToString(200)
  {
    assert NatToString(200) == "200";
  }

  // ---------------------------------------------------------------------
  // The edit form
  // ---------------------------------------------------------------------

  /** The edit form's values. `notes` and `actualReturn` are absent when the
      field was never filled in; `result` is "" for none. */
  datatype EditForm = EditForm(
    teams: string,
    betType: string,
    odds: real,
    stake: real,
    currency: string,
    matchTime: string,
    notes: Option<string>,
    status: string,
    result: string,
    actualReturn: Option<string>)

  /** What the form's own schema accepts. */
  predicate EditFormValid(form: EditForm) {
    && JsLength(form.teams) >= 3 && JsLength(form.betType) >= 2
    && form.odds >= MinOdds && form.stake > 0.0
    && JsLength(form.currency) == 3 && JsLength(form.matchTime) >= 1
    && StatusOf(form.status).Some?
    && (form.result == "" || ResultOf(form.result).Some?)
  }

  /** An empty or absent text field: JavaScript falsiness of a string. */
  predicate Blank(v: Option<string>) {
    v.None? || v.value == ""
  }

  /** The PATCH body `updateMutation` sends. `toIso` is
      `new Date(text).toISOString()`. A return that is not a number is
      `NaN`, which JSON writes as `null`. */
  function EditPayload(form: EditForm, toIso: string -> string): (r: PatchInput)
    ensures KeyCount(r) == 10
    ensures r.kind.Missing?
    ensures !r.result.Missing? && !r.actualReturn.Missing? && !r.notes.Missing?
    ensures r.currency == Given(Upper(form.currency))
    ensures r.result.Null? <==> form.result == ""
    ensures r.notes.Null? <==> Blank(form.notes)
    ensures r.actualReturn.Given? <==> !Blank(form.actualReturn) && JsNumber(form.actualReturn.value).Some?
    ensures r.actualReturn.Given? ==> r.actualReturn.value == JsNumber(form.actualReturn.value).value
    ensures r.teams == Given(form.teams) && r.betType == Given(form.betType)
    ensures r.odds == Given(form.odds) && r.stake == Given(form.stake)
    ensures r.matchTime == Given(toIso(form.matchTime)) && r.status == Given(form.status)
    ensures r.result.Given? ==> r.result.value == form.result
    ensures r.notes.Given? ==> r.notes.value == form.notes.value
  {
    PatchInput(
      Missing,
      Given(form.teams),
      Given(form.betType),
      Given(form.odds),
      Given(form.stake),
      Given(Upper(form.currency)),
      Given(toIso(form.matchTime)),
      Given(form.status),
      if form.result == "" then Null else Given(form.result),
      if Blank(form.actualReturn) then Null
      else (match JsNumber(form.actualReturn.value) case Some(x) => Given(x) case None => Null),
      if Blank(form.notes) then Null else Given(form.notes.value))
  }

  /** A form its own schema accepts is also accepted by the server when the
      server's extra limits hold: the length caps, a readable date, a
      non-negative return and short enough notes. Clearing result, return
      or notes in the form clears them on the bet. */
  lemma EditPayloadAccepted(form: EditForm, toIso: string -> string, isDateTime: string -> bool,
                            bet: Bet, parseDate: string -> int)
    requires EditFormValid(form)
    requires JsLength(form.teams) <= 200 && JsLength(form.betType) <= 100
    requires isDateTime(toIso(form.matchTime))
    requires !Blank(form.actualReturn) && JsNumber(form.actualReturn.value).Some? ==>
      JsNumber(form.actualReturn.value).value >= 0.0
    requires !Blank(form.notes) ==> JsLength(form.notes.value) <= 2000
    ensures var parsed := ParsePatch(EditPayload(form, toIso), isDateTime);
      && parsed.Success?
      && parsed.value.currency == Given(Upper(form.currency))
      && var after := ApplyPatch(bet, parsed.value, parseDate);
         && (form.result == "" ==> after.result.None?)
         && (Blank(form.notes) ==> after.notes.None?)
         && (Blank(form.actualReturn) ==> after.actualReturn.None?)
         && after.currency == Upper(form.currency)
  {
    var payload := EditPayload(form, toIso);
    JsLengthUpper(form.currency);
    UpperIdempotent(form.currency);
    var parsed := ParsePatch(payload, isDateTime);
    assert parsed.Success?;
    ParsedPatchNullOnlyWhereAllowed(payload, isDateTime);
  }
}
