/** The API-Football results provider: the status-code table and the mapping
    from an already-decoded `/fixtures?id=` reply to a provider fixture. The
    HTTP request and JSON decoding are not modelled; the reply arrives as a
    record whose optional members mirror the payload's optional keys. */
module ApiFootball {
  import opened Wrappers
  import opened Text
  import opened Entities
  import opened Providers

  const ProviderName: string := "api_football"

  /** Short codes for a fixture that is over (played out, abandoned,
      cancelled, awarded or walked over). */
  const FinishedCodes: seq<string> := ["FT", "AET", "PEN", "CANC", "ABD", "AWD", "WO"]

  /** Short codes for a fixture in play or in a break. */
  const LiveCodes: seq<string> := ["1H", "2H", "HT", "ET", "BT", "P", "LIVE"]

  /** `statusFromShort`: the code is upper-cased (a missing one reads as
      empty), then looked up in the finished table, then in the live table;
      anything else is scheduled. */
  function StatusFromShort(short: Option<string>): (r: FixtureStatus)
    ensures r == FixtureFinished <==> Upper(short.GetOr("")) in FinishedCodes
    ensures r == FixtureLive <==> Upper(short.GetOr("")) in LiveCodes
    ensures r == Scheduled <==> Upper(short.GetOr("")) !in FinishedCodes && Upper(short.GetOr("")) !in LiveCodes
  {
    var code := Upper(short.GetOr(""));
    if code in FinishedCodes then FixtureFinished
    else if code in LiveCodes then FixtureLive
    else Scheduled
  }

  /** A text without lower-case letters is its own upper-case form. */
  lemma UpperUnchanged(s: string)
    requires forall i :: 0 <= i < |s| ==> !('a' <= s[i] <= 'z')
    ensures Upper(s) == s
  {
  }

  /** Each code of the finished table, in any letter case, reads as
      finished; each of the live table as live; any other code, such as
      "NS" (not started), as scheduled. */
  lemma KnownCodes(c: string)
    ensures c in FinishedCodes ==>
      StatusFromShort(Some(c)) == FixtureFinished && StatusFromShort(Some(Lower(c))) == FixtureFinished
    ensures c in LiveCodes ==>
      StatusFromShort(Some(c)) == FixtureLive && StatusFromShort(Some(Lower(c))) == FixtureLive
    ensures Upper(c) !in FinishedCodes && Upper(c) !in LiveCodes ==> StatusFromShort(Some(c)) == Scheduled
    ensures StatusFromShort(Some("NS")) == Scheduled
  {
    if c in FinishedCodes || c in LiveCodes {
      UpperUnchanged(c);
      StatusIgnoresCase(c);
    }
    UpperUnchanged("NS");
  }

  /** The two code tables share no code, so the order of the lookups does
      not matter. */
  lemma CodeTablesDisjoint()
    ensures forall c :: c in FinishedCodes ==> c !in LiveCodes
  {
  }

  /** Codes are matched case-insensitively: lower-casing the code first
      changes nothing. */
  lemma StatusIgnoresCase(s: string)
    ensures StatusFromShort(Some(Lower(s))) == StatusFromShort(Some(s))
    ensures StatusFromShort(Some(Upper(s))) == StatusFromShort(Some(s))
  {
    UpperOfLower(s);
    UpperIdempotent(s);
  }

  /** A missing code, or an empty one, means the fixture is scheduled. */
  lemma MissingCodeScheduled()
    ensures StatusFromShort(None) == Scheduled
    ensures StatusFromShort(Some("")) == Scheduled
  {
  }

  /** `fixture.status.short`, `fixture.id` and `fixture.date` of one reply item. */
  datatype FixtureInfo = FixtureInfo(id: Option<int>, date: Option<string>, short: Option<string>)

  datatype TeamRef = TeamRef(name: Option<string>)

  datatype Teams = Teams(home: Option<TeamRef>, away: Option<TeamRef>)

  /** `goals`; an explicit `null` and a missing key both arrive as `None`. */
  datatype Goals = Goals(home: Option<int>, away: Option<int>)

  datatype ReplyItem = ReplyItem(fixture: Option<FixtureInfo>, teams: Option<Teams>, goals: Option<Goals>)

  /** The HTTP reply: whether the status was OK, and the decoded body's
      `response` array. */
  datatype Reply = Reply(ok: bool, response: Option<seq<ReplyItem>>)

  /** The first item's fixture id, read as JavaScript truthiness: a missing
      id and an id of 0 both count as absent. */
  function FirstFixtureId(reply: Reply): (r: Option<int>)
    ensures r.Some? <==>
      && reply.response.Some? && |reply.response.value| > 0
      && reply.response.value[0].fixture.Some?
      && reply.response.value[0].fixture.value.id.Some?
      && reply.response.value[0].fixture.value.id.value != 0
    ensures r.Some? ==> r == reply.response.value[0].fixture.value.id && r.value != 0
  {
    if reply.response.None? || |reply.response.value| == 0 then None
    else
      var item := reply.response.value[0];
      if item.fixture.None? || item.fixture.value.id.None? || item.fixture.value.id.value == 0 then None
      else item.fixture.value.id
  }

  function TeamName(t: Option<TeamRef>): string {
    if t.Some? && t.value.name.Some? then t.value.name.value else ""
  }

  /** The mapping inside `getFixtureByEventId`. A non-OK reply is an error;
      a reply without a first fixture id finds nothing; otherwise the fixture
      carries the id as text, the mapped status, the team names (empty when
      missing), the goals (null when missing), the kick-off parsed from a
      non-empty date, and a finish time `now` exactly when it is finished.
      `parseDate` stands for `new Date(text)`. */
  function FixtureFromReply(reply: Reply, parseDate: string -> int, now: int): (r: Lookup)
    ensures r == ProviderError <==> !reply.ok
    ensures r == Absent <==> reply.ok && FirstFixtureId(reply).None?
    ensures r.Found? ==>
      var item := reply.response.value[0];
      var f := r.fixture;
      && f.providerEventId == IntToString(FirstFixtureId(reply).value)
      && JsNumber(f.providerEventId) == Some(FirstFixtureId(reply).value as real)
      && f.status == StatusFromShort(item.fixture.value.short)
      && f.homeTeam == TeamName(if item.teams.Some? then item.teams.value.home else None)
      && f.awayTeam == TeamName(if item.teams.Some? then item.teams.value.away else None)
      && f.scoreHome == (if item.goals.Some? then item.goals.value.home else None)
      && f.scoreAway == (if item.goals.Some? then item.goals.value.away else None)
      && (f.startedAt.Some? <==> item.fixture.value.date.Some? && item.fixture.value.date.value != "")
      && (f.startedAt.Some? ==> f.startedAt.value == parseDate(item.fixture.value.date.value))
      && (f.finishedAt.Some? <==> f.status == FixtureFinished)
      && (f.finishedAt.Some? ==> f.finishedAt.value == now)
  {
    if !reply.ok then ProviderError
    else
      match FirstFixtureId(reply)
      case None => Absent
      case Some(id) =>
        var item := reply.response.value[0];
        var info := item.fixture.value;
        var status := StatusFromShort(info.short);
        var teams := if item.teams.Some? then item.teams.value else Teams(None, None);
        var goals := if item.goals.Some? then item.goals.value else Goals(None, None);
        IntToStringIsNumber(id);
        Found(ProviderFixture(
          IntToString(id),
          status,
          TeamName(teams.home),
          TeamName(teams.away),
          goals.home,
          goals.away,
          if info.date.Some? && info.date.value != "" then Some(parseDate(info.date.value)) else None,
          if status == FixtureFinished then Some(now) else None))
  }

  /** The provider over a reply source; `fetchReply` stands for the HTTP call
      for one event id. */
  function ApiFootballProvider(fetchReply: string -> Reply, parseDate: string -> int, now: int): (p: Provider)
    ensures p.name == ProviderName
    ensures forall e :: p.fetch(e) == FixtureFromReply(fetchReply(e), parseDate, now)
  {
    Provider(ProviderName, (e: string) => FixtureFromReply(fetchReply(e), parseDate, now))
  }

  /** A fixture reported with full-time status and both goals is finished and
      scored with exactly those goals, so the leg rules decide it from them. */
  lemma FullTimeReplyScored(reply: Reply, parseDate: string -> int, now: int)
    requires reply.ok && FirstFixtureId(reply).Some?
    requires var item := reply.response.value[0];
      && Upper(item.fixture.value.short.GetOr("")) == "FT"
      && item.goals.Some? && item.goals.value.home.Some? && item.goals.value.away.Some?
    ensures FixtureFromReply(reply, parseDate, now).Found?
    ensures var f := FixtureFromReply(reply, parseDate, now).fixture;
      && f.status == FixtureFinished && f.finishedAt == Some(now)
      && f.scoreHome == reply.response.value[0].goals.value.home
      && f.scoreAway == reply.response.value[0].goals.value.away
  {
  }
}
