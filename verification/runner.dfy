/** One settlement cycle: pick the pending legs that name a provider event,
    group them by event, look each event up once, settle the legs of finished
    events, then close every open bet whose legs are all decided and write one
    audit entry per closed bet. */
module Runner {
  import opened Wrappers
  import opened Domain
  import opened Entities
  import opened Sequences
  import opened Rules
  import opened Parlay
  import opened Providers

  /** At most this many legs are scanned per cycle. */
  const ScanLimit: nat := 300

  /** The actor recorded on audit entries when the caller names none. */
  const DefaultActor: string := "system:settlement"

  const AutoSettledAction: string := "auto_settled"

  // ---------------------------------------------------------------------
  // Selecting the legs to scan
  // ---------------------------------------------------------------------

  /** The bet `betId` exists and is not soft-deleted. */
  predicate LiveBet(bets: seq<Bet>, betId: string) {
    exists i :: 0 <= i < |bets| && bets[i].id == betId && bets[i].deletedAt.None?
  }

  /** The `where` clause of the leg query: pending, with a provider event id,
      on a bet that is not deleted. */
  predicate Eligible(store: Store, l: Leg) {
    l.settlement == Pending && l.providerEventId.Some? && LiveBet(store.bets, l.betId)
  }

  function EligibleIn(store: Store): Leg -> bool {
    (l: Leg) => Eligible(store, l)
  }

  function EventTime(l: Leg): int {
    l.eventTime
  }

  /** The eligible legs, in table order. */
  function EligibleLegs(store: Store): (r: seq<Leg>)
    ensures forall l :: l in r <==> l in store.legs && Eligible(store, l)
  {
    Filter(store.legs, EligibleIn(store))
  }

  /** The leg query: the eligible legs ordered by event time, earliest first
      (ties keep table order), at most `ScanLimit` of them. When more are
      eligible, the ones left out start no earlier than any leg taken. */
  function SelectLegs(store: Store): (r: seq<Leg>)
    ensures |r| <= ScanLimit
    ensures forall l :: l in r ==> l in store.legs && Eligible(store, l)
    ensures SortedBy(r, EventTime)
    ensures |r| == if |EligibleLegs(store)| <= ScanLimit then |EligibleLegs(store)| else ScanLimit
    ensures |EligibleLegs(store)| <= ScanLimit ==> multiset(r) == multiset(EligibleLegs(store))
    ensures multiset(r) <= multiset(EligibleLegs(store))
    ensures forall l, m :: l in EligibleLegs(store) && l !in r && m in r ==> m.eventTime <= l.eventTime
  {
    var eligible := EligibleLegs(store);
    var sorted := SortBy(eligible, EventTime);
    var n := if |sorted| <= ScanLimit then |sorted| else ScanLimit;
    var r := sorted[..n];
    TakeSorted(sorted, n, EventTime);
    assert sorted == r + sorted[n..];
    assert multiset(sorted) == multiset(r) + multiset(sorted[n..]);
    assert n == |sorted| ==> r == sorted;
    forall l | l in r
      ensures l in store.legs && Eligible(store, l)
    {
      assert l in multiset(eligible);
    }
    forall l | l in eligible
      ensures l in sorted
    {
      assert l in multiset(sorted);
    }
    r
  }

  // ---------------------------------------------------------------------
  // Grouping by event
  // ---------------------------------------------------------------------

  /** `leg.provider || provider.name`: an empty provider on the leg counts as
      absent. */
  function ProviderLabel(l: Leg, providerName: string): string {
    if l.provider.Some? && l.provider.value != "" then l.provider.value else providerName
  }

  /** The event id as a template literal prints it. */
  function EventIdText(l: Leg): string {
    match l.providerEventId
    case Some(e) => e
    case None => "null"
  }

  /** The grouping key `<provider>:<event id>`. */
  function GroupKey(l: Leg, providerName: string): string {
    ProviderLabel(l, providerName) + ":" + EventIdText(l)
  }

  /** The legs sharing one grouping key, in scan order. */
  datatype Group = Group(key: string, legs: seq<Leg>)

  function HasKey(providerName: string, key: string): Leg -> bool {
    (l: Leg) => GroupKey(l, providerName) == key
  }

  /** Every grouped leg, group after group. */
  function AllLegs(groups: seq<Group>): seq<Leg> {
    if |groups| == 0 then [] else groups[0].legs + AllLegs(groups[1..])
  }

  predicate DistinctKeys(groups: seq<Group>) {
    forall i, j :: 0 <= i < j < |groups| ==> groups[i].key != groups[j].key
  }

  /** `groups` is the grouping of `legs`: distinct keys, each group holding
      exactly the legs with its key in their original order, and every leg's
      key present. */
  predicate GroupsOf(groups: seq<Group>, legs: seq<Leg>, providerName: string) {
    && DistinctKeys(groups)
    && GroupsMatch(groups, legs, providerName)
    && (forall i :: 0 <= i < |groups| ==> |groups[i].legs| > 0)
    && KeysCovered(groups, legs, providerName)
  }

  predicate GroupsMatch(groups: seq<Group>, legs: seq<Leg>, providerName: string) {
    forall i :: 0 <= i < |groups| ==> groups[i].legs == Filter(legs, HasKey(providerName, groups[i].key))
  }

  predicate KeysCovered(groups: seq<Group>, legs: seq<Leg>, providerName: string) {
    forall l :: l in legs ==> exists i :: 0 <= i < |groups| && groups[i].key == GroupKey(l, providerName)
  }

  /** The position of the group with `key`, if there is one. */
  function FindKey(groups: seq<Group>, key: string): (r: Option<nat>)
    ensures r.Some? ==> r.value < |groups| && groups[r.value].key == key
    ensures r.None? ==> forall i :: 0 <= i < |groups| ==> groups[i].key != key
  {
    if |groups| == 0 then None
    else if groups[|groups| - 1].key == key then Some(|groups| - 1)
    else FindKey(groups[..|groups| - 1], key)
  }

  /** Appending a leg to the group with its key, or opening a new group at
      the end (a `Map` keeps first-insertion order). */
  function AddToGroups(groups: seq<Group>, key: string, l: Leg): (r: seq<Group>)
    requires DistinctKeys(groups)
    ensures |r| == |groups| || |r| == |groups| + 1
    ensures forall i :: 0 <= i < |groups| ==> r[i].key == groups[i].key
    ensures |r| == |groups| + 1 ==> r[|groups|] == Group(key, [l])
    ensures |r| == |groups| + 1 <==> forall i :: 0 <= i < |groups| ==> groups[i].key != key
    ensures forall i :: 0 <= i < |groups| ==>
      r[i].legs == if groups[i].key == key then groups[i].legs + [l] else groups[i].legs
    ensures DistinctKeys(r)
  {
    match FindKey(groups, key)
    case None => groups + [Group(key, [l])]
    case Some(i) => groups[i := Group(key, groups[i].legs + [l])]
  }

  /** The `byEvent` map, as a sequence of groups in first-seen order. */
  function GroupLegs(legs: seq<Leg>, providerName: string): (r: seq<Group>)
    ensures GroupsOf(r, legs, providerName)
    ensures multiset(AllLegs(r)) == multiset(legs)
    ensures |r| <= |legs|
  {
    if |legs| == 0 then []
    else
      var init, last := legs[..|legs| - 1], legs[|legs| - 1];
      assert legs == init + [last];
      var groups := GroupLegs(init, providerName);
      var r := AddToGroups(groups, GroupKey(last, providerName), last);
      AddToGroupsOf(groups, init, last, providerName);
      AllLegsAfterAdd(groups, GroupKey(last, providerName), last);
      r
  }

  lemma AddToGroupsOf(groups: seq<Group>, legs: seq<Leg>, x: Leg, providerName: string)
    requires GroupsOf(groups, legs, providerName)
    ensures GroupsOf(AddToGroups(groups, GroupKey(x, providerName), x), legs + [x], providerName)
  {
    AddToGroupsMatch(groups, legs, x, providerName);
    AddToGroupsCovered(groups, legs, x, providerName);
    AddToGroupsNonEmpty(groups, GroupKey(x, providerName), x);
  }

  lemma AddToGroupsNonEmpty(groups: seq<Group>, key: string, x: Leg)
    requires DistinctKeys(groups)
    requires forall i :: 0 <= i < |groups| ==> |groups[i].legs| > 0
    ensures var r := AddToGroups(groups, key, x);
      forall i :: 0 <= i < |r| ==> |r[i].legs| > 0
  {
  }

  lemma AddToGroupsMatch(groups: seq<Group>, legs: seq<Leg>, x: Leg, providerName: string)
    requires GroupsOf(groups, legs, providerName)
    ensures GroupsMatch(AddToGroups(groups, GroupKey(x, providerName), x), legs + [x], providerName)
  {
    var r := AddToGroups(groups, GroupKey(x, providerName), x);
    forall i | 0 <= i < |r|
      ensures r[i].legs == Filter(legs + [x], HasKey(providerName, r[i].key))
    {
      GroupAfterAdd(groups, legs, x, providerName, i);
    }
  }

  lemma AddToGroupsCovered(groups: seq<Group>, legs: seq<Leg>, x: Leg, providerName: string)
    requires GroupsOf(groups, legs, providerName)
    ensures KeysCovered(AddToGroups(groups, GroupKey(x, providerName), x), legs + [x], providerName)
  {
    var r := AddToGroups(groups, GroupKey(x, providerName), x);
    forall l | l in legs + [x]
      ensures exists i :: 0 <= i < |r| && r[i].key == GroupKey(l, providerName)
    {
      KeyAfterAdd(groups, legs, x, providerName, l);
    }
  }

  lemma GroupAfterAdd(groups: seq<Group>, legs: seq<Leg>, x: Leg, providerName: string, i: nat)
    requires GroupsOf(groups, legs, providerName)
    requires i < |AddToGroups(groups, GroupKey(x, providerName), x)|
    ensures var r := AddToGroups(groups, GroupKey(x, providerName), x);
      r[i].legs == Filter(legs + [x], HasKey(providerName, r[i].key))
  {
    var key := GroupKey(x, providerName);
    var r := AddToGroups(groups, key, x);
    FilterSnoc(legs, x, HasKey(providerName, r[i].key));
    if i == |groups| {
      NoLegsWithNewKey(groups, legs, providerName, key);
    }
  }

  lemma KeyAfterAdd(groups: seq<Group>, legs: seq<Leg>, x: Leg, providerName: string, l: Leg)
    requires DistinctKeys(groups) && KeysCovered(groups, legs, providerName)
    requires l in legs + [x]
    ensures var r := AddToGroups(groups, GroupKey(x, providerName), x);
      exists i :: 0 <= i < |r| && r[i].key == GroupKey(l, providerName)
  {
    var key := GroupKey(x, providerName);
    var r := AddToGroups(groups, key, x);
    if l in legs {
      var i :| 0 <= i < |groups| && groups[i].key == GroupKey(l, providerName);
      assert r[i].key == GroupKey(l, providerName);
    } else if |r| == |groups| + 1 {
      assert r[|groups|].key == key;
    } else {
      var i :| 0 <= i < |groups| && groups[i].key == key;
      assert r[i].key == key;
    }
  }

  lemma FilterSnoc(legs: seq<Leg>, x: Leg, p: Leg -> bool)
    ensures Filter(legs + [x], p) == Filter(legs, p) + (if p(x) then [x] else [])
  {
    FilterConcat(legs, [x], p);
    assert Filter([x], p) == (if p(x) then [x] else []) by {
      assert [x][1..] == [];
    }
  }

  /** A key no group carries belongs to none of the grouped legs. */
  lemma NoLegsWithNewKey(groups: seq<Group>, legs: seq<Leg>, providerName: string, key: string)
    requires GroupsOf(groups, legs, providerName)
    requires forall i :: 0 <= i < |groups| ==> groups[i].key != key
    ensures Filter(legs, HasKey(providerName, key)) == []
  {
    forall l | l in legs
      ensures !HasKey(providerName, key)(l)
    {
      var j :| 0 <= j < |groups| && groups[j].key == GroupKey(l, providerName);
    }
    FilterEmpty(legs, HasKey(providerName, key));
  }

  lemma {:induction false} AllLegsSnoc(groups: seq<Group>, g: Group)
    ensures AllLegs(groups + [g]) == AllLegs(groups) + g.legs
  {
    if |groups| == 0 {
      assert groups + [g] == [g];
    } else {
      assert (groups + [g])[1..] == groups[1..] + [g];
      AllLegsSnoc(groups[1..], g);
    }
  }

  lemma {:induction false} AllLegsUpdate(groups: seq<Group>, i: nat, g: Group)
    requires i < |groups|
    ensures multiset(AllLegs(groups[i := g])) + multiset(groups[i].legs) == multiset(AllLegs(groups)) + multiset(g.legs)
  {
    var u := groups[i := g];
    if i == 0 {
      assert u[1..] == groups[1..];
      assert AllLegs(u) == g.legs + AllLegs(groups[1..]);
    } else {
      assert u[1..] == groups[1..][i - 1 := g];
      AllLegsUpdate(groups[1..], i - 1, g);
      var head := multiset(groups[0].legs);
      var before := multiset(AllLegs(groups[1..]));
      var after := multiset(AllLegs(u[1..]));
      assert after + multiset(groups[i].legs) == before + multiset(g.legs);
      assert multiset(AllLegs(u)) == head + after;
      assert multiset(AllLegs(groups)) == head + before;
      AddBoth(head, after, before, multiset(groups[i].legs), multiset(g.legs));
    }
  }

  lemma AddBoth<T>(h: multiset<T>, a: multiset<T>, b: multiset<T>, c: multiset<T>, d: multiset<T>)
    requires a + c == b + d
    ensures h + a + c == h + b + d
  {
    assert forall x :: (h + a + c)[x] == h[x] + (a + c)[x];
    assert forall x :: (h + b + d)[x] == h[x] + (b + d)[x];
  }

  lemma Cancel<T>(a: multiset<T>, b: multiset<T>, c: multiset<T>)
    requires a + c == b + c
    ensures a == b
  {
    assert forall x :: a[x] == (a + c)[x] - c[x];
    assert forall x :: b[x] == (b + c)[x] - c[x];
  }

  /** Adding a leg puts exactly that leg into the grouping. */
  lemma AllLegsAfterAdd(groups: seq<Group>, key: string, x: Leg)
    requires DistinctKeys(groups)
    ensures multiset(AllLegs(AddToGroups(groups, key, x))) == multiset(AllLegs(groups)) + multiset{x}
  {
    var r := AddToGroups(groups, key, x);
    match FindKey(groups, key)
    case None =>
      assert r == groups + [Group(key, [x])];
      AllLegsSnoc(groups, Group(key, [x]));
      assert AllLegs(r) == AllLegs(groups) + [x];
    case Some(i) =>
      var g := Group(key, groups[i].legs + [x]);
      assert r == groups[i := g];
      AllLegsUpdate(groups, i, g);
      var prior := multiset(groups[i].legs);
      assert multiset(g.legs) == prior + multiset{x};
      assert multiset(AllLegs(r)) + prior == multiset(AllLegs(groups)) + multiset{x} + prior;
      Cancel(multiset(AllLegs(r)), multiset(AllLegs(groups)) + multiset{x}, prior);
  }

  // ---------------------------------------------------------------------
  // Resolving each event group
  // ---------------------------------------------------------------------

  /** One provider lookup: the group it was made for and the event id asked. */
  datatype Call = Call(key: string, eventId: string)

  /** The leg rows after some groups were resolved, the lookups made, and
      how many leg updates were written. */
  datatype Resolution = Resolution(rows: seq<Leg>, calls: seq<Call>, updated: nat)

  /** `after` is `before` as a leg update leaves it: a decided outcome, the
      check time `now`, a settle time `now` unless the outcome needs review,
      and every other column untouched. */
  predicate PatchedRow(before: Leg, after: Leg, now: int) {
    && after.(settlement := before.settlement, scoreHome := before.scoreHome, scoreAway := before.scoreAway,
              checkedAt := before.checkedAt, settledAt := before.settledAt) == before
    && (after.settlement == Won || after.settlement == Lost || after.settlement == NeedsReview)
    && after.checkedAt == Some(now)
    && after.settledAt == (if after.settlement == NeedsReview then None else Some(now))
  }

  /** Row by row, `after` is `before` with some rows updated at `now`. */
  predicate OnlyPatched(before: seq<Leg>, after: seq<Leg>, now: int) {
    && |after| == |before|
    && forall i :: 0 <= i < |before| ==> after[i] == before[i] || PatchedRow(before[i], after[i], now)
  }

  /** Rows whose id no leg of `legs` carries are the same in both. */
  predicate SameOutside(before: seq<Leg>, after: seq<Leg>, legs: seq<Leg>) {
    && |after| == |before|
    && forall i :: 0 <= i < |before| && Untouched(legs, before[i].id) ==> after[i] == before[i]
  }

  lemma OnlyPatchedTrans(a: seq<Leg>, b: seq<Leg>, c: seq<Leg>, now: int)
    requires OnlyPatched(a, b, now) && OnlyPatched(b, c, now)
    ensures OnlyPatched(a, c, now)
  {
    forall i | 0 <= i < |a|
      ensures c[i] == a[i] || PatchedRow(a[i], c[i], now)
    {
      if b[i] != a[i] && c[i] != b[i] {
        assert c[i].(settlement := a[i].settlement, scoreHome := a[i].scoreHome, scoreAway := a[i].scoreAway,
                     checkedAt := a[i].checkedAt, settledAt := a[i].settledAt)
            == b[i].(settlement := a[i].settlement, scoreHome := a[i].scoreHome, scoreAway := a[i].scoreAway,
                     checkedAt := a[i].checkedAt, settledAt := a[i].settledAt);
      }
    }
  }

  /** A row keeps its id through updates. */
  lemma SameOutsideTrans(a: seq<Leg>, b: seq<Leg>, c: seq<Leg>, first: seq<Leg>, rest: seq<Leg>, now: int)
    requires SameOutside(a, b, first) && SameOutside(b, c, rest) && OnlyPatched(a, b, now)
    ensures SameOutside(a, c, first + rest)
  {
    forall i | 0 <= i < |a| && Untouched(first + rest, a[i].id)
      ensures c[i] == a[i]
    {
      assert forall l :: l in first ==> l in first + rest;
      assert forall l :: l in rest ==> l in first + rest;
    }
  }

  /** The update written for one leg: its outcome, the fixture's scores, and
      the two timestamps. */
  function PatchLeg(row: Leg, outcome: LegOutcome, fixture: ProviderFixture, now: int): Leg {
    row.(settlement := outcome, scoreHome := fixture.scoreHome, scoreAway := fixture.scoreAway,
         checkedAt := Some(now), settledAt := if outcome == NeedsReview then None else Some(now))
  }

  /** `update where id = leg.id`, applied to every row carrying that id. A
      decided outcome leaves every row either as it was or updated at `now`;
      an id no row carries changes nothing. */
  function UpdateLeg(rows: seq<Leg>, id: string, outcome: LegOutcome, fixture: ProviderFixture, now: int): (r: seq<Leg>)
    ensures |r| == |rows|
    ensures forall i :: 0 <= i < |rows| && rows[i].id != id ==> r[i] == rows[i]
    ensures forall i :: 0 <= i < |rows| && rows[i].id == id ==> r[i] == PatchLeg(rows[i], outcome, fixture, now)
    ensures outcome in {Won, Lost, NeedsReview} ==> OnlyPatched(rows, r, now)
    ensures (forall i :: 0 <= i < |rows| ==> rows[i].id != id) ==> r == rows
  {
    seq(|rows|, i requires 0 <= i < |rows| =>
      if rows[i].id == id then PatchLeg(rows[i], outcome, fixture, now) else rows[i])
  }

  /** No leg of `eventLegs` carries `id`. */
  predicate Untouched(eventLegs: seq<Leg>, id: string) {
    forall l :: l in eventLegs ==> l.id != id
  }

  /** The inner loop over one event's legs with a fixture in hand: settle each
      leg against the fixture and, unless the outcome is pending, write it. */
  function ApplyFixture(eventLegs: seq<Leg>, rows: seq<Leg>, fixture: ProviderFixture, now: int): (r: Resolution)
    ensures r.calls == []
    ensures r.updated <= |eventLegs|
    ensures fixture.status == FixtureFinished ==> r.updated == |eventLegs|
    ensures SameOutside(rows, r.rows, eventLegs)
    ensures OnlyPatched(rows, r.rows, now)
  {
    if |eventLegs| == 0 then Resolution(rows, [], 0)
    else
      var leg := eventLegs[0];
      var outcome := SettleLeg(leg, fixture);
      var mid := if outcome == Pending then rows else UpdateLeg(rows, leg.id, outcome, fixture, now);
      assert OnlyPatched(rows, mid, now);
      assert SameOutside(rows, mid, [leg]);
      var rest := ApplyFixture(eventLegs[1..], mid, fixture, now);
      OnlyPatchedTrans(rows, mid, rest.rows, now);
      SameOutsideTrans(rows, mid, rest.rows, [leg], eventLegs[1..], now);
      assert [leg] + eventLegs[1..] == eventLegs;
      Resolution(rest.rows, [], rest.updated + if outcome == Pending then 0 else 1)
  }

  /** The event id a group is looked up by: that of its first leg, with a
      missing one read as empty. */
  function EventIdOf(g: Group): string
    requires |g.legs| > 0
  {
    g.legs[0].providerEventId.GetOr("")
  }

  /** Looking the group's event up yields a finished fixture. */
  predicate Settles(g: Group, provider: Provider)
    requires |g.legs| > 0
  {
    && EventIdOf(g) != ""
    && provider.fetch(EventIdOf(g)).Found?
    && provider.fetch(EventIdOf(g)).fixture.status == FixtureFinished
  }

  /** One pass of the outer loop. An empty event id skips the group without a
      lookup; otherwise the provider is asked once, and a failed lookup, a
      missing fixture or one not yet finished leaves every row as it was. */
  function ResolveGroup(g: Group, provider: Provider, rows: seq<Leg>, now: int): (r: Resolution)
    requires |g.legs| > 0
    ensures |r.rows| == |rows|
    ensures r.calls == if EventIdOf(g) == "" then [] else [Call(g.key, EventIdOf(g))]
    ensures !Settles(g, provider) ==> r.rows == rows && r.updated == 0
    ensures Settles(g, provider) ==> r.updated == |g.legs|
    ensures SameOutside(rows, r.rows, g.legs)
    ensures OnlyPatched(rows, r.rows, now)
  {
    var eventId := EventIdOf(g);
    if eventId == "" then Resolution(rows, [], 0)
    else
      var call := Call(g.key, eventId);
      match provider.fetch(eventId)
      case ProviderError => Resolution(rows, [call], 0)
      case Absent => Resolution(rows, [call], 0)
      case Found(fixture) =>
        if fixture.status != FixtureFinished then Resolution(rows, [call], 0)
        else
          var applied := ApplyFixture(g.legs, rows, fixture, now);
          Resolution(applied.rows, [call], applied.updated)
  }

  function Keys(groups: seq<Group>): seq<string> {
    seq(|groups|, i requires 0 <= i < |groups| => groups[i].key)
  }

  /** A group that is looked up: its event id is not empty. */
  predicate LookedUp(g: Group) {
    |g.legs| > 0 && EventIdOf(g) != ""
  }

  /** The lookup made for a group. */
  function CallFor(g: Group): Call {
    Call(g.key, if |g.legs| > 0 then EventIdOf(g) else "")
  }

  /** The lookups the outer loop makes: one per group whose event id is not
      empty, in group order, so at most one per grouping key. */
  function Lookups(groups: seq<Group>): (r: seq<Call>)
    requires forall k :: 0 <= k < |groups| ==> |groups[k].legs| > 0
    ensures |r| <= |groups|
    ensures forall c :: c in r ==> c.eventId != "" && c.key in Keys(groups)
    ensures forall k :: 0 <= k < |groups| && EventIdOf(groups[k]) != "" ==> Call(groups[k].key, EventIdOf(groups[k])) in r
    ensures DistinctKeys(groups) ==> forall j, k :: 0 <= j < k < |r| ==> r[j].key != r[k].key
  {
    if |groups| == 0 then []
    else
      assert forall k :: 1 <= k < |groups| ==> groups[1..][k - 1] == groups[k];
      KeysCons(groups);
      (if EventIdOf(groups[0]) == "" then [] else [Call(groups[0].key, EventIdOf(groups[0]))]) + Lookups(groups[1..])
  }

  /** The lookups are exactly the calls for the groups with an event id, in
      group order: a `filter` then a `map` over the groups. */
  lemma {:induction false} LookupsInOrder(groups: seq<Group>)
    requires forall k :: 0 <= k < |groups| ==> |groups[k].legs| > 0
    ensures Lookups(groups) == Map(Filter(groups, LookedUp), CallFor)
  {
    if |groups| > 0 {
      var tail := groups[1..];
      assert forall k :: 0 <= k < |tail| ==> tail[k] == groups[k + 1];
      LookupsInOrder(tail);
      var head := if LookedUp(groups[0]) then [groups[0]] else [];
      var calls := if EventIdOf(groups[0]) == "" then [] else [Call(groups[0].key, EventIdOf(groups[0]))];
      assert Filter(groups, LookedUp) == head + Filter(tail, LookedUp);
      assert Map(head, CallFor) == calls;
      MapConcat(head, Filter(tail, LookedUp), CallFor);
    }
  }

  /** How many legs belong to groups whose lookup finds a finished fixture. */
  function SettlingLegs(groups: seq<Group>, provider: Provider): nat
    requires forall k :: 0 <= k < |groups| ==> |groups[k].legs| > 0
  {
    if |groups| == 0 then 0
    else (if Settles(groups[0], provider) then |groups[0].legs| else 0) + SettlingLegs(groups[1..], provider)
  }

  /** The outer loop over the groups in first-seen order. */
  function ResolveGroups(groups: seq<Group>, provider: Provider, rows: seq<Leg>, now: int): (r: Resolution)
    requires forall k :: 0 <= k < |groups| ==> |groups[k].legs| > 0
    ensures |r.rows| == |rows|
    ensures r.updated <= |AllLegs(groups)|
    ensures r.updated == SettlingLegs(groups, provider)
    ensures r.calls == Lookups(groups)
    ensures (forall k :: 0 <= k < |groups| ==> !Settles(groups[k], provider)) ==> r.rows == rows && r.updated == 0
    ensures SameOutside(rows, r.rows, AllLegs(groups))
    ensures OnlyPatched(rows, r.rows, now)
  {
    if |groups| == 0 then Resolution(rows, [], 0)
    else
      var first := ResolveGroup(groups[0], provider, rows, now);
      assert forall k :: 1 <= k < |groups| ==> groups[1..][k - 1] == groups[k];
      var rest := ResolveGroups(groups[1..], provider, first.rows, now);
      assert AllLegs(groups) == groups[0].legs + AllLegs(groups[1..]);
      OnlyPatchedTrans(rows, first.rows, rest.rows, now);
      SameOutsideTrans(rows, first.rows, rest.rows, groups[0].legs, AllLegs(groups[1..]), now);
      Resolution(rest.rows, first.calls + rest.calls, first.updated + rest.updated)
  }

  // ---------------------------------------------------------------------
  // Rolling up bets
  // ---------------------------------------------------------------------

  function BetIs(betId: string): Leg -> bool {
    (l: Leg) => l.betId == betId
  }

  /** The legs of bet `betId`, in table order. */
  function BetLegs(legs: seq<Leg>, betId: string): (r: seq<Leg>)
    ensures forall l :: l in r <==> l in legs && l.betId == betId
  {
    Filter(legs, BetIs(betId))
  }

  /** The candidate query: a bet that is not deleted, not yet settled, and
      has at least one leg. */
  predicate Candidate(bet: Bet, legs: seq<Leg>) {
    bet.deletedAt.None? && bet.status != Settled && BetLegs(legs, bet.id) != []
  }

  function RollupOf(bet: Bet, legs: seq<Leg>): Rollup {
    CalculateParlayResult(BetLegs(legs, bet.id), bet.stake)
  }

  /** The cycle closes this bet: it is a candidate and its legs are decided. */
  predicate Closes(bet: Bet, legs: seq<Leg>) {
    Candidate(bet, legs) && RollupOf(bet, legs).Done?
  }

  function ClosesIn(legs: seq<Leg>): Bet -> bool {
    (b: Bet) => Closes(b, legs)
  }

  /** The bet update: status settled plus the rollup's result, return and
      state, settled at `now`. */
  function CloseBet(bet: Bet, rollup: Rollup, now: int): Bet
    requires rollup.Done?
  {
    bet.(status := Settled, result := Some(rollup.result), actualReturn := Some(rollup.actualReturn),
         settledAt := Some(now), settlementState := rollup.state)
  }

  /** One audit row; `changes` is kept as its three fields rather than the
      JSON text. */
  datatype AuditEntry = AuditEntry(
    betId: string,
    action: string,
    changedBy: string,
    result: BetResult,
    actualReturn: real,
    settlementState: SettlementState)

  /** The entry written when `bet` is closed by `actor`. */
  function EntryFor(bet: Bet, legs: seq<Leg>, actor: string): AuditEntry
    requires Closes(bet, legs)
  {
    var rollup := RollupOf(bet, legs);
    AuditEntry(bet.id, AutoSettledAction, actor, rollup.result, rollup.actualReturn, rollup.state)
  }

  predicate IsReview(e: AuditEntry) {
    e.settlementState == StateNeedsReview
  }

  /** The bet updates of the rollup loop: each bet the cycle closes is
      closed, every other bet is left as it was. */
  function CloseBets(bets: seq<Bet>, legs: seq<Leg>, now: int): (r: seq<Bet>)
    ensures |r| == |bets|
    ensures forall i :: 0 <= i < |bets| ==> (r[i] != bets[i] <==> Closes(bets[i], legs))
    ensures forall i :: 0 <= i < |bets| && Closes(bets[i], legs) ==>
      && r[i].(status := bets[i].status, result := bets[i].result, actualReturn := bets[i].actualReturn,
               settledAt := bets[i].settledAt, settlementState := bets[i].settlementState) == bets[i]
      && r[i].status == Settled && r[i].settledAt == Some(now)
      && r[i].result.Some? && r[i].actualReturn.Some?
      && RollupOf(bets[i], legs) == Done(r[i].result.value, r[i].actualReturn.value, r[i].settlementState)
    ensures forall i :: 0 <= i < |bets| && (bets[i].status == Settled || bets[i].deletedAt.Some?) ==> r[i] == bets[i]
    ensures forall i :: 0 <= i < |bets| && r[i] != bets[i] ==> r[i].status == Settled && r[i].id == bets[i].id
  {
    seq(|bets|, i requires 0 <= i < |bets| =>
      if Closes(bets[i], legs) then CloseBet(bets[i], RollupOf(bets[i], legs), now) else bets[i])
  }

  /** The audit entries of the rollup loop, one per closed bet, in bet order. */
  function AuditTrail(bets: seq<Bet>, legs: seq<Leg>, actor: string): (r: seq<AuditEntry>)
    ensures |r| == |Filter(bets, ClosesIn(legs))|
    ensures forall k :: 0 <= k < |r| ==> r[k].action == AutoSettledAction && r[k].changedBy == actor
  {
    if |bets| == 0 then []
    else
      assert Filter(bets, ClosesIn(legs)) ==
        (if Closes(bets[0], legs) then [bets[0]] else []) + Filter(bets[1..], ClosesIn(legs));
      (if Closes(bets[0], legs) then [EntryFor(bets[0], legs, actor)] else []) + AuditTrail(bets[1..], legs, actor)
  }

  /** The bet an audit entry was written for. */
  predicate EntryOf(entry: AuditEntry, bets: seq<Bet>, legs: seq<Leg>, actor: string) {
    exists i :: 0 <= i < |bets| && Closes(bets[i], legs) && entry == EntryFor(bets[i], legs, actor)
  }

  /** Every audit entry belongs to a bet the cycle closes and records that
      bet's rollup. */
  lemma {:induction false} AuditEntriesClosedBets(bets: seq<Bet>, legs: seq<Leg>, actor: string)
    ensures forall e :: e in AuditTrail(bets, legs, actor) ==> EntryOf(e, bets, legs, actor)
  {
    if |bets| > 0 {
      var rest := AuditTrail(bets[1..], legs, actor);
      AuditEntriesClosedBets(bets[1..], legs, actor);
      forall e | e in rest
        ensures EntryOf(e, bets, legs, actor)
      {
        assert EntryOf(e, bets[1..], legs, actor);
        var i :| 0 <= i < |bets| - 1 && Closes(bets[1..][i], legs) && e == EntryFor(bets[1..][i], legs, actor);
        assert bets[1..][i] == bets[i + 1];
      }
      if Closes(bets[0], legs) {
        assert EntryOf(EntryFor(bets[0], legs, actor), bets, legs, actor);
      }
    }
  }

  /** Every bet the cycle closes has its audit entry. */
  lemma {:induction false} ClosedBetsAudited(bets: seq<Bet>, legs: seq<Leg>, actor: string)
    ensures forall i :: 0 <= i < |bets| && Closes(bets[i], legs) ==> EntryFor(bets[i], legs, actor) in AuditTrail(bets, legs, actor)
  {
    if |bets| > 0 {
      ClosedBetsAudited(bets[1..], legs, actor);
      forall i | 1 <= i < |bets| && Closes(bets[i], legs)
        ensures EntryFor(bets[i], legs, actor) in AuditTrail(bets, legs, actor)
      {
        assert bets[1..][i - 1] == bets[i];
      }
    }
  }

  // ---------------------------------------------------------------------
  // The cycle
  // ---------------------------------------------------------------------

  /** The counts a cycle reports. */
  datatype Summary = Summary(provider: string, scannedLegs: nat, updatedLegs: nat, settledBets: nat, reviewBets: nat)

  /** What a cycle leaves behind: the new store, the audit entries appended,
      the provider lookups made in order, and the summary. */
  datatype CycleOutcome = CycleOutcome(store: Store, audit: seq<AuditEntry>, calls: seq<Call>, summary: Summary)

  /** `runSettlementCycle` as a transition of the store. `actor` defaults to
      the system actor; `now` is the single instant every written timestamp
      takes. */
  function RunSettlementCycle(store: Store, provider: Provider, actor: Option<string>, now: int): (r: CycleOutcome)
    ensures |r.store.bets| == |store.bets| && |r.store.legs| == |store.legs|
    ensures r.summary.provider == provider.name
    ensures r.summary.scannedLegs == |SelectLegs(store)| <= ScanLimit
    ensures r.summary.updatedLegs <= r.summary.scannedLegs
    ensures r.summary.updatedLegs == SettlingLegs(GroupLegs(SelectLegs(store), provider.name), provider)
    ensures r.calls == Lookups(GroupLegs(SelectLegs(store), provider.name))
    ensures r.summary.reviewBets <= r.summary.settledBets == |r.audit| <= |store.bets|
    ensures forall k :: 0 <= k < |r.audit| ==>
      r.audit[k].action == AutoSettledAction && r.audit[k].changedBy == actor.GetOr(DefaultActor)
    ensures forall c :: c in r.calls ==> c.eventId != ""
    ensures forall j, k :: 0 <= j < k < |r.calls| ==> r.calls[j].key != r.calls[k].key
    ensures OnlyPatched(store.legs, r.store.legs, now)
    ensures forall i :: 0 <= i < |store.bets| && (store.bets[i].status == Settled || store.bets[i].deletedAt.Some?) ==>
      r.store.bets[i] == store.bets[i]
    ensures forall i :: 0 <= i < |store.bets| && r.store.bets[i] != store.bets[i] ==>
      r.store.bets[i].status == Settled && r.store.bets[i].id == store.bets[i].id
  {
    var changedBy := actor.GetOr(DefaultActor);
    var resolved := ResolveStore(store, provider, now);
    var audit := AuditTrail(store.bets, resolved.rows, changedBy);
    var review := |Filter(audit, IsReview)|;
    CycleOutcome(
      Store(CloseBets(store.bets, resolved.rows, now), resolved.rows),
      audit,
      resolved.calls,
      Summary(provider.name, |SelectLegs(store)|, resolved.updated, |audit|, review))
  }

  /** The leg half of a cycle: select, group, and resolve every group. */
  function ResolveStore(store: Store, provider: Provider, now: int): (r: Resolution)
    ensures r.updated <= |SelectLegs(store)|
    ensures r.updated == SettlingLegs(GroupLegs(SelectLegs(store), provider.name), provider)
    ensures r.calls == Lookups(GroupLegs(SelectLegs(store), provider.name))
    ensures forall c :: c in r.calls ==> c.eventId != ""
    ensures forall j, k :: 0 <= j < k < |r.calls| ==> r.calls[j].key != r.calls[k].key
    ensures OnlyPatched(store.legs, r.rows, now)
    ensures SameOutside(store.legs, r.rows, SelectLegs(store))
    ensures (forall e :: !provider.fetch(e).Found?) ==> r.rows == store.legs && r.updated == 0
  {
    var selected := SelectLegs(store);
    var groups := GroupLegs(selected, provider.name);
    assert |AllLegs(groups)| == |selected|;
    var r := ResolveGroups(groups, provider, store.legs, now);
    SameOutsideSameLegs(store.legs, r.rows, AllLegs(groups), selected);
    NothingFoundNothingResolved(groups, provider, store.legs, now);
    r
  }

  /** With no fixture found, the groups settle no leg and change no row. */
  lemma NothingFoundNothingResolved(groups: seq<Group>, provider: Provider, rows: seq<Leg>, now: int)
    requires forall k :: 0 <= k < |groups| ==> |groups[k].legs| > 0
    ensures (forall e :: !provider.fetch(e).Found?) ==>
      var r := ResolveGroups(groups, provider, rows, now); r.rows == rows && r.updated == 0
  {
    if forall e :: !provider.fetch(e).Found? {
      assert forall k :: 0 <= k < |groups| ==> !Settles(groups[k], provider);
    }
  }

  /** Which rows count as untouched depends only on the multiset of legs. */
  lemma SameOutsideSameLegs(before: seq<Leg>, after: seq<Leg>, legs: seq<Leg>, legs': seq<Leg>)
    requires multiset(legs) == multiset(legs')
    requires SameOutside(before, after, legs)
    ensures SameOutside(before, after, legs')
  {
    forall i | 0 <= i < |before| && Untouched(legs', before[i].id)
      ensures Untouched(legs, before[i].id)
    {
      forall l | l in legs
        ensures l.id != before[i].id
      {
        assert l in multiset(legs);
      }
    }
  }

  /** A leg the cycle would not select (settled already, no event id, or on a
      deleted bet) is left exactly as it was. */
  lemma IneligibleLegsUnchanged(store: Store, provider: Provider, actor: Option<string>, now: int)
    requires UniqueLegIds(store.legs)
    ensures var after := RunSettlementCycle(store, provider, actor, now).store.legs;
      forall i :: 0 <= i < |store.legs| && !Eligible(store, store.legs[i]) ==> after[i] == store.legs[i]
  {
    var selected := SelectLegs(store);
    forall i | 0 <= i < |store.legs| && !Eligible(store, store.legs[i])
      ensures Untouched(selected, store.legs[i].id)
    {
      forall l | l in selected
        ensures l.id != store.legs[i].id
      {
        var j :| 0 <= j < |store.legs| && store.legs[j] == l;
      }
    }
  }

  /** A provider that never finds a fixture changes no leg. */
  lemma NothingFoundLeavesLegs(store: Store, provider: Provider, actor: Option<string>, now: int)
    requires forall e :: !provider.fetch(e).Found?
    ensures RunSettlementCycle(store, provider, actor, now).store.legs == store.legs
    ensures RunSettlementCycle(store, provider, actor, now).summary.updatedLegs == 0
  {
  }

  /** The "none" provider changes no leg. */
  lemma NoneProviderLeavesLegs(store: Store, actor: Option<string>, now: int)
    ensures RunSettlementCycle(store, NoneProvider, actor, now).store.legs == store.legs
    ensures RunSettlementCycle(store, NoneProvider, actor, now).summary.updatedLegs == 0
  {
    NothingFoundLeavesLegs(store, NoneProvider, actor, now);
  }

  /** After a cycle, a second cycle that learns nothing new (the "none"
      provider) changes no bet and writes no audit entry: every bet whose legs
      were all decided was closed by the first. */
  lemma CycleIdempotent(store: Store, provider: Provider, actor: Option<string>, now: int,
                        actor2: Option<string>, now2: int)
    ensures var first := RunSettlementCycle(store, provider, actor, now);
      var second := RunSettlementCycle(first.store, NoneProvider, actor2, now2);
      second.store == first.store && second.audit == []
  {
    var first := RunSettlementCycle(store, provider, actor, now);
    NoneProviderLeavesLegs(first.store, actor2, now2);
    assert ResolveStore(first.store, NoneProvider, now2).rows == first.store.legs;
    NothingLeftToClose(store, provider, actor, now);
    NoClosingNoChange(first.store.bets, first.store.legs, actor2.GetOr(DefaultActor), now2);
  }

  /** After a cycle no bet is left that the same legs would close. */
  lemma NothingLeftToClose(store: Store, provider: Provider, actor: Option<string>, now: int)
    ensures var first := RunSettlementCycle(store, provider, actor, now).store;
      forall i :: 0 <= i < |first.bets| ==> !Closes(first.bets[i], first.legs)
  {
    var legs := ResolveStore(store, provider, now).rows;
    var bets := CloseBets(store.bets, legs, now);
    assert RunSettlementCycle(store, provider, actor, now).store == Store(bets, legs);
    forall i | 0 <= i < |bets|
      ensures !Closes(bets[i], legs)
    {
      if bets[i] == store.bets[i] {
        assert !Closes(store.bets[i], legs);
      }
    }
  }

  lemma NoClosingNoChange(bets: seq<Bet>, legs: seq<Leg>, actor: string, now: int)
    requires forall i :: 0 <= i < |bets| ==> !Closes(bets[i], legs)
    ensures CloseBets(bets, legs, now) == bets
    ensures AuditTrail(bets, legs, actor) == []
  {
    FilterEmpty(bets, ClosesIn(legs));
  }

  /** Run on the legs of one finished event, every row carrying a leg's id
      gets that leg's outcome, the fixture's scores, and the timestamps. */
  lemma {:induction false} ApplyFixtureSettles(eventLegs: seq<Leg>, rows: seq<Leg>, fixture: ProviderFixture, now: int)
    requires UniqueLegIds(eventLegs)
    requires fixture.status == FixtureFinished
    ensures forall j, i :: 0 <= j < |eventLegs| && 0 <= i < |rows| && rows[i].id == eventLegs[j].id ==>
      ApplyFixture(eventLegs, rows, fixture, now).rows[i] == PatchLeg(rows[i], SettleLeg(eventLegs[j], fixture), fixture, now)
  {
    if |eventLegs| > 0 {
      var leg := eventLegs[0];
      var mid := UpdateLeg(rows, leg.id, SettleLeg(leg, fixture), fixture, now);
      var tail := eventLegs[1..];
      assert UniqueLegIds(tail) by {
        forall a, b | 0 <= a < |tail| && 0 <= b < |tail| && tail[a].id == tail[b].id
          ensures a == b
        {
          assert eventLegs[a + 1].id == eventLegs[b + 1].id;
        }
      }
      ApplyFixtureSettles(tail, mid, fixture, now);
      var r := ApplyFixture(eventLegs, rows, fixture, now);
      assert r.rows == ApplyFixture(tail, mid, fixture, now).rows;
      forall j, i | 0 <= j < |eventLegs| && 0 <= i < |rows| && rows[i].id == eventLegs[j].id
        ensures r.rows[i] == PatchLeg(rows[i], SettleLeg(eventLegs[j], fixture), fixture, now)
      {
        if j == 0 {
          forall l | l in tail
            ensures l.id != mid[i].id
          {
            var a :| 0 <= a < |tail| && tail[a] == l;
            assert eventLegs[a + 1] == l;
          }
        } else {
          assert eventLegs[j].id != leg.id;
          assert tail[j - 1] == eventLegs[j];
        }
      }
    }
  }

  /** A group whose event lookup finds a finished fixture: every row carrying
      the id of one of its legs is settled by that leg against the fixture
      fetched for the group's first leg. */
  lemma FinishedFixtureSettlesGroup(g: Group, provider: Provider, rows: seq<Leg>, now: int)
    requires |g.legs| > 0 && UniqueLegIds(g.legs)
    requires Settles(g, provider)
    ensures var fixture := provider.fetch(EventIdOf(g)).fixture;
      var after := ResolveGroup(g, provider, rows, now).rows;
      forall j, i :: 0 <= j < |g.legs| && 0 <= i < |rows| && rows[i].id == g.legs[j].id ==>
        && after[i] == PatchLeg(rows[i], SettleLeg(g.legs[j], fixture), fixture, now)
        && after[i].settlement == SettleLeg(g.legs[j], fixture)
        && after[i].scoreHome == fixture.scoreHome && after[i].scoreAway == fixture.scoreAway
        && (after[i].settledAt.None? <==> after[i].settlement == NeedsReview)
  {
    ApplyFixtureSettles(g.legs, rows, provider.fetch(EventIdOf(g)).fixture, now);
  }

  /** The fixture a settling group's legs are decided against. */
  function FixtureOf(g: Group, provider: Provider): ProviderFixture
    requires |g.legs| > 0 && Settles(g, provider)
  {
    provider.fetch(EventIdOf(g)).fixture
  }

  /** Every leg of every group is among the grouped legs. */
  lemma {:induction false} InAllLegs(groups: seq<Group>, k: nat, j: nat)
    requires k < |groups| && j < |groups[k].legs|
    ensures groups[k].legs[j] in AllLegs(groups)
  {
    if k > 0 {
      InAllLegs(groups[1..], k - 1, j);
    }
  }

  /** Unique ids in a concatenation: unique on each side, and no id on both. */
  lemma UniqueSplit(a: seq<Leg>, b: seq<Leg>)
    requires UniqueLegIds(a + b)
    ensures UniqueLegIds(a) && UniqueLegIds(b)
    ensures forall x, y :: x in a && y in b ==> x.id != y.id
  {
    forall x, y | x in a && y in b
      ensures x.id != y.id
    {
      var i :| 0 <= i < |a| && a[i] == x;
      var j :| 0 <= j < |b| && b[j] == y;
      assert (a + b)[i] == x && (a + b)[|a| + j] == y;
    }
    forall i, j | 0 <= i < |a| && 0 <= j < |a| && a[i].id == a[j].id
      ensures i == j
    {
      assert (a + b)[i] == a[i] && (a + b)[j] == a[j];
    }
    forall i, j | 0 <= i < |b| && 0 <= j < |b| && b[i].id == b[j].id
      ensures i == j
    {
      assert (a + b)[|a| + i] == b[i] && (a + b)[|a| + j] == b[j];
    }
  }

  /** Removing one row from a table with unique ids: the rest have unique
      ids, none of them the removed row's, and the multiset loses that row. */
  lemma UniqueWithout(s: seq<Leg>, p: nat)
    requires UniqueLegIds(s) && p < |s|
    ensures UniqueLegIds(s[..p] + s[p + 1..])
    ensures forall y :: y in s[..p] + s[p + 1..] ==> y.id != s[p].id
    ensures multiset(s[..p] + s[p + 1..]) == multiset(s) - multiset{s[p]}
  {
    var rest := s[..p] + s[p + 1..];
    assert forall a :: 0 <= a < |rest| ==> rest[a] == s[if a < p then a else a + 1];
    forall i, j | 0 <= i < |rest| && 0 <= j < |rest| && rest[i].id == rest[j].id
      ensures i == j
    {
      assert rest[i] == s[if i < p then i else i + 1];
      assert rest[j] == s[if j < p then j else j + 1];
    }
    forall y | y in rest
      ensures y.id != s[p].id
    {
      var a :| 0 <= a < |rest| && rest[a] == y;
      assert rest[a] == s[if a < p then a else a + 1];
    }
    assert s == s[..p] + [s[p]] + s[p + 1..];
  }

  /** Legs drawn from a table with unique ids have unique ids. */
  lemma {:induction false} UniqueIdsWithin(s: seq<Leg>, t: seq<Leg>)
    requires UniqueLegIds(s) && multiset(t) <= multiset(s)
    ensures UniqueLegIds(t)
    decreases |t|
  {
    if |t| > 0 {
      var n := |t| - 1;
      var x, init := t[n], t[..n];
      assert t == init + [x];
      assert x in multiset(s);
      var p :| 0 <= p < |s| && s[p] == x;
      var rest := s[..p] + s[p + 1..];
      UniqueWithout(s, p);
      assert multiset(init) == multiset(t) - multiset{x};
      assert multiset(init) <= multiset(rest);
      UniqueIdsWithin(rest, init);
      assert forall y :: y in init ==> y in multiset(rest);
      UniqueAppend(init, x);
    }
  }

  lemma UniqueAppend(init: seq<Leg>, x: Leg)
    requires UniqueLegIds(init)
    requires forall y :: y in init ==> y.id != x.id
    ensures UniqueLegIds(init + [x])
  {
    var t := init + [x];
    forall a, b | 0 <= a < |t| && 0 <= b < |t| && t[a].id == t[b].id
      ensures a == b
    {
      if a < |init| {
        assert t[a] == init[a];
      }
      if b < |init| {
        assert t[b] == init[b];
      }
    }
  }

  /** Row `i` carries the id of leg `j` of group `k`, and that group's lookup
      finds a finished fixture. */
  predicate SettledRow(groups: seq<Group>, provider: Provider, rows: seq<Leg>, k: int, j: int, i: int)
    requires forall k :: 0 <= k < |groups| ==> |groups[k].legs| > 0
  {
    && 0 <= k < |groups| && 0 <= j < |groups[k].legs| && 0 <= i < |rows|
    && Settles(groups[k], provider) && rows[i].id == groups[k].legs[j].id
  }

  /** That row once leg `j` of group `k` is settled against the group's
      fixture. */
  function SettledValue(groups: seq<Group>, provider: Provider, rows: seq<Leg>, now: int, k: int, j: int, i: int): Leg
    requires forall k :: 0 <= k < |groups| ==> |groups[k].legs| > 0
    requires SettledRow(groups, provider, rows, k, j, i)
  {
    var fixture := FixtureOf(groups[k], provider);
    PatchLeg(rows[i], SettleLeg(groups[k].legs[j], fixture), fixture, now)
  }

  /** Over all groups, with leg ids unique across them: every row carrying
      the id of a leg in a group whose lookup finds a finished fixture is
      settled by that leg against that fixture. */
  lemma {:induction false} ResolveGroupsSettles(groups: seq<Group>, provider: Provider, rows: seq<Leg>, now: int)
    requires forall k :: 0 <= k < |groups| ==> |groups[k].legs| > 0
    requires UniqueLegIds(AllLegs(groups))
    ensures var after := ResolveGroups(groups, provider, rows, now).rows;
      forall k, j, i :: SettledRow(groups, provider, rows, k, j, i) ==>
        after[i] == SettledValue(groups, provider, rows, now, k, j, i)
  {
    if |groups| > 0 {
      var g, tail := groups[0], groups[1..];
      assert forall k :: 0 <= k < |tail| ==> tail[k] == groups[k + 1];
      assert AllLegs(groups) == g.legs + AllLegs(tail);
      UniqueSplit(g.legs, AllLegs(tail));
      var first := ResolveGroup(g, provider, rows, now);
      ResolveGroupsSettles(tail, provider, first.rows, now);
      var after := ResolveGroups(groups, provider, rows, now).rows;
      assert after == ResolveGroups(tail, provider, first.rows, now).rows;
      forall k, j, i | SettledRow(groups, provider, rows, k, j, i)
        ensures after[i] == SettledValue(groups, provider, rows, now, k, j, i)
      {
        if k == 0 {
          FirstGroupSettles(groups, provider, rows, now, j, i);
        } else {
          LaterGroupUntouchedFirst(groups, provider, rows, now, k, j, i);
          assert SettledRow(tail, provider, first.rows, k - 1, j, i);
        }
      }
    }
  }

  /** A row settled by the first group keeps that value through the rest. */
  lemma FirstGroupSettles(groups: seq<Group>, provider: Provider, rows: seq<Leg>, now: int, j: int, i: int)
    requires forall k :: 0 <= k < |groups| ==> |groups[k].legs| > 0
    requires SettledRow(groups, provider, rows, 0, j, i)
    requires UniqueLegIds(groups[0].legs + AllLegs(groups[1..]))
    ensures ResolveGroups(groups, provider, rows, now).rows[i] == SettledValue(groups, provider, rows, now, 0, j, i)
  {
    var g, tail := groups[0], groups[1..];
    assert forall k :: 0 <= k < |tail| ==> tail[k] == groups[k + 1];
    UniqueSplit(g.legs, AllLegs(tail));
    var first := ResolveGroup(g, provider, rows, now);
    FinishedFixtureSettlesGroup(g, provider, rows, now);
    assert first.rows[i] == SettledValue(groups, provider, rows, now, 0, j, i);
    assert g.legs[j] in g.legs;
    assert Untouched(AllLegs(tail), first.rows[i].id);
    assert ResolveGroups(groups, provider, rows, now).rows == ResolveGroups(tail, provider, first.rows, now).rows;
  }

  /** A row carrying the id of a later group's leg is untouched by the first
      group. */
  lemma LaterGroupUntouchedFirst(groups: seq<Group>, provider: Provider, rows: seq<Leg>, now: int, k: int, j: int, i: int)
    requires forall k :: 0 <= k < |groups| ==> |groups[k].legs| > 0
    requires SettledRow(groups, provider, rows, k, j, i) && k > 0
    requires UniqueLegIds(groups[0].legs + AllLegs(groups[1..]))
    ensures ResolveGroup(groups[0], provider, rows, now).rows[i] == rows[i]
  {
    var g, tail := groups[0], groups[1..];
    assert tail[k - 1] == groups[k];
    UniqueSplit(g.legs, AllLegs(tail));
    InAllLegs(tail, k - 1, j);
    assert Untouched(g.legs, rows[i].id);
  }

  /** What a cycle settles: assuming leg ids are unique, every row carrying
      the id of a selected leg whose event lookup finds a finished fixture
      gets that leg's outcome, the fixture's scores and the timestamps, and
      the summary counts exactly the legs of those events. */
  lemma CycleSettlesFinishedEvents(store: Store, provider: Provider, actor: Option<string>, now: int)
    requires UniqueLegIds(store.legs)
    ensures var groups := GroupLegs(SelectLegs(store), provider.name);
      var out := RunSettlementCycle(store, provider, actor, now);
      && out.summary.updatedLegs == SettlingLegs(groups, provider)
      && forall k, j, i :: SettledRow(groups, provider, store.legs, k, j, i) ==>
        out.store.legs[i] == SettledValue(groups, provider, store.legs, now, k, j, i)
  {
    var selected := SelectLegs(store);
    var groups := GroupLegs(selected, provider.name);
    assert multiset(selected) <= multiset(store.legs);
    UniqueIdsWithin(store.legs, AllLegs(groups));
    ResolveGroupsSettles(groups, provider, store.legs, now);
    var out := RunSettlementCycle(store, provider, actor, now);
    assert out.store.legs == ResolveGroups(groups, provider, store.legs, now).rows;
  }

  lemma KeysCons(groups: seq<Group>)
    requires |groups| > 0
    ensures Keys(groups) == [groups[0].key] + Keys(groups[1..])
    ensures DistinctKeys(groups) ==> groups[0].key !in Keys(groups[1..])
  {
    assert forall j :: 0 <= j < |groups| - 1 ==> Keys(groups[1..])[j] == groups[j + 1].key;
  }

  /** Two legs whose labels hold no ':' share a grouping key only when they
      name the same provider and the same event. */
  lemma GroupKeyInjective(a: Leg, b: Leg, providerName: string)
    requires ':' !in ProviderLabel(a, providerName) && ':' !in ProviderLabel(b, providerName)
    ensures GroupKey(a, providerName) == GroupKey(b, providerName) <==>
      ProviderLabel(a, providerName) == ProviderLabel(b, providerName) && EventIdText(a) == EventIdText(b)
  {
    if GroupKey(a, providerName) == GroupKey(b, providerName) {
      SplitAtColon(ProviderLabel(a, providerName), EventIdText(a), ProviderLabel(b, providerName), EventIdText(b));
    }
  }

  lemma SplitAtColon(p1: string, e1: string, p2: string, e2: string)
    requires ':' !in p1 && ':' !in p2
    requires p1 + ":" + e1 == p2 + ":" + e2
    ensures p1 == p2 && e1 == e2
  {
    var k1, k2 := p1 + ":" + e1, p2 + ":" + e2;
    ColonAfter(p1, e1);
    ColonAfter(p2, e2);
    if |p1| < |p2| {
      assert false;
    } else if |p2| < |p1| {
      assert false;
    }
    assert p1 == k1[..|p1|] && p2 == k2[..|p2|];
    assert e1 == k1[|p1| + 1..] && e2 == k2[|p2| + 1..];
  }

  /** In `p + ":" + e` the label's characters come first and the separator
      sits right after them. */
  lemma ColonAfter(p: string, e: string)
    ensures (p + ":" + e)[|p|] == ':'
    ensures forall j :: 0 <= j < |p| ==> (p + ":" + e)[j] == p[j]
  {
  }

  /** A label holding ':' can merge two different events into one group:
      provider "a:b" with event "c" and provider "a" with event "b:c". */
  lemma GroupKeyAmbiguous(l: Leg)
    ensures var x := l.(provider := Some("a:b"), providerEventId := Some("c"));
      var y := l.(provider := Some("a"), providerEventId := Some("b:c"));
      GroupKey(x, "none") == GroupKey(y, "none") && EventIdText(x) != EventIdText(y)
  {
    var x := l.(provider := Some("a:b"), providerEventId := Some("c"));
    var y := l.(provider := Some("a"), providerEventId := Some("b:c"));
    assert GroupKey(x, "none") == "a:b:c";
    assert GroupKey(y, "none") == "a:b:c";
  }
}
