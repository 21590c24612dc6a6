/** The lifecycle classifier of a bet: which phase its match is in, given the
    match's start time, the current instant and the stored status. */
module Domain {
  import opened Wrappers

  /** The lifecycle status stored on a bet. */
  datatype BetStatus = Upcoming | Live | Finished | Settled

  /** How long after kick-off a match still counts as live: three hours. */
  const LiveWindowMs: int := 3 * 60 * 60 * 1000

  /** The status a bet should display at instant `now` (milliseconds), for a
      match starting at `matchTime`. A stored `Settled` is terminal; otherwise
      the match is upcoming before kick-off, live from kick-off (inclusive) for
      strictly less than three hours, and finished from the three-hour mark on. */
  function AutoStatus(matchTime: int, now: int, current: Option<BetStatus>): (s: BetStatus)
    ensures current == Some(Settled) ==> s == Settled
    ensures current != Some(Settled) ==> s != Settled
    ensures current != Some(Settled) ==> (s == Upcoming <==> now < matchTime)
    ensures current != Some(Settled) ==> (s == Live <==> now - LiveWindowMs < matchTime <= now)
    ensures current != Some(Settled) ==> (s == Finished <==> matchTime <= now - LiveWindowMs)
  {
    if current == Some(Settled) then Settled
    else
      var diff := matchTime - now;
      if diff > 0 then Upcoming
      else if diff > -LiveWindowMs then Live
      else Finished
  }

  /** The position of a status in the order a bet moves through them. */
  function Phase(s: BetStatus): nat {
    match s
    case Upcoming => 0
    case Live => 1
    case Finished => 2
    case Settled => 3
  }

  /** For a fixed match time, letting time pass never moves the status back
      along upcoming, live, finished. */
  lemma AutoStatusMonotone(matchTime: int, now1: int, now2: int, current: Option<BetStatus>)
    requires now1 <= now2
    ensures Phase(AutoStatus(matchTime, now1, current)) <= Phase(AutoStatus(matchTime, now2, current))
  {
  }

  /** Only the distance between kick-off and now matters: shifting both by the
      same amount leaves the status unchanged. */
  lemma AutoStatusShift(matchTime: int, now: int, shift: int, current: Option<BetStatus>)
    ensures AutoStatus(matchTime + shift, now + shift, current) == AutoStatus(matchTime, now, current)
  {
  }

  /** The boundaries: kick-off itself is live and the exact three-hour mark is
      already finished. */
  lemma AutoStatusBoundaries(now: int)
    ensures AutoStatus(now, now, None) == Live
    ensures AutoStatus(now - LiveWindowMs + 1, now, None) == Live
    ensures AutoStatus(now - LiveWindowMs, now, None) == Finished
    ensures AutoStatus(now + 1, now, None) == Upcoming
  {
  }
}
