/** The bet-level rollup of the settlement cycle: from the outcomes of a bet's
    legs to the bet's result, its actual return and its settlement state. */
module Parlay {
  import opened Entities
  import opened Sequences
  import opened Products

  /** Whether the bet can be closed yet, and with what. */
  datatype Rollup = NotDone | Done(result: BetResult, actualReturn: real, state: SettlementState)

  /** Some leg of `legs` has outcome `o`. */
  predicate AnyLeg(legs: seq<Leg>, o: LegOutcome) {
    exists i :: 0 <= i < |legs| && legs[i].settlement == o
  }

  /** A whole number of hundredths. */
  predicate IsCents(x: real) {
    (x * 100.0).Floor as real == x * 100.0
  }

  /** `Number(x.toFixed(2))`: the nearest multiple of 0.01, a tie going to the
      larger magnitude (toFixed rounds the absolute value and re-attaches the
      sign). The interval in the second and third clauses holds exactly one
      multiple of 0.01, so together with the first they determine `r`. */
  function ToFixed2(x: real): (r: real)
    ensures IsCents(r)
    ensures x >= 0.0 ==> x - 0.005 < r <= x + 0.005
    ensures x < 0.0 ==> x - 0.005 <= r < x + 0.005
  {
    if x >= 0.0 then RoundCents(x)
    else
      var m := RoundCents(-x);
      CentsNegate(m);
      -m
  }

  lemma CentsNegate(y: real)
    requires IsCents(y)
    ensures IsCents(-y)
  {
    var k := (y * 100.0).Floor;
    assert (-y) * 100.0 == (-k) as real;
  }

  function RoundCents(x: real): (r: real)
    requires x >= 0.0
    ensures IsCents(r)
    ensures x - 0.005 < r <= x + 0.005
  {
    var n := (x * 100.0 + 0.5).Floor;
    assert n as real <= x * 100.0 + 0.5 < n as real + 1.0;
    assert (n as real / 100.0) * 100.0 == n as real;
    n as real / 100.0
  }

  /** Rounding an amount that is already whole cents gives it back. */
  lemma ToFixed2OfCents(x: real)
    requires IsCents(x)
    ensures ToFixed2(x) == x
  {
    var n := (x * 100.0).Floor;
    assert x == n as real / 100.0;
    if x >= 0.0 {
      assert (x * 100.0 + 0.5).Floor == n;
    } else {
      assert ((-x) * 100.0 + 0.5).Floor == -n;
    }
  }

  /** The odds of the won legs, in leg order (the source's `filter`). */
  function WonOddsList(legs: seq<Leg>): (r: seq<real>)
    ensures |r| <= |legs|
  {
    if |legs| == 0 then []
    else (if legs[0].settlement == Won then [legs[0].odds] else []) + WonOddsList(legs[1..])
  }

  function WonOddsProduct(legs: seq<Leg>): real {
    Product(WonOddsList(legs))
  }

  predicate IsWonLeg(leg: Leg) {
    leg.settlement == Won
  }

  function LegOdds(leg: Leg): real {
    leg.odds
  }

  /** The won odds are the odds of the legs a `filter` on the won outcome
      keeps, in the same order. */
  lemma {:induction false} WonOddsIsFilterMap(legs: seq<Leg>)
    ensures WonOddsList(legs) == Map(Filter(legs, IsWonLeg), LegOdds)
  {
    if |legs| > 0 {
      WonOddsIsFilterMap(legs[1..]);
      var head := if IsWonLeg(legs[0]) then [legs[0]] else [];
      var rest := Filter(legs[1..], IsWonLeg);
      assert Filter(legs, IsWonLeg) == head + rest;
      MapConcat(head, rest, LegOdds);
    }
  }

  /** `calculateParlayResult`. Any pending leg keeps the bet open; otherwise a
      leg needing review voids the bet with the stake returned and flags it; a
      lost leg loses it with nothing returned; no won leg at all (every leg a
      push or void) pushes it with the stake returned; and otherwise it is won,
      returning the stake times the product of the won legs' odds, rounded to
      cents. */
  function CalculateParlayResult(legs: seq<Leg>, stake: real): (r: Rollup)
    ensures r.NotDone? <==> AnyLeg(legs, Pending)
    ensures r.Done? ==> (r.state == StateNeedsReview <==> AnyLeg(legs, NeedsReview))
    ensures r.Done? ==> (r.state == StateNeedsReview <==> r.result == BetVoid)
    ensures r.Done? && r.result == BetLost ==> AnyLeg(legs, Lost) && r.actualReturn == 0.0
    ensures r.Done? && r.result == BetPush ==> !AnyLeg(legs, Won) && r.actualReturn == stake
    ensures r.Done? && r.result == BetWon ==> AnyLeg(legs, Won) && !AnyLeg(legs, Lost) && IsCents(r.actualReturn)
    ensures r.Done? && r.result == BetVoid ==> r.actualReturn == stake
    ensures r.Done? && !AnyLeg(legs, NeedsReview) ==> r.state == StateSettled
    ensures r.Done? && !AnyLeg(legs, NeedsReview) ==> (r.result == BetLost <==> AnyLeg(legs, Lost))
    ensures r.Done? && !AnyLeg(legs, NeedsReview) ==>
      (r.result == BetPush <==> !AnyLeg(legs, Lost) && !AnyLeg(legs, Won))
    ensures r.Done? && r.result == BetWon ==>
      r.actualReturn == RoundedReturn(stake, Product(Map(Filter(legs, IsWonLeg), LegOdds)))
  {
    if AnyLeg(legs, Pending) then NotDone
    else if AnyLeg(legs, NeedsReview) then Done(BetVoid, stake, StateNeedsReview)
    else if AnyLeg(legs, Lost) then Done(BetLost, 0.0, StateSettled)
    else if !AnyLeg(legs, Won) then Done(BetPush, stake, StateSettled)
    else
      WonOddsIsFilterMap(legs);
      Done(BetWon, RoundedReturn(stake, WonOddsProduct(legs)), StateSettled)
  }

  /** The stake times the odds product, rounded to cents as `toFixed(2)` does. */
  function RoundedReturn(stake: real, product: real): (r: real)
    ensures IsCents(r)
  {
    ToFixed2(stake * product)
  }

  lemma {:induction false} WonOddsConcat(a: seq<Leg>, b: seq<Leg>)
    ensures WonOddsList(a + b) == WonOddsList(a) + WonOddsList(b)
  {
    if |a| == 0 {
      assert a + b == b;
    } else {
      var head := if a[0].settlement == Won then [a[0].odds] else [];
      assert (a + b)[0] == a[0];
      assert (a + b)[1..] == a[1..] + b;
      WonOddsConcat(a[1..], b);
      assert WonOddsList(a + b) == head + (WonOddsList(a[1..]) + WonOddsList(b));
      assert WonOddsList(a) == head + WonOddsList(a[1..]);
      assert head + (WonOddsList(a[1..]) + WonOddsList(b)) == (head + WonOddsList(a[1..])) + WonOddsList(b);
    }
  }

  /** Reordering the legs reorders the won odds: the same factors, as a
      multiset, enter the product. */
  lemma {:induction false} WonOddsPermutation(a: seq<Leg>, b: seq<Leg>)
    requires multiset(a) == multiset(b)
    ensures multiset(WonOddsList(a)) == multiset(WonOddsList(b))
    decreases |a|
  {
    if |a| == 0 {
      assert |b| == |multiset(b)| == 0;
    } else {
      var i := MatchFirst(a, b);
      var pre, post := b[..i], b[i + 1..];
      assert b == pre + [a[0]] + post;
      WonOddsPermutation(a[1..], pre + post);
      assert a == [a[0]] + a[1..];
      WonOddsConcat([a[0]], a[1..]);
      WonOddsConcat(pre + [a[0]], post);
      WonOddsConcat(pre, [a[0]]);
      WonOddsConcat(pre, post);
    }
  }

  /** The rollup reads the legs as a collection: reordering them changes
      nothing, the won bet's return included. */
  lemma RollupPermutation(a: seq<Leg>, b: seq<Leg>, stake: real)
    requires multiset(a) == multiset(b)
    ensures CalculateParlayResult(a, stake) == CalculateParlayResult(b, stake)
  {
    forall o: LegOutcome
      ensures AnyLeg(a, o) == AnyLeg(b, o)
    {
      AnyLegPermutation(a, b, o);
      AnyLegPermutation(b, a, o);
    }
    assert AnyLeg(a, Pending) == AnyLeg(b, Pending);
    assert AnyLeg(a, NeedsReview) == AnyLeg(b, NeedsReview);
    assert AnyLeg(a, Lost) == AnyLeg(b, Lost);
    assert AnyLeg(a, Won) == AnyLeg(b, Won);
    WonOddsPermutation(a, b);
    ProductPermutation(WonOddsList(a), WonOddsList(b));
  }

  lemma AnyLegPermutation(a: seq<Leg>, b: seq<Leg>, o: LegOutcome)
    requires multiset(a) == multiset(b)
    ensures AnyLeg(a, o) ==> AnyLeg(b, o)
  {
    if AnyLeg(a, o) {
      var i :| 0 <= i < |a| && a[i].settlement == o;
      assert a[i] in multiset(b);
      var j :| 0 <= j < |b| && b[j] == a[i];
    }
  }

  /** A push or void leg is neutral: adding one to a bet never changes its
      rollup (it contributes neither a loss nor odds). */
  lemma NeutralLeg(legs: seq<Leg>, extra: Leg, stake: real)
    requires extra.settlement == Push || extra.settlement == Void
    ensures CalculateParlayResult(legs + [extra], stake) == CalculateParlayResult(legs, stake)
  {
    forall o: LegOutcome | o != Push && o != Void
      ensures AnyLeg(legs + [extra], o) == AnyLeg(legs, o)
    {
      if AnyLeg(legs + [extra], o) {
        var i :| 0 <= i < |legs + [extra]| && (legs + [extra])[i].settlement == o;
        assert i < |legs| && legs[i] == (legs + [extra])[i];
      }
      if AnyLeg(legs, o) {
        var i :| 0 <= i < |legs| && legs[i].settlement == o;
        assert (legs + [extra])[i] == legs[i];
      }
    }
    assert AnyLeg(legs + [extra], Pending) == AnyLeg(legs, Pending);
    assert AnyLeg(legs + [extra], NeedsReview) == AnyLeg(legs, NeedsReview);
    assert AnyLeg(legs + [extra], Lost) == AnyLeg(legs, Lost);
    assert AnyLeg(legs + [extra], Won) == AnyLeg(legs, Won);
    WonOddsConcat(legs, [extra]);
    assert WonOddsList([extra]) == [];
    assert WonOddsList(legs) + [] == WonOddsList(legs);
  }

  /** A one-leg bet follows its leg: a won leg returns the stake times the
      leg's odds (rounded to cents), a lost leg loses, a leg needing review
      voids the bet for review, and a pending leg keeps it open. */
  lemma SingleLegRollup(leg: Leg, stake: real)
    ensures leg.settlement == Won ==> CalculateParlayResult([leg], stake) == Done(BetWon, RoundedReturn(stake, leg.odds), StateSettled)
    ensures leg.settlement == Lost ==> CalculateParlayResult([leg], stake) == Done(BetLost, 0.0, StateSettled)
    ensures leg.settlement == NeedsReview ==> CalculateParlayResult([leg], stake) == Done(BetVoid, stake, StateNeedsReview)
    ensures leg.settlement == Push || leg.settlement == Void ==> CalculateParlayResult([leg], stake) == Done(BetPush, stake, StateSettled)
    ensures leg.settlement == Pending ==> CalculateParlayResult([leg], stake) == NotDone
  {
    forall o: LegOutcome
      ensures AnyLeg([leg], o) <==> leg.settlement == o
    {
      assert [leg][0] == leg;
    }
    if leg.settlement == Won {
      assert WonOddsList([leg]) == [leg.odds] + WonOddsList([]);
      assert [leg.odds][1..] == [];
      assert WonOddsProduct([leg]) == leg.odds * Product([]);
    }
  }

  /** When every leg is won the return is the stake times all the odds. */
  lemma AllWonReturn(legs: seq<Leg>, stake: real)
    requires |legs| > 0
    requires forall i :: 0 <= i < |legs| ==> legs[i].settlement == Won
    ensures CalculateParlayResult(legs, stake) == Done(BetWon, RoundedReturn(stake, OddsProduct(legs)), StateSettled)
  {
    assert legs[0].settlement == Won;
    assert !AnyLeg(legs, Pending) && !AnyLeg(legs, NeedsReview) && !AnyLeg(legs, Lost) && AnyLeg(legs, Won);
    AllWonOdds(legs);
  }

  /** The odds of all the legs, in leg order. */
  function OddsList(legs: seq<Leg>): seq<real> {
    if |legs| == 0 then [] else [legs[0].odds] + OddsList(legs[1..])
  }

  function OddsProduct(legs: seq<Leg>): real {
    Product(OddsList(legs))
  }

  lemma {:induction false} AllWonOdds(legs: seq<Leg>)
    requires forall i :: 0 <= i < |legs| ==> legs[i].settlement == Won
    ensures WonOddsList(legs) == OddsList(legs)
  {
    if |legs| > 0 {
      AllWonOdds(legs[1..]);
    }
  }
}
