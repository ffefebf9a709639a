/**
 * The arbitrage selector of the scanner: for one match, try every ordered
 * triple of bookmakers (one for Home, one for Draw, one for Away), keep the
 * triples whose implied probabilities sum below one, and return the most
 * profitable one whose stakes all fit under the per-bookmaker cap.
 *
 * Odds are exact rationals (`real`), so the arithmetic here is the one the
 * source means rather than the one IEEE-754 floats perform.
 */
module Arbitrage {

  /** Minimum guaranteed profit, in percent, for a triple to be offered. */
  const MIN_PROFIT_PERCENT: real := 0.5
  /** Bankroll split across the three legs of one opportunity. */
  const STAKE_PER_ARB: real := 5250.0
  /** Largest (rounded) stake allowed on one leg. */
  const MAX_STAKE: real := 3000.0

  datatype Option<T> = None | Some(value: T)

  datatype Outcome = Home | Draw | Away

  /** One bookmaker's decimal odds for the three outcomes of a match. */
  datatype Quote = Quote(bookmaker: string, home: real, draw: real, away: real)

  /**
   * A match snapshot. `quotes` stands for the bookmaker-to-odds dictionary,
   * in its insertion order, which decides the order of the search.
   */
  datatype Match = Match(id: int, teams: string, league: string, time: string, quotes: seq<Quote>)

  datatype Leg = Leg(outcome: Outcome, bookmaker: string, odd: real, stake: real)

  datatype Opportunity = Opportunity(
    matchId: int,
    teams: string,
    league: string,
    time: string,
    profitPercent: real,
    legs: seq<Leg>)

  /** Positions in `quotes` of the Home, Draw and Away bookmakers. */
  datatype Triple = Triple(h: nat, d: nat, a: nat)

  /** Every odd is positive, so every reciprocal below is defined. */
  predicate PositiveOdds(m: Match)
  {
    forall i :: 0 <= i < |m.quotes| ==>
      m.quotes[i].home > 0.0 && m.quotes[i].draw > 0.0 && m.quotes[i].away > 0.0
  }

  /** Rounding to two decimals, half up; it moves a value by at most half a hundredth. */
  function Round2(x: real): (r: real)
    ensures x - 0.005 < r <= x + 0.005
  {
    var f := (x * 100.0 + 0.5).Floor;
    assert f as real <= x * 100.0 + 0.5 < f as real + 1.0;
    (f as real) / 100.0
  }

  predicate InRange(m: Match, t: Triple)
  {
    t.h < |m.quotes| && t.d < |m.quotes| && t.a < |m.quotes|
  }

  /** The three legs are placed with three different bookmakers. */
  predicate DistinctBookmakers(m: Match, t: Triple)
    requires InRange(m, t)
  {
    var bh, bd, ba := m.quotes[t.h].bookmaker, m.quotes[t.d].bookmaker, m.quotes[t.a].bookmaker;
    bh != bd && bh != ba && bd != ba
  }

  /** Sum of the implied probabilities of the three chosen odds. */
  function ArbIndex(m: Match, t: Triple): (p: real)
    requires PositiveOdds(m) && InRange(m, t)
    ensures p > 0.0
  {
    ReciprocalPositive(m.quotes[t.h].home);
    ReciprocalPositive(m.quotes[t.d].draw);
    ReciprocalPositive(m.quotes[t.a].away);
    1.0 / m.quotes[t.h].home + 1.0 / m.quotes[t.d].draw + 1.0 / m.quotes[t.a].away
  }

  lemma ReciprocalPositive(x: real)
    requires x > 0.0
    ensures 1.0 / x > 0.0
  {
  }

  /** Guaranteed profit in percent for an implied-probability sum `p`. */
  function ProfitPercent(p: real): (r: real)
    requires p > 0.0
    ensures r > 0.0 <==> p < 1.0
  {
    assert p < 1.0 <==> 1.0 / p > 1.0;
    (1.0 / p - 1.0) * 100.0
  }

  /**
   * Unrounded stake on a leg with odd `odd`, for a triple of index `p`: it
   * is positive and, if its outcome wins, pays `STAKE_PER_ARB / p`.
   */
  function Stake(odd: real, p: real): (r: real)
    requires odd > 0.0 && p > 0.0
    ensures r > 0.0 && r * odd == STAKE_PER_ARB / p
  {
    ReciprocalPositive(odd);
    ReciprocalPositive(p);
    assert (1.0 / odd) * odd == 1.0;
    (1.0 / odd) * STAKE_PER_ARB / p
  }

  function Profit(m: Match, t: Triple): real
    requires PositiveOdds(m) && InRange(m, t)
  {
    ProfitPercent(ArbIndex(m, t))
  }

  /** The three rounded stakes of a triple all fit under the cap. */
  predicate WithinCap(m: Match, t: Triple)
    requires PositiveOdds(m) && InRange(m, t)
  {
    var p := ArbIndex(m, t);
    Round2(Stake(m.quotes[t.h].home, p)) <= MAX_STAKE &&
    Round2(Stake(m.quotes[t.d].draw, p)) <= MAX_STAKE &&
    Round2(Stake(m.quotes[t.a].away, p)) <= MAX_STAKE
  }

  /**
   * A triple the selector may return: three different bookmakers, implied
   * probabilities summing below one, enough profit, and no stake over the cap.
   */
  predicate Qualifies(m: Match, t: Triple)
    requires PositiveOdds(m)
  {
    InRange(m, t) && DistinctBookmakers(m, t) &&
    ArbIndex(m, t) < 1.0 &&
    Profit(m, t) >= MIN_PROFIT_PERCENT &&
    WithinCap(m, t)
  }

  /** The order in which the three nested loops visit triples. */
  predicate Before(u: Triple, t: Triple)
  {
    u.h < t.h || (u.h == t.h && (u.d < t.d || (u.d == t.d && u.a < t.a)))
  }

  /** `t` qualifies, no qualifying triple beats it, and no earlier one ties it. */
  ghost predicate IsBest(m: Match, t: Triple)
    requires PositiveOdds(m)
  {
    Qualifies(m, t) &&
    (forall u :: Qualifies(m, u) ==> Profit(m, u) <= Profit(m, t)) &&
    (forall u :: Qualifies(m, u) && Before(u, t) ==> Profit(m, u) < Profit(m, t))
  }

  /** The opportunity reported for triple `t`, with rounded profit and stakes. */
  function Build(m: Match, t: Triple): Opportunity
    requires PositiveOdds(m) && InRange(m, t)
  {
    var qh, qd, qa := m.quotes[t.h], m.quotes[t.d], m.quotes[t.a];
    var p := ArbIndex(m, t);
    Opportunity(m.id, m.teams, m.league, m.time, Round2(ProfitPercent(p)),
      [Leg(Home, qh.bookmaker, qh.home, Round2(Stake(qh.home, p))),
       Leg(Draw, qd.bookmaker, qd.draw, Round2(Stake(qd.draw, p))),
       Leg(Away, qa.bookmaker, qa.away, Round2(Stake(qa.away, p)))])
  }

  /** What the selector must answer for `m`. */
  ghost predicate BestArb(m: Match, r: Option<Opportunity>)
    requires PositiveOdds(m)
  {
    match r
    case None => forall t :: !Qualifies(m, t)
    case Some(o) => exists t :: IsBest(m, t) && o == Build(m, t)
  }

  /** Some triple of the match qualifies. */
  ghost predicate HasArb(m: Match)
    requires PositiveOdds(m)
  {
    exists t :: Qualifies(m, t)
  }

  /** State of the search after every triple before `cur` has been visited. */
  ghost predicate SearchInv(m: Match, best: Option<Opportunity>, maxProfit: real, bestT: Triple, cur: Triple)
    requires PositiveOdds(m)
  {
    match best
    case None =>
      maxProfit == 0.0 &&
      (forall u :: Qualifies(m, u) ==> !Before(u, cur))
    case Some(o) =>
      Qualifies(m, bestT) && Before(bestT, cur) &&
      maxProfit == Profit(m, bestT) && o == Build(m, bestT) &&
      (forall u :: Qualifies(m, u) && Before(u, cur) ==> Profit(m, u) <= maxProfit) &&
      (forall u :: Qualifies(m, u) && Before(u, bestT) ==> Profit(m, u) < maxProfit)
  }

  /** Finishing a row of Away bookmakers moves on to the next Draw bookmaker. */
  lemma NextRow(m: Match, best: Option<Opportunity>, maxProfit: real, bestT: Triple, i: nat, j: nat)
    requires PositiveOdds(m)
    requires SearchInv(m, best, maxProfit, bestT, Triple(i, j, |m.quotes|))
    ensures SearchInv(m, best, maxProfit, bestT, Triple(i, j + 1, 0))
  {
  }

  /** Finishing every Draw bookmaker moves on to the next Home bookmaker. */
  lemma NextPlane(m: Match, best: Option<Opportunity>, maxProfit: real, bestT: Triple, i: nat)
    requires PositiveOdds(m)
    requires SearchInv(m, best, maxProfit, bestT, Triple(i, |m.quotes|, 0))
    ensures SearchInv(m, best, maxProfit, bestT, Triple(i + 1, 0, 0))
  {
  }

  /**
   * One visit of triple `t`: the search either keeps its state (the triple
   * does not qualify or is no better) or makes `t` the new best.
   */
  lemma Step(m: Match, best: Option<Opportunity>, maxProfit: real, bestT: Triple, t: Triple,
             best': Option<Opportunity>, maxProfit': real, bestT': Triple)
    requires PositiveOdds(m) && InRange(m, t)
    requires SearchInv(m, best, maxProfit, bestT, t)
    requires
      || (best' == best && maxProfit' == maxProfit && bestT' == bestT &&
          (!Qualifies(m, t) || Profit(m, t) <= maxProfit))
      || (Qualifies(m, t) && Profit(m, t) > maxProfit &&
          best' == Some(Build(m, t)) && maxProfit' == Profit(m, t) && bestT' == t)
    ensures SearchInv(m, best', maxProfit', bestT', Triple(t.h, t.d, t.a + 1))
  {
  }

  /** Once every triple has been visited, the search state is the answer. */
  lemma SearchDone(m: Match, best: Option<Opportunity>, maxProfit: real, bestT: Triple)
    requires PositiveOdds(m)
    requires SearchInv(m, best, maxProfit, bestT, Triple(|m.quotes|, 0, 0))
    ensures BestArb(m, best)
  {
    if best.Some? {
      assert IsBest(m, bestT);
    }
  }

  /**
   * The body of the selector's innermost loop: looks at triple (i, j, k) and
   * either keeps the best so far or replaces it with that triple.
   */
  method Visit(m: Match, i: nat, j: nat, k: nat, best: Option<Opportunity>, maxProfit: real, ghost bestT: Triple)
    returns (best': Option<Opportunity>, maxProfit': real, ghost bestT': Triple)
    requires PositiveOdds(m) && InRange(m, Triple(i, j, k))
    requires SearchInv(m, best, maxProfit, bestT, Triple(i, j, k))
    ensures SearchInv(m, best', maxProfit', bestT', Triple(i, j, k + 1))
  {
    var t := Triple(i, j, k);
    best', maxProfit', bestT' := best, maxProfit, bestT;
    var qh, qd, qa := m.quotes[t.h], m.quotes[t.d], m.quotes[t.a];
    if qh.bookmaker != qd.bookmaker && qh.bookmaker != qa.bookmaker && qd.bookmaker != qa.bookmaker {
      var index := 1.0 / qh.home + 1.0 / qd.draw + 1.0 / qa.away;
      assert index == ArbIndex(m, t);
      if index < 1.0 {
        var profit := ((1.0 / index) - 1.0) * 100.0;
        if profit > maxProfit && profit >= MIN_PROFIT_PERCENT {
          var stakeH := Round2((1.0 / qh.home) * STAKE_PER_ARB / index);
          var stakeD := Round2((1.0 / qd.draw) * STAKE_PER_ARB / index);
          var stakeA := Round2((1.0 / qa.away) * STAKE_PER_ARB / index);
          if stakeH > MAX_STAKE || stakeD > MAX_STAKE || stakeA > MAX_STAKE {
            Step(m, best, maxProfit, bestT, t, best', maxProfit', bestT');
            return;
          }
          maxProfit' := profit;
          best' := Some(Opportunity(m.id, m.teams, m.league, m.time, Round2(profit),
            [Leg(Home, qh.bookmaker, qh.home, stakeH),
             Leg(Draw, qd.bookmaker, qd.draw, stakeD),
             Leg(Away, qa.bookmaker, qa.away, stakeA)]));
          bestT' := t;
        }
      }
    }
    Step(m, best, maxProfit, bestT, t, best', maxProfit', bestT');
  }

  /**
   * The arbitrage selector: visits the triples in nested-loop order and
   * keeps the first one of strictly greatest profit whose stakes fit.
   */
  method FindBestArb(m: Match) returns (best: Option<Opportunity>)
    requires PositiveOdds(m)
    ensures BestArb(m, best)
  {
    best := None;
    var maxProfit := 0.0;
    ghost var bestT := Triple(0, 0, 0);
    var n := |m.quotes|;
    for i := 0 to n
      invariant SearchInv(m, best, maxProfit, bestT, Triple(i, 0, 0))
    {
      for j := 0 to n
        invariant SearchInv(m, best, maxProfit, bestT, Triple(i, j, 0))
      {
        for k := 0 to n
          invariant SearchInv(m, best, maxProfit, bestT, Triple(i, j, k))
        {
          best, maxProfit, bestT := Visit(m, i, j, k, best, maxProfit, bestT);
        }
        NextRow(m, best, maxProfit, bestT, i, j);
      }
      NextPlane(m, best, maxProfit, bestT, i);
    }
    SearchDone(m, best, maxProfit, bestT);
  }

  /** The quote of the bookmaker named `b` offers `odd` on `outcome`. */
  predicate Offers(m: Match, b: string, outcome: Outcome, odd: real)
  {
    exists i :: 0 <= i < |m.quotes| && m.quotes[i].bookmaker == b &&
      odd == match outcome
             case Home => m.quotes[i].home
             case Draw => m.quotes[i].draw
             case Away => m.quotes[i].away
  }

  /**
   * A returned opportunity is about the match, has one Home, one Draw and
   * one Away leg at three different bookmakers, each at the odd that
   * bookmaker quotes, with every stake under the cap and a positive profit.
   */
  lemma ReturnedLegs(m: Match, r: Option<Opportunity>)
    requires PositiveOdds(m) && BestArb(m, r) && r.Some?
    ensures var o := r.value;
      o.matchId == m.id && o.teams == m.teams && o.league == m.league && o.time == m.time &&
      |o.legs| == 3 &&
      o.legs[0].outcome == Home && o.legs[1].outcome == Draw && o.legs[2].outcome == Away &&
      o.legs[0].bookmaker != o.legs[1].bookmaker &&
      o.legs[0].bookmaker != o.legs[2].bookmaker &&
      o.legs[1].bookmaker != o.legs[2].bookmaker &&
      (forall l :: 0 <= l < 3 ==>
         Offers(m, o.legs[l].bookmaker, o.legs[l].outcome, o.legs[l].odd) &&
         o.legs[l].stake <= MAX_STAKE) &&
      o.profitPercent > 0.0
  {
    var t :| IsBest(m, t) && r.value == Build(m, t);
    var o := r.value;
    assert Offers(m, o.legs[0].bookmaker, Home, o.legs[0].odd) by {
      assert m.quotes[t.h].bookmaker == o.legs[0].bookmaker;
    }
    assert Offers(m, o.legs[1].bookmaker, Draw, o.legs[1].odd) by {
      assert m.quotes[t.d].bookmaker == o.legs[1].bookmaker;
    }
    assert Offers(m, o.legs[2].bookmaker, Away, o.legs[2].odd) by {
      assert m.quotes[t.a].bookmaker == o.legs[2].bookmaker;
    }
  }

  /** Implied-probability sum recomputed from the three legs of an opportunity. */
  function LegsIndex(o: Opportunity): real
    requires |o.legs| == 3
    requires o.legs[0].odd > 0.0 && o.legs[1].odd > 0.0 && o.legs[2].odd > 0.0
  {
    1.0 / o.legs[0].odd + 1.0 / o.legs[1].odd + 1.0 / o.legs[2].odd
  }

  /**
   * Recomputing the index from a returned opportunity's legs gives an
   * arbitrage (below one) whose profit the reported, rounded, profit
   * matches to within half a hundredth.
   */
  lemma ReturnedProfitRoundTrip(m: Match, r: Option<Opportunity>)
    requires PositiveOdds(m) && BestArb(m, r) && r.Some?
    ensures var o := r.value;
      |o.legs| == 3 && o.legs[0].odd > 0.0 && o.legs[1].odd > 0.0 && o.legs[2].odd > 0.0 &&
      0.0 < LegsIndex(o) < 1.0 &&
      ProfitPercent(LegsIndex(o)) - 0.005 < o.profitPercent <= ProfitPercent(LegsIndex(o)) + 0.005
  {
    var t :| IsBest(m, t) && r.value == Build(m, t);
    BuildRoundTrip(m, t);
  }

  /**
   * For any triple, the index recomputed from the built opportunity's three
   * legs is the triple's own index, and the reported profit is within half a
   * hundredth of the profit that index gives.
   */
  lemma BuildRoundTrip(m: Match, t: Triple)
    requires PositiveOdds(m) && InRange(m, t)
    ensures var o := Build(m, t);
      o.matchId == m.id && |o.legs| == 3 &&
      o.legs[0].odd > 0.0 && o.legs[1].odd > 0.0 && o.legs[2].odd > 0.0 &&
      LegsIndex(o) == ArbIndex(m, t) &&
      ProfitPercent(LegsIndex(o)) - 0.005 < o.profitPercent <= ProfitPercent(LegsIndex(o)) + 0.005
  {
    assert LegsIndex(Build(m, t)) == ArbIndex(m, t);
  }

  /**
   * On a qualifying triple every outcome pays more than the bankroll: each
   * unrounded stake times its odd is STAKE_PER_ARB / p, which exceeds
   * STAKE_PER_ARB because the index p is below one.
   */
  lemma QualifyingPaysMore(m: Match, t: Triple)
    requires PositiveOdds(m) && Qualifies(m, t)
    ensures var p, h, d, a := ArbIndex(m, t), m.quotes[t.h].home, m.quotes[t.d].draw, m.quotes[t.a].away;
      Stake(h, p) * h > STAKE_PER_ARB &&
      Stake(d, p) * d > STAKE_PER_ARB &&
      Stake(a, p) * a > STAKE_PER_ARB
  {
    var p := ArbIndex(m, t);
    assert STAKE_PER_ARB / p > STAKE_PER_ARB by {
      assert STAKE_PER_ARB / p * p == STAKE_PER_ARB;
    }
  }

  /**
   * Before rounding, every leg pays the same, STAKE_PER_ARB / p, whatever
   * the outcome, and the three stakes add up to the bankroll.
   */
  lemma EqualPayout(m: Match, t: Triple)
    requires PositiveOdds(m) && InRange(m, t)
    ensures var p, h, d, a := ArbIndex(m, t), m.quotes[t.h].home, m.quotes[t.d].draw, m.quotes[t.a].away;
      Stake(h, p) * h == STAKE_PER_ARB / p &&
      Stake(d, p) * d == STAKE_PER_ARB / p &&
      Stake(a, p) * a == STAKE_PER_ARB / p &&
      Stake(h, p) + Stake(d, p) + Stake(a, p) == STAKE_PER_ARB
  {
    var p, h, d, a := ArbIndex(m, t), m.quotes[t.h].home, m.quotes[t.d].draw, m.quotes[t.a].away;
    assert p == 1.0 / h + 1.0 / d + 1.0 / a;
    assert Stake(h, p) + Stake(d, p) + Stake(a, p) == (1.0 / h + 1.0 / d + 1.0 / a) * STAKE_PER_ARB / p;
  }

  /** Every triple comes earlier than, equal to, or later than any other. */
  lemma BeforeTotal(u: Triple, t: Triple)
    ensures u == t || Before(u, t) || Before(t, u)
  {
  }

  /** The selector's answer is determined by the match: at most one answer meets BestArb. */
  lemma BestArbUnique(m: Match, r1: Option<Opportunity>, r2: Option<Opportunity>)
    requires PositiveOdds(m) && BestArb(m, r1) && BestArb(m, r2)
    ensures r1 == r2
  {
    if r1.Some? && r2.Some? {
      var t1 :| IsBest(m, t1) && r1.value == Build(m, t1);
      var t2 :| IsBest(m, t2) && r2.value == Build(m, t2);
      BeforeTotal(t1, t2);
    } else if r1.Some? || r2.Some? {
      assert false;
    }
  }

  /**
   * With fewer than three quotes no triple has three different bookmakers,
   * so the answer is None. In the source a match's quotes are keyed by
   * bookmaker name, so the number of quotes is the number of bookmakers.
   */
  lemma FewerThanThreeBookmakers(m: Match)
    requires PositiveOdds(m) && |m.quotes| < 3
    ensures BestArb(m, None)
  {
    forall t | InRange(m, t)
      ensures !DistinctBookmakers(m, t)
    {
      assert t.h == t.d || t.h == t.a || t.d == t.a;
    }
  }
}
