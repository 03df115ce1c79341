/** The equilibrium solver of the Ace/King/Queen game.
    The expected value E(b, c) is bilinear (Payoff.ExpectedValueClosedForm),
    so its partial derivative in one probability is a linear function of
    the other one alone. Setting the derivative in Ivan's probability to
    zero and solving for Opal's gives the call probability that makes Ivan
    indifferent, and the other way round; each solution is clamped into
    [0, 1] and the pair is substituted back into E. The pot is fixed at 2
    (one ante from each player). */
module Equilibrium {
  import opened Payoff

  datatype Option<T> = None | Some(value: T)

  /** What the solver reports: Ivan's bet probability with the Queen,
      Opal's call probability with the King, and Ivan's expected value. */
  datatype Profile = Profile(betWithQueen: real, callWithKing: real, ev: real)

  const DefaultPot: real := 2.0

  /** The distance between two reals. */
  function Distance(x: real, y: real): real
  {
    if x < y then y - x else x - y
  }

  /** Clamps a probability into [0, 1]. */
  function Clamp(x: real): (r: real)
    ensures 0.0 <= r <= 1.0
    ensures 0.0 <= x <= 1.0 ==> r == x
    ensures forall y :: 0.0 <= y <= 1.0 ==> Distance(r, x) <= Distance(y, x)
  {
    if x < 0.0 then 0.0
    else if x > 1.0 then 1.0
    else x
  }

  /** The partial derivative of the expected value in Ivan's probability:
      what always betting the Queen gains over never betting it. */
  function DBet(pot: real, betSize: real, call: real): (d: real)
    ensures d == ExpectedValue(pot, betSize, 1.0, call) - ExpectedValue(pot, betSize, 0.0, call)
  {
    ExpectedValueClosedForm(pot, betSize, 1.0, call);
    ExpectedValueClosedForm(pot, betSize, 0.0, call);
    (pot - betSize - (betSize + pot) * call) / 6.0
  }

  /** The partial derivative of the expected value in Opal's probability:
      what Ivan gains when Opal always calls with the King rather than
      never. */
  function DCall(pot: real, betSize: real, bet: real): (d: real)
    ensures d == ExpectedValue(pot, betSize, bet, 1.0) - ExpectedValue(pot, betSize, bet, 0.0)
  {
    ExpectedValueClosedForm(pot, betSize, bet, 1.0);
    ExpectedValueClosedForm(pot, betSize, bet, 0.0);
    (betSize - (betSize + pot) * bet) / 6.0
  }

  /** The expected value is affine in Ivan's probability and DBet is its
      exact slope: moving from b1 to b2 changes it by (b2 - b1) DBet. */
  lemma BetSlope(pot: real, betSize: real, b1: real, b2: real, call: real)
    ensures ExpectedValue(pot, betSize, b2, call) - ExpectedValue(pot, betSize, b1, call)
         == (b2 - b1) * DBet(pot, betSize, call)
  {
    ExpectedValueClosedForm(pot, betSize, b1, call);
    ExpectedValueClosedForm(pot, betSize, b2, call);
  }

  /** The expected value is affine in Opal's probability and DCall is its
      exact slope. */
  lemma CallSlope(pot: real, betSize: real, bet: real, c1: real, c2: real)
    ensures ExpectedValue(pot, betSize, bet, c2) - ExpectedValue(pot, betSize, bet, c1)
         == (c2 - c1) * DCall(pot, betSize, bet)
  {
    ExpectedValueClosedForm(pot, betSize, bet, c1);
    ExpectedValueClosedForm(pot, betSize, bet, c2);
  }

  /** Solves DBet = 0 for Opal's call probability. When pot + betSize is 0
      the derivative does not mention the call probability and no root is
      returned. */
  function SolveCall(pot: real, betSize: real): (r: Option<real>)
    ensures r.Some? <==> pot + betSize != 0.0
    ensures r.Some? ==> DBet(pot, betSize, r.value) == 0.0
    ensures r.Some? ==> forall c :: DBet(pot, betSize, c) == 0.0 ==> c == r.value
    ensures r.None? && pot != 0.0 ==> forall c :: DBet(pot, betSize, c) != 0.0
  {
    if pot + betSize == 0.0 then None else Some((pot - betSize) / (pot + betSize))
  }

  /** Solves DCall = 0 for Ivan's bet probability, with the same
      degenerate case. */
  function SolveBet(pot: real, betSize: real): (r: Option<real>)
    ensures r.Some? <==> pot + betSize != 0.0
    ensures r.Some? ==> DCall(pot, betSize, r.value) == 0.0
    ensures r.Some? ==> forall b :: DCall(pot, betSize, b) == 0.0 ==> b == r.value
    ensures r.None? && betSize != 0.0 ==> forall b :: DCall(pot, betSize, b) != 0.0
  {
    if pot + betSize == 0.0 then None else Some(betSize / (betSize + pot))
  }

  /** The solved probabilities depend only on the ratio of bet to pot. */
  lemma SolutionsAreScaleFree(k: real, pot: real, betSize: real)
    requires k != 0.0
    ensures SolveCall(k * pot, k * betSize) == SolveCall(pot, betSize)
    ensures SolveBet(k * pot, k * betSize) == SolveBet(pot, betSize)
  {
    assert k * pot + k * betSize == k * (pot + betSize);
    if pot + betSize != 0.0 {
      assert (k * pot - k * betSize) / (k * (pot + betSize)) == (pot - betSize) / (pot + betSize);
      assert k * betSize / (k * betSize + k * pot) == betSize / (betSize + pot);
    }
  }

  /** The unclamped call probability makes Ivan's expected value the same
      whatever he does with the Queen. */
  lemma SolvedCallMakesIvanIndifferent(pot: real, betSize: real, b1: real, b2: real)
    requires pot + betSize != 0.0
    ensures ExpectedValue(pot, betSize, b1, SolveCall(pot, betSize).value)
         == ExpectedValue(pot, betSize, b2, SolveCall(pot, betSize).value)
  {
    BetSlope(pot, betSize, b1, b2, SolveCall(pot, betSize).value);
  }

  /** The unclamped bet probability makes Ivan's expected value the same
      whatever Opal does with the King. */
  lemma SolvedBetMakesOpalIndifferent(pot: real, betSize: real, c1: real, c2: real)
    requires pot + betSize != 0.0
    ensures ExpectedValue(pot, betSize, SolveBet(pot, betSize).value, c1)
         == ExpectedValue(pot, betSize, SolveBet(pot, betSize).value, c2)
  {
    CallSlope(pot, betSize, SolveBet(pot, betSize).value, c1, c2);
  }

  /** find_equilibrium with the pot at its default of 2: solve, clamp,
      substitute. It fails (None) exactly when the derivative equations
      have no root, which is when betSize is -2. */
  function FindEquilibrium(betSize: real): (r: Option<Profile>)
    ensures r.Some? <==> betSize != -2.0
    ensures r.Some? ==> 0.0 <= r.value.betWithQueen <= 1.0 && 0.0 <= r.value.callWithKing <= 1.0
    ensures r.Some? ==> r.value.ev == ExpectedValue(DefaultPot, betSize, r.value.betWithQueen, r.value.callWithKing)
    ensures r.Some? ==> forall x :: DBet(DefaultPot, betSize, x) == 0.0 ==>
      forall y :: 0.0 <= y <= 1.0 ==> Distance(r.value.callWithKing, x) <= Distance(y, x)
    ensures r.Some? ==> forall x :: DCall(DefaultPot, betSize, x) == 0.0 ==>
      forall y :: 0.0 <= y <= 1.0 ==> Distance(r.value.betWithQueen, x) <= Distance(y, x)
  {
    match (SolveCall(DefaultPot, betSize), SolveBet(DefaultPot, betSize))
    case (Some(rawCall), Some(rawBet)) =>
      var optCall := Clamp(rawCall);
      var optBet := Clamp(rawBet);
      Some(Profile(optBet, optCall, ExpectedValue(DefaultPot, betSize, optBet, optCall)))
    case _ => None
  }

  /** A profile from which neither player gains by deviating alone: Ivan
      maximises the expected value, Opal (the game is constant-sum) minimises it. */
  ghost predicate IsNashEquilibrium(pot: real, betSize: real, bet: real, call: real)
  {
    && 0.0 <= bet <= 1.0 && 0.0 <= call <= 1.0
    && (forall b :: 0.0 <= b <= 1.0 ==> ExpectedValue(pot, betSize, b, call) <= ExpectedValue(pot, betSize, bet, call))
    && (forall c :: 0.0 <= c <= 1.0 ==> ExpectedValue(pot, betSize, bet, c) >= ExpectedValue(pot, betSize, bet, call))
  }

  /** When both solutions already lie in [0, 1] (bet sizes up to the pot),
      nothing is clamped and the result is an equilibrium: each player is
      indifferent to his or her own free probability. */
  lemma FindEquilibriumIsNash(betSize: real)
    requires 0.0 <= betSize <= DefaultPot
    ensures SolveCall(DefaultPot, betSize).Some? && SolveBet(DefaultPot, betSize).Some?
    ensures FindEquilibrium(betSize).Some?
    ensures FindEquilibrium(betSize).value.callWithKing == SolveCall(DefaultPot, betSize).value
    ensures FindEquilibrium(betSize).value.betWithQueen == SolveBet(DefaultPot, betSize).value
    ensures IsNashEquilibrium(DefaultPot, betSize, SolveBet(DefaultPot, betSize).value, SolveCall(DefaultPot, betSize).value)
  {
    var p := FindEquilibrium(betSize).value;
    assert 0.0 <= (DefaultPot - betSize) / (DefaultPot + betSize) <= 1.0;
    assert 0.0 <= betSize / (betSize + DefaultPot) <= 1.0;
    forall b | 0.0 <= b <= 1.0
      ensures ExpectedValue(DefaultPot, betSize, b, p.callWithKing) == ExpectedValue(DefaultPot, betSize, p.betWithQueen, p.callWithKing)
    {
      SolvedCallMakesIvanIndifferent(DefaultPot, betSize, b, p.betWithQueen);
    }
    forall c | 0.0 <= c <= 1.0
      ensures ExpectedValue(DefaultPot, betSize, p.betWithQueen, c) == ExpectedValue(DefaultPot, betSize, p.betWithQueen, p.callWithKing)
    {
      SolvedBetMakesOpalIndifferent(DefaultPot, betSize, c, p.callWithKing);
    }
  }

  /** With the default bet size of 1 nothing is clamped: both probabilities
      are 1/3 and Ivan's expected value is 19/18. */
  lemma DefaultBetSizeEquilibrium()
    ensures FindEquilibrium(1.0) == Some(Profile(1.0 / 3.0, 1.0 / 3.0, 19.0 / 18.0))
  {
    ExpectedValueClosedForm(DefaultPot, 1.0, 1.0 / 3.0, 1.0 / 3.0);
  }

  /** Above the pot the solver clamps the call probability to 0 but keeps
      Ivan's indifference bet probability s / (s + 2), although against a
      call probability of 0 Ivan does strictly better by never betting the
      Queen: the profile reported is not an equilibrium. */
  lemma FindEquilibriumNotNashAbovePot(betSize: real)
    requires betSize > DefaultPot
    ensures FindEquilibrium(betSize).Some?
    ensures var p := FindEquilibrium(betSize).value;
      p.callWithKing == 0.0
      && p.betWithQueen == betSize / (betSize + DefaultPot)
      && ExpectedValue(DefaultPot, betSize, 0.0, 0.0) > p.ev
      && !IsNashEquilibrium(DefaultPot, betSize, p.betWithQueen, p.callWithKing)
  {
    var p := FindEquilibrium(betSize).value;
    assert (DefaultPot - betSize) / (DefaultPot + betSize) < 0.0;
    assert 0.0 < betSize / (betSize + DefaultPot) < 1.0;
    BetSlope(DefaultPot, betSize, p.betWithQueen, 0.0, 0.0);
    assert (0.0 - p.betWithQueen) * DBet(DefaultPot, betSize, 0.0) > 0.0;
  }

  /** The bet size 3 shows it: the solver reports (3/5, 0) worth 9/10 to
      Ivan, while never betting the Queen is worth 1. */
  lemma OverBetExample()
    ensures FindEquilibrium(3.0) == Some(Profile(3.0 / 5.0, 0.0, 9.0 / 10.0))
    ensures ExpectedValue(DefaultPot, 3.0, 0.0, 0.0) == 1.0
  {
    ExpectedValueClosedForm(DefaultPot, 3.0, 3.0 / 5.0, 0.0);
    ExpectedValueClosedForm(DefaultPot, 3.0, 0.0, 0.0);
  }

  /** Ivan's best reply to a fixed call probability: bet the Queen always
      when the slope DBet is positive, never when it is negative, and keep
      `fallback` when he is indifferent. */
  function IvanBestReply(pot: real, betSize: real, call: real, fallback: real): (r: real)
    requires 0.0 <= fallback <= 1.0
    ensures 0.0 <= r <= 1.0
    ensures DBet(pot, betSize, call) == 0.0 ==> r == fallback
  {
    var slope := DBet(pot, betSize, call);
    if slope > 0.0 then 1.0 else if slope < 0.0 then 0.0 else fallback
  }

  /** No bet probability in [0, 1] does better for Ivan than his best reply. */
  lemma IvanBestReplyIsBest(pot: real, betSize: real, call: real, fallback: real, b: real)
    requires 0.0 <= fallback <= 1.0 && 0.0 <= b <= 1.0
    ensures ExpectedValue(pot, betSize, b, call)
         <= ExpectedValue(pot, betSize, IvanBestReply(pot, betSize, call, fallback), call)
  {
    BetSlope(pot, betSize, b, IvanBestReply(pot, betSize, call, fallback), call);
  }

  /** The solver with the clamping corrected: when Opal's call probability
      had to be clamped, Ivan's bet probability is his best reply to the
      clamped value instead of the (now meaningless) indifference value. */
  function SolveEquilibrium(betSize: real): (r: Option<Profile>)
    ensures r.Some? <==> betSize != -2.0
    ensures r.Some? ==> 0.0 <= r.value.betWithQueen <= 1.0 && 0.0 <= r.value.callWithKing <= 1.0
    ensures r.Some? ==> r.value.ev == ExpectedValue(DefaultPot, betSize, r.value.betWithQueen, r.value.callWithKing)
  {
    match (SolveCall(DefaultPot, betSize), SolveBet(DefaultPot, betSize))
    case (Some(rawCall), Some(rawBet)) =>
      var optCall := Clamp(rawCall);
      var optBet := if optCall == rawCall then Clamp(rawBet)
                    else IvanBestReply(DefaultPot, betSize, optCall, Clamp(rawBet));
      Some(Profile(optBet, optCall, ExpectedValue(DefaultPot, betSize, optBet, optCall)))
    case _ => None
  }

  /** For every non-negative bet size the corrected solver reports an
      equilibrium; up to the pot it agrees with FindEquilibrium. */
  lemma SolveEquilibriumIsNash(betSize: real)
    requires betSize >= 0.0
    ensures SolveEquilibrium(betSize).Some?
    ensures var p := SolveEquilibrium(betSize).value;
      IsNashEquilibrium(DefaultPot, betSize, p.betWithQueen, p.callWithKing)
    ensures betSize <= DefaultPot ==> SolveEquilibrium(betSize) == FindEquilibrium(betSize)
  {
    var p := SolveEquilibrium(betSize).value;
    if betSize <= DefaultPot {
      assert 0.0 <= (DefaultPot - betSize) / (DefaultPot + betSize) <= 1.0;
      FindEquilibriumIsNash(betSize);
    } else {
      assert (DefaultPot - betSize) / (DefaultPot + betSize) < 0.0;
      assert p.callWithKing == 0.0;
      assert p.betWithQueen == IvanBestReply(DefaultPot, betSize, 0.0, Clamp(betSize / (betSize + DefaultPot)));
      forall b | 0.0 <= b <= 1.0
        ensures ExpectedValue(DefaultPot, betSize, b, 0.0) <= ExpectedValue(DefaultPot, betSize, p.betWithQueen, 0.0)
      {
        IvanBestReplyIsBest(DefaultPot, betSize, 0.0, Clamp(betSize / (betSize + DefaultPot)), b);
      }
      assert p.betWithQueen == 0.0;
      forall c | 0.0 <= c <= 1.0
        ensures ExpectedValue(DefaultPot, betSize, 0.0, c) >= ExpectedValue(DefaultPot, betSize, 0.0, 0.0)
      {
        CallSlope(DefaultPot, betSize, 0.0, 0.0, c);
      }
    }
  }
}
