/** The payoff model of the Ace/King/Queen one-bet game.
    Ivan (first to act) and Opal each hold one of three cards, indexed
    0 = Ace, 1 = King, 2 = Queen; the lower index wins a showdown. Ivan may
    bet a fixed amount or check; facing a bet, Opal calls or folds. Every
    action except two is fixed by dominance, which leaves two free
    probabilities: Ivan's bet probability holding the Queen and Opal's
    call probability holding the King. All values are exact: `real` here is
    the field of rationals the symbolic computation works in. */
module Payoff {

  /** A card index: 0 = Ace, 1 = King, 2 = Queen. */
  type Card = i: int | 0 <= i < 3

  /** Ivan's bet probability per card: always bets the Ace, always checks
      the King, bets the Queen with probability `bet`. */
  function IvanBetProb(bet: real, i: Card): (r: real)
    ensures i == 0 ==> r == 1.0
    ensures i == 1 ==> r == 0.0
    ensures i == 2 ==> r == bet
    ensures 0.0 <= bet <= 1.0 ==> 0.0 <= r <= 1.0
  {
    [1.0, 0.0, bet][i]
  }

  /** Opal's call probability per card: always calls with the Ace, calls
      with the King with probability `call`, always folds the Queen. */
  function OpalCallProb(call: real, o: Card): (r: real)
    ensures o == 0 ==> r == 1.0
    ensures o == 1 ==> r == call
    ensures o == 2 ==> r == 0.0
    ensures 0.0 <= call <= 1.0 ==> 0.0 <= r <= 1.0
  {
    [1.0, call, 0.0][o]
  }

  /** Ivan's expected value, after the antes, when he holds `i` and Opal
      holds `o`: a mix of his value when betting and his value when
      checking, weighted by his bet probability for `i`. */
  function ScenarioEv(pot: real, betSize: real, bet: real, call: real, i: Card, o: Card): (r: real)
    ensures i < o ==> r == pot + IvanBetProb(bet, i) * betSize * OpalCallProb(call, o)
    ensures o <= i ==> r == IvanBetProb(bet, i) * (-OpalCallProb(call, o) * betSize + (1.0 - OpalCallProb(call, o)) * pot)
  {
    var b := IvanBetProb(bet, i);
    var c := OpalCallProb(call, o);
    var ivanIsWinning := i < o;
    var evWhenBet := if ivanIsWinning then pot + betSize * c else -c * betSize + (1.0 - c) * pot;
    var evWhenCheck := if ivanIsWinning then pot else 0.0;
    b * evWhenBet + (1.0 - b) * evWhenCheck
  }

  /** The 3x3 table of scenario values, rows by Ivan's card and columns by
      Opal's; the diagonal (both players holding the same card, which
      cannot happen) holds the placeholder 0. */
  function ScenarioTable(pot: real, betSize: real, bet: real, call: real): seq<seq<real>>
  {
    seq(3, i requires 0 <= i < 3 =>
      seq(3, o requires 0 <= o < 3 =>
        if i == o then 0.0 else ScenarioEv(pot, betSize, bet, call, i, o)))
  }

  function Sum(s: seq<real>): real
  {
    if s == [] then 0.0 else s[0] + Sum(s[1..])
  }

  /** The sum of every entry of a table given as a list of rows. */
  function TableSum(t: seq<seq<real>>): real
  {
    if t == [] then 0.0 else Sum(t[0]) + TableSum(t[1..])
  }

  /** Ivan's expected value: the table's total over 6. The diagonal
      placeholders add nothing, so it is the average over the six equally
      likely scenarios with distinct cards. */
  function ExpectedValue(pot: real, betSize: real, bet: real, call: real): (r: real)
    ensures 6.0 * r == ScenarioEv(pot, betSize, bet, call, 0, 1) + ScenarioEv(pot, betSize, bet, call, 0, 2)
                     + ScenarioEv(pot, betSize, bet, call, 1, 0) + ScenarioEv(pot, betSize, bet, call, 1, 2)
                     + ScenarioEv(pot, betSize, bet, call, 2, 0) + ScenarioEv(pot, betSize, bet, call, 2, 1)
  {
    var t := ScenarioTable(pot, betSize, bet, call);
    TableSumOfThree(t);
    SumOfThree(t[0]);
    SumOfThree(t[1]);
    SumOfThree(t[2]);
    TableSum(t) / 6.0
  }

  lemma {:induction false} SumUpdate(s: seq<real>, k: nat, v: real)
    requires k < |s|
    ensures Sum(s[k := v]) == Sum(s) - s[k] + v
  {
    if k == 0 {
      assert s[k := v][1..] == s[1..];
    } else {
      assert s[k := v][1..] == s[1..][k - 1 := v];
      SumUpdate(s[1..], k - 1, v);
    }
  }

  /** Overwriting one entry of a table changes its total by exactly the
      difference between the new and the old entry. */
  lemma {:induction false} TableSumUpdate(t: seq<seq<real>>, i: nat, k: nat, v: real)
    requires i < |t| && k < |t[i]|
    ensures TableSum(t[i := t[i][k := v]]) == TableSum(t) - t[i][k] + v
  {
    if i == 0 {
      assert t[i := t[i][k := v]][1..] == t[1..];
      SumUpdate(t[0], k, v);
    } else {
      assert t[i := t[i][k := v]][1..] == t[1..][i - 1 := t[1..][i - 1][k := v]];
      TableSumUpdate(t[1..], i - 1, k, v);
    }
  }

  lemma SumOfThree(s: seq<real>)
    requires |s| == 3
    ensures Sum(s) == s[0] + s[1] + s[2]
  {
    assert Sum(s[2..]) == s[2] by { assert s[2..][1..] == []; }
    assert Sum(s[1..]) == s[1] + Sum(s[2..]) by { assert s[1..][1..] == s[2..]; }
  }

  lemma TableSumOfThree(t: seq<seq<real>>)
    requires |t| == 3
    ensures TableSum(t) == Sum(t[0]) + Sum(t[1]) + Sum(t[2])
  {
    assert TableSum(t[2..]) == Sum(t[2]) by { assert t[2..][1..] == []; }
    assert TableSum(t[1..]) == Sum(t[1]) + TableSum(t[2..]) by { assert t[1..][1..] == t[2..]; }
  }

  /** The expected value is bilinear in the two free probabilities:
      6 E = 3 pot + s c - s b + pot b - (s + pot) b c. */
  lemma ExpectedValueClosedForm(pot: real, betSize: real, bet: real, call: real)
    ensures 6.0 * ExpectedValue(pot, betSize, bet, call)
         == 3.0 * pot + betSize * call - betSize * bet + pot * bet - (betSize + pot) * bet * call
  {
    var t := ScenarioTable(pot, betSize, bet, call);
    TableSumOfThree(t);
    SumOfThree(t[0]);
    SumOfThree(t[1]);
    SumOfThree(t[2]);
    assert Sum(t[0]) == 2.0 * pot + betSize * call;
    assert Sum(t[1]) == pot;
    assert Sum(t[2]) == -bet * betSize + bet * (-call * betSize + (1.0 - call) * pot);
  }

  /** If Ivan never bets the Queen and Opal never calls with the King,
      Ivan wins the pot exactly in the three scenarios where he holds the
      higher card: half the pot on average. */
  lemma CheckingOnlyValue(pot: real, betSize: real)
    ensures ExpectedValue(pot, betSize, 0.0, 0.0) == pot / 2.0
  {
    ExpectedValueClosedForm(pot, betSize, 0.0, 0.0);
  }

  /** Scaling the pot and the bet together scales the expected value by
      the same factor. */
  lemma ExpectedValueScales(k: real, pot: real, betSize: real, bet: real, call: real)
    ensures ExpectedValue(k * pot, k * betSize, bet, call) == k * ExpectedValue(pot, betSize, bet, call)
  {
    ExpectedValueClosedForm(pot, betSize, bet, call);
    ExpectedValueClosedForm(k * pot, k * betSize, bet, call);
  }

  /** ev_from_strategies: walks every pair of cards, skips equal cards,
      stores each scenario value in the table and adds it to the running
      (unweighted) total, then divides the total by 6 once. */
  method EvFromStrategies(bet: real, call: real, pot: real, betSize: real)
    returns (ev: real, table: seq<seq<real>>)
    ensures table == ScenarioTable(pot, betSize, bet, call)
    ensures forall i :: 0 <= i < 3 ==> table[i][i] == 0.0
    ensures 6.0 * ev == TableSum(table)
    ensures ev == ExpectedValue(pot, betSize, bet, call)
    ensures 6.0 * ev == 3.0 * pot + betSize * call - betSize * bet + pot * bet - (betSize + pot) * bet * call
  {
    ghost var full := ScenarioTable(pot, betSize, bet, call);
    var total := 0.0;
    table := [[0.0, 0.0, 0.0], [0.0, 0.0, 0.0], [0.0, 0.0, 0.0]];
    TableSumOfThree(table);
    SumOfThree(table[0]);
    SumOfThree(table[1]);
    SumOfThree(table[2]);
    for ivansCard := 0 to 3
      invariant |table| == 3 && forall r :: 0 <= r < 3 ==> |table[r]| == 3
      invariant forall r, k :: 0 <= r < ivansCard && 0 <= k < 3 ==> table[r][k] == full[r][k]
      invariant forall r, k :: ivansCard <= r < 3 && 0 <= k < 3 ==> table[r][k] == 0.0
      invariant total == TableSum(table)
    {
      for opalsCard := 0 to 3
        invariant |table| == 3 && forall r :: 0 <= r < 3 ==> |table[r]| == 3
        invariant forall r, k :: 0 <= r < ivansCard && 0 <= k < 3 ==> table[r][k] == full[r][k]
        invariant forall k :: 0 <= k < opalsCard ==> table[ivansCard][k] == full[ivansCard][k]
        invariant forall k :: opalsCard <= k < 3 ==> table[ivansCard][k] == 0.0
        invariant forall r, k :: ivansCard < r < 3 && 0 <= k < 3 ==> table[r][k] == 0.0
        invariant total == TableSum(table)
      {
        if ivansCard == opalsCard {
          continue;
        }
        var x := ScenarioEv(pot, betSize, bet, call, ivansCard, opalsCard);
        TableSumUpdate(table, ivansCard, opalsCard, x);
        table := table[ivansCard := table[ivansCard][opalsCard := x]];
        total := total + x;
      }
    }
    assert forall r :: 0 <= r < 3 ==> table[r] == full[r];
    ev := total / 6.0;
    ExpectedValueClosedForm(pot, betSize, bet, call);
  }
}
