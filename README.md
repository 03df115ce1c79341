# Ace/King/Queen one-bet poker: payoff model and equilibrium solver

This project models `reciprocal.py`. The file computes the equilibrium of a
three-card poker game. Ivan and Opal each hold one of Ace, King and Queen,
indexed 0, 1 and 2, and the lower index wins a showdown. Ivan may bet a fixed
amount or check. Facing a bet, Opal calls or folds. Dominance fixes every
action but two:

- Ivan always bets the Ace and always checks the King. He bets the Queen
  with probability `b`.
- Opal always calls with the Ace and always folds the Queen. She calls with
  the King with probability `c`.

The two free parameters sit where the strategy tuples of
reciprocal.py:37-38 put them: Ivan's on the Queen (index 2) and Opal's on the
King (index 1), not both on the middle card.

Two modules:

- `Payoff` (payoff.dfy) models `ev_from_strategies` and its nested
  `compute_ivan_ev`.
  - `EvFromStrategies` is the nested loop. It fills a 3x3 table, given as a
    list of rows that is reassigned entry by entry, and keeps a running
    total. It then divides that total by 6.
  - `ExpectedValue` is its specification: the total of the scenario table
    divided by 6.
  - `ExpectedValueClosedForm` proves the bilinear form
    6E = 3·pot + s·c − s·b + pot·b − (s + pot)·b·c.
- `Equilibrium` (equilibrium.dfy) models `find_equilibrium` with the pot at
  its default of 2.
  - The symbolic `diff` becomes the slope functions `DBet` and `DCall`. The
    model proves each is the exact slope of the affine expected value.
  - The symbolic `solve` becomes `SolveCall` and `SolveBet`. Each returns
    `None` when pot + bet = 0, where the source's `solve(...)[0]` fails.
  - Then come the clamp into [0, 1] and the substitution.

The source computes with exact sympy rationals, and the model uses `real`
for them. Symbolic parameters become universally quantified `real`
arguments.

With bet 0 and call 0, Ivan's expected value is half the pot (1 for the
default pot of 2): he collects the pot in the three scenarios where he holds
the higher card. See `Payoff.CheckingOnlyValue`.

## Model

| member | source | states |
|---|---|---|
| `Payoff.IvanBetProb` | reciprocal.py:37 | Ivan's bet probability is 1 with the Ace, 0 with the King and `bet` with the Queen, and it is a probability whenever `bet` is |
| `Payoff.OpalCallProb` | reciprocal.py:38 | Opal's call probability is 1 with the Ace, `call` with the King and 0 with the Queen, and it is a probability whenever `call` is |
| `Payoff.ScenarioEv` | reciprocal.py:40-57 | When Ivan holds the better card the scenario value is pot + b·s·c; otherwise it is b·(−c·s + (1−c)·pot), with b and c looked up from (1, 0, bet) and (1, call, 0) |
| `Payoff.TableSumUpdate` | reciprocal.py:65-66 | Overwriting one table entry with x changes the table total by x minus the old entry, so adding x to the running total of a table whose entry held 0 keeps the two equal |
| `Payoff.EvFromStrategies` | reciprocal.py:59-68 | The filled table is the scenario table: diagonal 0, every off-diagonal entry the scenario value. The returned value is the table's total over 6, which equals ExpectedValue and the bilinear closed form |
| `Payoff.ExpectedValue` | reciprocal.py:68 | The value returned: the scenario table's total over 6, which is the average of the six scenario values with distinct cards (the diagonal placeholders add nothing). Its bilinear form is `Payoff.ExpectedValueClosedForm` |
| `Payoff.ExpectedValueClosedForm` | reciprocal.py:37-68 | The expected value is bilinear in the two probabilities: 6E = 3·pot + s·c − s·b + pot·b − (s+pot)·b·c |
| `Payoff.CheckingOnlyValue` | reciprocal.py:37-68 | If Ivan never bets the Queen and Opal never calls with the King, the expected value is pot/2 |
| `Payoff.ExpectedValueScales` | reciprocal.py:16-68 | Scaling pot and bet size by k scales the expected value by k |
| `Equilibrium.Clamp` | reciprocal.py:76-86 | The clamped value lies in [0, 1], equals its input when that is already in [0, 1], and is the point of [0, 1] nearest the input |
| `Equilibrium.DBet` | reciprocal.py:74 | `diff(ev, b)`: equals the expected value with the Queen always bet minus the value with it never bet; `Equilibrium.BetSlope` proves it is the slope for every pair of bet probabilities |
| `Equilibrium.DCall` | reciprocal.py:81 | `diff(ev, c)`: equals the expected value with the King always calling minus the value with it never calling; `Equilibrium.CallSlope` proves it is the slope for every pair of call probabilities |
| `Equilibrium.BetSlope` | reciprocal.py:74 | The expected value is affine in Ivan's probability, with slope DBet (the derivative in b) |
| `Equilibrium.CallSlope` | reciprocal.py:81 | The expected value is affine in Opal's probability, with slope DCall (the derivative in c) |
| `Equilibrium.SolveCall` | reciprocal.py:75 | A root exists iff pot + s ≠ 0; then it is a zero of DBet and the only one. Without a root and with a nonzero pot, DBet has no zero |
| `Equilibrium.SolveBet` | reciprocal.py:82 | A root exists iff pot + s ≠ 0; then it is a zero of DCall and the only one. Without a root and with a nonzero bet, DCall has no zero |
| `Equilibrium.SolutionsAreScaleFree` | reciprocal.py:74-86 | The solved probabilities do not change when pot and bet size are scaled together |
| `Equilibrium.SolvedCallMakesIvanIndifferent` | reciprocal.py:74-75 | The unclamped solved call probability makes the expected value the same for every b |
| `Equilibrium.SolvedBetMakesOpalIndifferent` | reciprocal.py:81-82 | The unclamped solved bet probability makes the expected value the same for every c |
| `Equilibrium.FindEquilibrium` | reciprocal.py:70-92 | Fails exactly when the bet size is −2. Otherwise the reported call probability is the point of [0, 1] nearest to the root of DBet, the reported bet probability the point of [0, 1] nearest to the root of DCall, and the reported value is the expected value at them |
| `Equilibrium.FindEquilibriumIsNash` | reciprocal.py:70-92 | For 0 ≤ s ≤ pot nothing is clamped, the results are the raw solutions, and the profile is a Nash equilibrium |
| `Equilibrium.DefaultBetSizeEquilibrium` | reciprocal.py:70-92 | With bet size 1: bet 1/3, call 1/3, value 19/18 |
| `Equilibrium.FindEquilibriumNotNashAbovePot` | reciprocal.py:76-88 | For s > pot the call is clamped to 0 and the bet stays s/(s+2). Never betting the Queen is then strictly better for Ivan, so the profile is not an equilibrium |
| `Equilibrium.OverBetExample` | reciprocal.py:76-88 | With bet size 3 the solver reports (3/5, 0, 9/10), while bet 0 against call 0 is worth 1 |
| `Equilibrium.IvanBestReply` | reciprocal.py:76-79 | Corrected solver: Ivan's reply to a fixed call probability lies in [0, 1] and keeps the fallback value when he is indifferent |
| `Equilibrium.IvanBestReplyIsBest` | reciprocal.py:76-79 | Corrected solver: no bet probability in [0, 1] does better against the given call than Ivan's best reply |
| `Equilibrium.SolveEquilibrium` | reciprocal.py:70-92 | Corrected solver: fails exactly when s = −2. Otherwise its probabilities lie in [0, 1] and the value is the expected value at them |
| `Equilibrium.SolveEquilibriumIsNash` | reciprocal.py:70-92 | For every non-negative bet size the corrected solver's profile is a Nash equilibrium, and for s ≤ pot it equals FindEquilibrium's |

## Findings

| source | as written | input that shows it | evidently intended | confidence | as-written member | corrected member |
|---|---|---|---|---|---|---|
| reciprocal.py:76-88 | `opt_c` and `opt_b` are clamped independently. When the call probability is clamped, the bet probability is still the one that makes Opal indifferent, and that is no longer a best reply | `bet_size = 3`: reports bet 3/5, call 0, EV 9/10. Against call 0, never betting the Queen gives Ivan 1 | `find_equilibrium` reports an equilibrium, where neither player gains by deviating alone | medium, not executed | `Equilibrium.FindEquilibriumNotNashAbovePot` (about `Equilibrium.FindEquilibrium`) | `Equilibrium.SolveEquilibriumIsNash` (about `Equilibrium.SolveEquilibrium`) |

## Left out

- `print_strategy_table` and every `print` call: output formatting only.
- `init_printing` and the sympy imports: library setup. Symbolic `diff` and
  `solve` are replaced by the closed-form slopes and roots of the bilinear
  expected value.
- The module-level expression `i`: it is never used, and it is not the
  expected value the function computes.
- A symbolic bet size: the comparisons `opt_c < 0` and `opt_b < 0` cannot be
  decided for it. Pot and bet size are concrete reals.
- The `print_table` flag: it only controls display.
- `Equilibrium.FindEquilibrium`: `find_equilibrium` returns only the
  expected value (reciprocal.py:92) and prints the two probabilities
  (reciprocal.py:89-90). The model returns all three in a `Profile`, so that
  their properties can be stated; the printing itself is left out.
- `Equilibrium.SolveCall`: when both pot and bet are 0, every call
  probability is a root. The model returns `None` there, like the source's
  failing `solve(...)[0]`, and claims nothing about roots. `find_equilibrium`
  fixes the pot at 2, so this case cannot arise there.
- `Payoff.EvFromStrategies`: with plain Python integers for every argument,
  `ev/6` is a float division. The model keeps exact values throughout,
  because the equilibrium path always passes symbolic parameters.
- Picking the first of several roots: each derivative is linear, so there is
  at most one.
