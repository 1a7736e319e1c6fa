/**
 * The strategy solver. Only its placeholder behaviour exists: every row of
 * the payoff matrix gets the same probability, whatever the matrix holds and
 * whichever side asks. Probabilities are exact reals here.
 */
module LPSolver {

  import opened Players

  /** Sum of a sequence of reals. */
  function Sum(s: seq<real>): real
  {
    if s == [] then 0.0 else s[0] + Sum(s[1..])
  }

  /** Every row has as many entries as the first: the matrix forms a rectangular array. */
  predicate Rectangular(m: seq<seq<real>>)
  {
    forall i :: 0 <= i < |m| ==> |m[i]| == |m[0]|
  }

  /** The strategy for playerType over the rows of payoffMatrix: the uniform distribution. */
  function SolveGame(payoffMatrix: seq<seq<real>>, playerType: PlayerType): (r: seq<real>)
    requires |payoffMatrix| >= 1 && Rectangular(payoffMatrix)
    ensures |r| == |payoffMatrix|
    ensures forall i :: 0 <= i < |r| ==> r[i] == 1.0 / (|payoffMatrix| as real)
    ensures forall i :: 0 <= i < |r| ==> 0.0 < r[i] <= 1.0
    ensures |payoffMatrix| == 1 ==> r == [1.0]
  {
    var n := |payoffMatrix|;
    seq(n, _ => 1.0 / (n as real))
  }

  /** k copies of c add up to k * c. */
  lemma {:induction false} SumConstant(s: seq<real>, c: real)
    requires forall i :: 0 <= i < |s| ==> s[i] == c
    ensures Sum(s) == (|s| as real) * c
  {
    if s != [] {
      SumConstant(s[1..], c);
    }
  }

  /** The returned strategy is a probability distribution: its entries add up to one. */
  lemma SolveGameSumsToOne(payoffMatrix: seq<seq<real>>, playerType: PlayerType)
    requires |payoffMatrix| >= 1 && Rectangular(payoffMatrix)
    ensures Sum(SolveGame(payoffMatrix, playerType)) == 1.0
  {
    var n := |payoffMatrix| as real;
    SumConstant(SolveGame(payoffMatrix, playerType), 1.0 / n);
  }
}
