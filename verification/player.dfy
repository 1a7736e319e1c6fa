/**
 * Players of the Hide & Seek game: a role that never changes, a cumulative
 * score and a win count, and for a computer-controlled player a strategy
 * (a probability per position) that is replaced wholesale.
 *
 * The counters change only through three operations. They are described
 * once as values (StatOp, Apply, ApplyAll) and the class methods are proved
 * to perform exactly those updates on their fields.
 */
module Players {

  import opened Worlds

  /** The side a player is on. */
  datatype PlayerType = Hider | Seeker

  /** Who chooses the player's moves: a person through the UI, or the program. */
  datatype Controller = Human | Computer

  /** A snapshot of one player's counters. */
  datatype Tally = Tally(score: int, wins: nat)

  /** The three ways a player's counters can change. */
  datatype StatOp = Scored(points: int) | Won | Reset

  /** The counters after one operation. */
  function Apply(t: Tally, op: StatOp): Tally
  {
    match op
    case Scored(p) => t.(score := t.score + p)
    case Won => t.(wins := t.wins + 1)
    case Reset => Tally(0, 0)
  }

  /** The counters after a whole history of operations, applied in order. */
  function ApplyAll(t: Tally, ops: seq<StatOp>): Tally
  {
    if ops == [] then t else Apply(ApplyAll(t, ops[..|ops| - 1]), ops[|ops| - 1])
  }

  /** Applying a two-operation history is applying its operations one after the other. */
  lemma TwoOps(t: Tally, a: StatOp, b: StatOp)
    ensures ApplyAll(t, [a, b]) == Apply(Apply(t, a), b)
  {
    assert [a, b][..1] == [a] && [a][..0] == [];
    assert ApplyAll(t, [a]) == Apply(ApplyAll(t, []), a);
  }

  /** Sum of the points of every Scored operation in a history. */
  function PointsIn(ops: seq<StatOp>): int
  {
    if ops == [] then 0
    else (if ops[0].Scored? then ops[0].points else 0) + PointsIn(ops[1..])
  }

  /** Number of Won operations in a history. */
  function WinsIn(ops: seq<StatOp>): nat
  {
    if ops == [] then 0 else (if ops[0].Won? then 1 else 0) + WinsIn(ops[1..])
  }

  /** True when the history holds no Reset. */
  predicate NoReset(ops: seq<StatOp>)
  {
    forall i :: 0 <= i < |ops| ==> !ops[i].Reset?
  }

  lemma {:induction false} PointsInSnoc(ops: seq<StatOp>, op: StatOp)
    ensures PointsIn(ops + [op]) == PointsIn(ops) + (if op.Scored? then op.points else 0)
    ensures WinsIn(ops + [op]) == WinsIn(ops) + (if op.Won? then 1 else 0)
  {
    if ops != [] {
      assert (ops + [op])[1..] == ops[1..] + [op];
      PointsInSnoc(ops[1..], op);
    } else {
      assert [op][1..] == [];
    }
  }

  /**
   * Without a reset, the score grows by exactly the points added and the
   * win count by exactly the number of wins recorded.
   */
  lemma {:induction false} NoResetTotals(t: Tally, ops: seq<StatOp>)
    requires NoReset(ops)
    ensures ApplyAll(t, ops) == Tally(t.score + PointsIn(ops), t.wins + WinsIn(ops))
  {
    if ops != [] {
      var front, last := ops[..|ops| - 1], ops[|ops| - 1];
      assert ops == front + [last];
      NoResetTotals(t, front);
      PointsInSnoc(front, last);
    }
  }

  /** The win count never goes down unless the history contains a reset. */
  lemma WinsNeverDecrease(t: Tally, ops: seq<StatOp>)
    ensures ApplyAll(t, ops).wins < t.wins ==> !NoReset(ops)
  {
    if NoReset(ops) {
      NoResetTotals(t, ops);
    }
  }

  /**
   * After the last reset of a history, the counters hold exactly what was
   * added since that reset: nothing from before it survives.
   */
  lemma {:induction false} ResetForgets(t: Tally, ops: seq<StatOp>, k: nat)
    requires k < |ops| && ops[k] == Reset && NoReset(ops[k + 1..])
    ensures ApplyAll(t, ops) == Tally(PointsIn(ops[k + 1..]), WinsIn(ops[k + 1..]))
  {
    if k == |ops| - 1 {
      assert ops[k + 1..] == [];
    } else {
      var front, last := ops[..|ops| - 1], ops[|ops| - 1];
      var rest := front[k + 1..];
      assert rest + [last] == ops[k + 1..];
      assert NoReset(rest) by {
        forall i | 0 <= i < |rest| ensures !rest[i].Reset? {
          assert rest[i] == ops[k + 1..][i];
        }
      }
      assert !last.Reset? by { assert last == ops[k + 1..][|rest|]; }
      ResetForgets(t, front, k);
      PointsInSnoc(rest, last);
    }
  }

  /**
   * A player. playerType and controller are fixed at construction; score,
   * wins and strategy are the fields the source updates in place.
   */
  class Player {
    const playerType: PlayerType
    const controller: Controller
    var score: int
    var wins: nat
    var strategy: seq<real>

    /** The player's counters as a value. */
    function Counters(): Tally
      reads this
    {
      Tally(score, wins)
    }

    /** A human-controlled player: fresh counters, no strategy. */
    constructor Human(playerType: PlayerType)
      ensures this.playerType == playerType && controller == Controller.Human
      ensures Counters() == Tally(0, 0) && strategy == []
    {
      this.playerType := playerType;
      controller := Controller.Human;
      score, wins := 0, 0;
      strategy := [];
    }

    /** A computer-controlled player: fresh counters and an empty strategy. */
    constructor Computer(playerType: PlayerType)
      ensures this.playerType == playerType && controller == Controller.Computer
      ensures Counters() == Tally(0, 0) && strategy == []
    {
      this.playerType := playerType;
      controller := Controller.Computer;
      score, wins := 0, 0;
      strategy := [];
    }

    /** A human's move is whatever position the person chose; the world is not consulted. */
    function HumanMove(world: World, choice: int): (pos: int)
      requires controller == Controller.Human
      ensures pos == choice
    {
      choice
    }

    method AddScore(points: int)
      modifies this`score
      ensures score == old(score) + points && wins == old(wins)
      ensures Counters() == Apply(old(Counters()), Scored(points))
    {
      score := score + points;
    }

    method AddWin()
      modifies this`wins
      ensures wins == old(wins) + 1 && score == old(score)
      ensures Counters() == Apply(old(Counters()), Won)
    {
      wins := wins + 1;
    }

    method ResetStats()
      modifies this`score, this`wins
      ensures score == 0 && wins == 0
      ensures Counters() == Apply(old(Counters()), Reset)
    {
      score := 0;
      wins := 0;
    }

    /** Replaces the strategy with exactly the given list. */
    method SetStrategy(probabilities: seq<real>)
      requires controller == Controller.Computer
      modifies this`strategy
      ensures strategy == probabilities
    {
      strategy := probabilities;
    }
  }
}
