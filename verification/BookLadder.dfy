/** The ladder the evaluators see is the book's: ordered, positive, and cut by taking a prefix. */
module BookLadder {
  import B = BookTypes
  import P = PlainBooks
  import Mirrors
  import ManagerSpec
  import ObKeys
  import opened ObEval

  function LadderSide(side: B.Side): ObKeys.Side {
    if side == B.Bid then ObKeys.Bid else ObKeys.Ask
  }

  /** Tick levels as the snapshot source hands them over: no order count, notional price times size. */
  function ToLevels(g: ManagerSpec.Grid, top: seq<(int, nat)>): seq<Level> {
    seq(|top|, i requires 0 <= i < |top| =>
      var px, size := ManagerSpec.ToPrice(g, top[i].0), top[i].1 as real;
      Level(px, size, NaN, Num(px * size)))
  }

  lemma ScaledOrder(g: ManagerSpec.Grid, p: int, q: int)
    requires g.tick > 0.0 && p < q
    ensures ManagerSpec.ToPrice(g, p) < ManagerSpec.ToPrice(g, q)
  {
    ScaleOrder(q as real, p as real, g.tick);
  }

  /** A ladder taken from a book of positive orders meets what the averages need. */
  lemma BookLadderOrdered(g: ManagerSpec.Grid, b: P.PlainBook, side: B.Side, depth: nat)
    requires g.tick > 0.0 && P.WellFormed(b) && Mirrors.AllPositive(b)
    ensures var l := ToLevels(g, P.TopLevels(b, side, depth));
      Ordered(LadderSide(side), l) && PositiveSizes(l)
  {
    var prices := P.Prices(b.queues.Keys, side);
    var top, ladder := P.TopLevels(b, side, depth), P.Ladder(side, prices);
    P.LadderSorted(side, prices);
    forall i | 0 <= i < |top| ensures top[i].1 > 0 {
      assert ladder[i] in ladder;
      Mirrors.LevelIsPositive(b, B.Spot(side, ladder[i]));
    }
    forall i, j | 0 <= i < j < |top|
      ensures NoBetter(LadderSide(side), ManagerSpec.ToPrice(g, top[j].0), ManagerSpec.ToPrice(g, top[i].0))
    {
      assert B.Better(side, ladder[i], ladder[j]);
      if side == B.Bid { ScaledOrder(g, top[j].0, top[i].0); } else { ScaledOrder(g, top[i].0, top[j].0); }
    }
  }

  /** Asking the book for fewer levels is cutting the deeper answer. */
  lemma ShallowerIsPrefix(b: P.PlainBook, side: B.Side, n: nat, depth: nat)
    requires P.WellFormed(b) && n <= depth
    ensures var full := P.TopLevels(b, side, depth);
      P.TopLevels(b, side, n) == full[..Least(n, |full|)]
  {
  }
}
