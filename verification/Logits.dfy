/** Floating-point logits with their special values, and how the comparisons of the samplers and the router rank them. */
module Logits {
  import opened Options
  import opened Ranking

  /** valid_logit */
  predicate ValidLogit(l: Float) {
    l.MinusInfinity? || l.Finite?
  }

  predicate AllValid(row: seq<Float>) {
    forall i | 0 <= i < |row| :: ValidLogit(row[i])
  }

  /** The floating-point comparison a > b. */
  predicate Greater(a: Float, b: Float) {
    match a
    case NaN => false
    case MinusInfinity => false
    case PlusInfinity => b.MinusInfinity? || b.Finite?
    case Finite(x) => b.MinusInfinity? || (b.Finite? && x > b.value)
  }

  /** A real below all finite logits. */
  function Bottom(row: seq<Float>): real {
    if row == [] then 0.0
    else
      var last, below := row[|row| - 1], Bottom(row[..|row| - 1]);
      if last.Finite? && last.value <= below then last.value - 1.0 else below
  }

  lemma {:induction false} BottomBelow(row: seq<Float>, i: nat)
    requires i < |row| && row[i].Finite?
    ensures Bottom(row) < row[i].value
  {
    if i < |row| - 1 {
      BottomBelow(row[..|row| - 1], i);
    }
  }

  /** The logits as reals in the same order, so that the ranking applies. */
  function Keys(row: seq<Float>): (keys: seq<real>)
    ensures |keys| == |row|
  {
    seq(|row|, i requires 0 <= i < |row| => if row[i].Finite? then row[i].value else Bottom(row))
  }

  /** On valid logits the keys are compared as the floating-point values are. */
  lemma KeysOrder(row: seq<Float>, a: nat, b: nat)
    requires AllValid(row) && a < |row| && b < |row|
    ensures Keys(row)[a] > Keys(row)[b] <==> Greater(row[a], row[b])
    ensures Keys(row)[a] == Keys(row)[b] <==> row[a] == row[b]
  {
    if row[a].Finite? {
      BottomBelow(row, a);
    }
    if row[b].Finite? {
      BottomBelow(row, b);
    }
  }

  /** The comparator of the samplers and the router. */
  lemma KeysPrecede(row: seq<Float>, a: nat, b: nat)
    requires AllValid(row) && a < |row| && b < |row|
    ensures Precedes(Keys(row), a, b) <==> Greater(row[a], row[b]) || (row[a] == row[b] && a < b)
  {
    KeysOrder(row, a, b);
  }

  /** The exponential of a logit that has been shifted and scaled, which is zero at minus infinity. */
  function ExpOf(exp: real -> real, l: Float, maximum: real, temperature: real): real
    requires temperature > 0.0
  {
    if l.Finite? then exp((l.value - maximum) / temperature) else 0.0
  }

  /** The head of the ranking is finite as soon as one logit is. */
  lemma FiniteHead(row: seq<Float>, i: nat)
    requires AllValid(row) && i < |row| && row[i].Finite?
    ensures row[StableSort(Keys(row))[0]].Finite?
  {
    var ids := StableSort(Keys(row));
    RankingCovers(Keys(row), ids, i);
    var r :| 0 <= r < |ids| && ids[r] == i;
    if r > 0 {
      KeysPrecede(row, ids[0], i);
    }
  }

  /** row_argmax: the head of the ranking, and whether all logits are valid. */
  method RowArgmax(row: seq<Float>) returns (best: nat, valid: bool)
    requires row != []
    ensures best < |row| && (valid <==> AllValid(row))
    ensures valid ==> best == StableSort(Keys(row))[0]
  {
    best := 0;
    var bestValue := row[0];
    valid := ValidLogit(bestValue);
    for token := 1 to |row|
      invariant best < token && bestValue == row[best] && (valid <==> AllValid(row[..token]))
      invariant AllValid(row) ==> forall c: nat | c < token && c != best :: Precedes(Keys(row), best, c)
    {
      valid := valid && ValidLogit(row[token]);
      ghost var before := best;
      if Greater(row[token], bestValue) {
        bestValue := row[token];
        best := token;
      }
      if AllValid(row) {
        Advance(row, token, before, best);
      }
    }
    assert row[..|row|] == row;
    if valid {
      PrefixOfRanking(Keys(row), [best], StableSort(Keys(row)));
    }
  }

  lemma Advance(row: seq<Float>, token: nat, before: nat, best: nat)
    requires AllValid(row) && before < token < |row| && best == if Greater(row[token], row[before]) then token else before
    requires forall c: nat | c < token && c != before :: Precedes(Keys(row), before, c)
    ensures forall c: nat | c <= token && c != best :: Precedes(Keys(row), best, c)
  {
    KeysOrder(row, token, before);
    hide Keys, Greater;
    var keys := Keys(row);
    forall c: nat | c <= token && c != best ensures Precedes(keys, best, c) {
      if c < token && c != before {
        assert Precedes(keys, before, c);
      }
    }
  }
}
