/** The op mix: weights read from the environment, and the choice of an op by a roll out of a hundred. */

module Weights {

  const TWO_TO_THE_63: int := 0x8000_0000_0000_0000
  const TWO_TO_THE_64: int := 0x1_0000_0000_0000_0000
  const ROLLS: nat := 100

  type Int64 = x: int | -0x8000_0000_0000_0000 <= x < 0x8000_0000_0000_0000

  /** What a sum becomes in 64 bits. */
  function Wrap(x: int): (r: Int64)
    ensures (x - r) % TWO_TO_THE_64 == 0
  {
    (x + TWO_TO_THE_63) % TWO_TO_THE_64 - TWO_TO_THE_63
  }

  lemma {:induction false} WrapSmall(x: int)
    requires -TWO_TO_THE_63 <= x < TWO_TO_THE_63
    ensures Wrap(x) == x
  {
  }

  /** An environment variable: unset or empty, set to something that is not an integer, or to a number. */
  datatype Setting = Unset | Malformed | Number(n: Int64)

  datatype OpDef = OpDef(name: string, setting: Setting, defaultWeight: Int64)

  datatype WeightedOp = WeightedOp(name: string, weight: Int64)

  datatype Resolution = Accepted(ops: seq<WeightedOp>) | Negative(index: nat, weight: Int64) | WrongTotal(total: Int64)

  function WeightOf(d: OpDef): Int64 {
    if d.setting.Number? then d.setting.n else d.defaultWeight
  }

  function Resolved(ds: seq<OpDef>): (ops: seq<WeightedOp>)
    ensures |ops| == |ds| && forall i :: 0 <= i < |ds| ==> ops[i] == WeightedOp(ds[i].name, WeightOf(ds[i]))
  {
    if ds == [] then [] else
      var n := |ds| - 1;
      Resolved(ds[..n]) + [WeightedOp(ds[n].name, WeightOf(ds[n]))]
  }

  /** The sum of the weights, and the same sum as the program computes it. */
  function Sum(ops: seq<WeightedOp>): int {
    if ops == [] then 0 else Sum(ops[..|ops| - 1]) + ops[|ops| - 1].weight
  }

  function Total(ops: seq<WeightedOp>): Int64 {
    if ops == [] then 0 else Wrap(Total(ops[..|ops| - 1]) + ops[|ops| - 1].weight)
  }

  predicate NonNegative(ops: seq<WeightedOp>) {
    forall o :: o in ops ==> o.weight >= 0
  }

  lemma {:induction false} TotalNext(ops: seq<WeightedOp>, o: WeightedOp)
    ensures Total(ops + [o]) == Wrap(Total(ops) + o.weight)
  {
    assert (ops + [o])[..|ops|] == ops;
  }

  lemma {:induction false} NothingResolved(ds: seq<OpDef>)
    ensures Resolved(ds[..0]) == [] && Total([]) == 0
  {
  }

  lemma {:induction false} ResolvedNext(ds: seq<OpDef>, i: nat)
    requires i < |ds|
    ensures Resolved(ds[..i + 1]) == Resolved(ds[..i]) + [WeightedOp(ds[i].name, WeightOf(ds[i]))]
    ensures WeightOf(ds[i]) < 0 ==> !NonNegative(Resolved(ds))
  {
    assert ds[..i + 1][..i] == ds[..i];
    assert Resolved(ds)[i] in Resolved(ds);
  }

  /** Accepted exactly if no weight is negative and their 64-bit sum is a hundred; otherwise refused for the first
      negative weight, or for the sum if there is none. */
  ghost predicate IsResolution(r: Resolution, ds: seq<OpDef>) {
    && (r.Accepted? <==> NonNegative(Resolved(ds)) && Total(Resolved(ds)) == 100)
    && (r.Accepted? ==> r.ops == Resolved(ds))
    && (r.Negative? ==>
      r.index < |ds| && r.weight == WeightOf(ds[r.index]) < 0 && NonNegative(Resolved(ds[..r.index])))
    && (r.WrongTotal? ==> NonNegative(Resolved(ds)) && r.total == Total(Resolved(ds)) != 100)
  }

  lemma {:induction false} SameResidue(a: int, b: int, c: int)
    requires (a - b) % TWO_TO_THE_64 == 0 && (b - c) % TWO_TO_THE_64 == 0
    ensures (a - c) % TWO_TO_THE_64 == 0
  {
  }

  /** The 64-bit sum differs from the true sum by a multiple of 2^64. */
  lemma {:induction false} TotalModulo(ops: seq<WeightedOp>)
    ensures (Sum(ops) - Total(ops)) % TWO_TO_THE_64 == 0
  {
    if ops == [] {
    } else {
      var n := |ops| - 1;
      TotalModulo(ops[..n]);
      SameResidue(Sum(ops), Total(ops[..n]) + ops[n].weight, Total(ops));
    }
  }

  lemma {:induction false} OneHundred(sum: int, total: Int64)
    requires (sum - total) % TWO_TO_THE_64 == 0
    ensures total == 100 <==> (sum - 100) % TWO_TO_THE_64 == 0
  {
  }

  /** What a resolution says of the weights themselves: an op's is the number in the environment, or its default if
      there is none; they are accepted exactly if none is negative and their sum is a hundred modulo 2^64. */
  lemma {:induction false} ResolutionMeans(r: Resolution, ds: seq<OpDef>, ops: seq<WeightedOp>)
    requires IsResolution(r, ds) && |ops| == |ds|
    requires forall i :: 0 <= i < |ds| ==> ops[i].name == ds[i].name
    requires forall i :: 0 <= i < |ds| ==>
      ops[i].weight == match ds[i].setting case Number(n) => n case _ => ds[i].defaultWeight
    ensures r.Accepted? <==>
      (forall i :: 0 <= i < |ops| ==> ops[i].weight >= 0) && (Sum(ops) - 100) % TWO_TO_THE_64 == 0
    ensures r.Accepted? ==> r.ops == ops
    ensures r.Negative? ==>
      && r.index < |ops| && r.weight == ops[r.index].weight < 0
      && forall i :: 0 <= i < r.index ==> ops[i].weight >= 0
    ensures r.WrongTotal? ==>
      && (forall i :: 0 <= i < |ops| ==> ops[i].weight >= 0)
      && r.total != 100 && (Sum(ops) - r.total) % TWO_TO_THE_64 == 0
  {
    hide *;
    TotalModulo(ops);
    OneHundred(Sum(ops), Total(ops));
    ResolutionCases(r, ds, ops);
  }

  lemma {:induction false} ResolutionCases(r: Resolution, ds: seq<OpDef>, ops: seq<WeightedOp>)
    requires IsResolution(r, ds) && |ops| == |ds|
    requires forall i :: 0 <= i < |ds| ==> ops[i].name == ds[i].name
    requires forall i :: 0 <= i < |ds| ==>
      ops[i].weight == match ds[i].setting case Number(n) => n case _ => ds[i].defaultWeight
    ensures r.Accepted? <==> (forall i :: 0 <= i < |ops| ==> ops[i].weight >= 0) && Total(ops) == 100
    ensures r.Accepted? ==> r.ops == ops
    ensures r.Negative? ==>
      && r.index < |ops| && r.weight == ops[r.index].weight < 0
      && forall i :: 0 <= i < r.index ==> ops[i].weight >= 0
    ensures r.WrongTotal? ==>
      (forall i :: 0 <= i < |ops| ==> ops[i].weight >= 0) && r.total != 100 && r.total == Total(ops)
  {
    hide Total;
    assert Resolved(ds) == ops;
    if r.Negative? {
      PrefixResolved(ds, ops, r.index);
    }
    hide Resolved;
  }

  lemma {:induction false} PrefixResolved(ds: seq<OpDef>, ops: seq<WeightedOp>, n: nat)
    requires Resolved(ds) == ops && n <= |ds| && NonNegative(Resolved(ds[..n]))
    ensures forall i :: 0 <= i < n ==> ops[i].weight >= 0
  {
    forall i | 0 <= i < n ensures ops[i].weight >= 0 {
      assert Resolved(ds[..n])[i] in Resolved(ds[..n]);
    }
  }

  method ResolveWeights(ds: seq<OpDef>) returns (r: Resolution)
    ensures IsResolution(r, ds)
  {
    hide Total;
    hide Wrap;
    hide Resolved;
    NothingResolved(ds);
    var total: Int64 := 0;
    var out: seq<WeightedOp> := [];
    for i := 0 to |ds|
      invariant out == Resolved(ds[..i]) && total == Total(out) && NonNegative(out)
    {
      var w := ds[i].defaultWeight;
      if ds[i].setting.Number? {
        w := ds[i].setting.n;
      }
      ResolvedNext(ds, i);
      if w < 0 {
        return Negative(i, w);
      }
      TotalNext(out, WeightedOp(ds[i].name, w));
      total := Wrap(total + w);
      out := out + [WeightedOp(ds[i].name, w)];
    }
    assert ds[..|ds|] == ds;
    if total != 100 {
      return WrongTotal(total);
    }
    return Accepted(out);
  }

  // ------------------------------------------------------------- selection

  /** The first op from i on whose cumulative weight exceeds the roll, the last op if there is none. */
  function SelectFrom(roll: int, ops: seq<WeightedOp>, i: nat): (k: nat)
    requires i < |ops|
    ensures i <= k < |ops|
    decreases |ops| - i
  {
    if i + 1 == |ops| || roll < Total(ops[..i + 1]) then i else SelectFrom(roll, ops, i + 1)
  }

  lemma {:induction false} TotalOfNone(ops: seq<WeightedOp>)
    ensures Total(ops[..0]) == 0
  {
  }

  lemma {:induction false} TotalStep(ops: seq<WeightedOp>, i: nat)
    requires i < |ops|
    ensures Total(ops[..i + 1]) == Wrap(Total(ops[..i]) + ops[i].weight)
  {
    assert ops[..i + 1][..i] == ops[..i];
  }

  lemma {:induction false} SelectStep(roll: int, ops: seq<WeightedOp>, i: nat)
    requires i < |ops|
    ensures SelectFrom(roll, ops, i) ==
      if i + 1 == |ops| || roll < Total(ops[..i + 1]) then i else SelectFrom(roll, ops, i + 1)
  {
  }

  lemma {:induction false} SelectsFirst(roll: int, ops: seq<WeightedOp>, i: nat)
    requires i < |ops|
    ensures var k := SelectFrom(roll, ops, i);
      (k + 1 < |ops| ==> roll < Total(ops[..k + 1])) && forall j :: i < j <= k ==> Total(ops[..j]) <= roll
    decreases |ops| - i
  {
    hide Total;
    if i + 1 < |ops| && roll >= Total(ops[..i + 1]) {
      SelectsFirst(roll, ops, i + 1);
    }
  }

  method SelectOp(roll: int, ops: seq<WeightedOp>) returns (name: string)
    ensures name == if ops == [] then "" else ops[SelectFrom(roll, ops, 0)].name
    ensures ops != [] ==>
      exists k :: 0 <= k < |ops| && name == ops[k].name && (k + 1 < |ops| ==> roll < Total(ops[..k + 1])) &&
        forall j :: 0 < j <= k ==> Total(ops[..j]) <= roll
  {
    hide *;
    TotalOfNone(ops);
    if ops != [] {
      SelectsFirst(roll, ops, 0);
    }
    var cumulative: Int64 := 0;
    for i := 0 to |ops|
      invariant cumulative == Total(ops[..i])
      invariant ops != [] ==> SelectFrom(roll, ops, 0) == if i < |ops| then SelectFrom(roll, ops, i) else |ops| - 1
    {
      TotalStep(ops, i);
      SelectStep(roll, ops, i);
      cumulative := Wrap(cumulative + ops[i].weight);
      if roll < cumulative {
        return ops[i].name;
      }
    }
    if |ops| > 0 {
      return ops[|ops| - 1].name;
    }
    return "";
  }

  // ------------------------------------------------------------ exactness

  lemma {:induction false} SumGrows(ops: seq<WeightedOp>, i: nat, j: nat)
    requires NonNegative(ops) && i <= j <= |ops|
    ensures 0 <= Sum(ops[..i]) <= Sum(ops[..j])
    decreases j
  {
    if j == 0 {
    } else {
      assert ops[..j][..j - 1] == ops[..j - 1];
      assert ops[j - 1] in ops;
      SumGrows(ops, if i < j then i else j - 1, j - 1);
    }
  }

  lemma {:induction false} SumNext(ops: seq<WeightedOp>, i: nat)
    requires i < |ops|
    ensures Sum(ops[..i + 1]) == Sum(ops[..i]) + ops[i].weight
  {
    assert ops[..i + 1][..i] == ops[..i];
  }

  /** A sum that fits is computed exactly. */
  lemma {:induction false} TotalExact(ops: seq<WeightedOp>)
    requires NonNegative(ops) && Sum(ops) < TWO_TO_THE_63
    ensures Total(ops) == Sum(ops)
  {
    if ops == [] {
    } else {
      var n := |ops| - 1;
      assert ops[n] in ops && ops[..|ops|] == ops;
      SumGrows(ops, n, n + 1);
      SumGrows(ops, 0, n);
      TotalExact(ops[..n]);
      WrapSmall(Sum(ops));
    }
  }

  lemma {:induction false} WithinRolls(ops: seq<WeightedOp>, i: nat)
    requires NonNegative(ops) && Sum(ops) == ROLLS && i < |ops|
    ensures Total(ops[..i + 1]) == Sum(ops[..i + 1]) <= ROLLS
    ensures i + 1 == |ops| ==> Sum(ops[..i + 1]) == ROLLS
  {
    assert ops[..|ops|] == ops;
    SumGrows(ops, i + 1, |ops|);
    TotalExact(ops[..i + 1]);
  }

  lemma {:induction false} SelectsBlock(roll: nat, ops: seq<WeightedOp>, i: nat)
    requires NonNegative(ops) && Sum(ops) == ROLLS && roll < ROLLS && i < |ops| && Sum(ops[..i]) <= roll
    ensures var k := SelectFrom(roll, ops, i); Sum(ops[..k]) <= roll < Sum(ops[..k + 1])
    decreases |ops| - i
  {
    hide *;
    WithinRolls(ops, i);
    SelectStep(roll, ops, i);
    if i + 1 < |ops| && roll >= Total(ops[..i + 1]) {
      SelectsBlock(roll, ops, i + 1);
    }
  }

  /** With weights summing to a hundred, a roll chooses the op in whose share of the hundred it lies. */
  lemma {:induction false} ChosenByWeight(roll: nat, ops: seq<WeightedOp>, k: nat)
    requires NonNegative(ops) && Sum(ops) == 100 && roll < 100
    requires k < |ops| && Sum(ops[..k]) <= roll < Sum(ops[..k]) + ops[k].weight
    ensures SelectFrom(roll, ops, 0) == k
  {
    SelectsBlock(roll, ops, 0);
    SumNext(ops, k);
    var j := SelectFrom(roll, ops, 0);
    if j < k {
      SumGrows(ops, j + 1, k);
    } else if k < j {
      SumGrows(ops, k + 1, j);
    }
  }

  /** How many of the first n rolls select op i, or one of the first i ops. */
  ghost function Hits(ops: seq<WeightedOp>, i: nat, n: nat): nat
    requires ops != []
  {
    if n == 0 then 0 else Hits(ops, i, n - 1) + if SelectFrom(n - 1, ops, 0) == i then 1 else 0
  }

  ghost function HitsBefore(ops: seq<WeightedOp>, i: nat, n: nat): nat
    requires ops != []
  {
    if n == 0 then 0 else HitsBefore(ops, i, n - 1) + if SelectFrom(n - 1, ops, 0) < i then 1 else 0
  }

  /** The rolls that select op i are those from lo up to hi. */
  ghost predicate Selects(ops: seq<WeightedOp>, i: nat, lo: int, hi: int)
    requires ops != []
  {
    forall roll: nat | roll < ROLLS :: SelectFrom(roll, ops, 0) == i <==> lo <= roll < hi
  }

  lemma {:induction false} HitsOfBlock(ops: seq<WeightedOp>, i: nat, lo: nat, hi: nat, n: nat)
    requires ops != [] && Selects(ops, i, lo, hi) && lo <= hi && n <= ROLLS
    ensures Hits(ops, i, n) == if n <= lo then 0 else if n <= hi then n - lo else hi - lo
  {
    hide SelectFrom;
    if n > 0 {
      HitsOfBlock(ops, i, lo, hi, n - 1);
    }
  }

  /** With weights summing to a hundred, the rolls of an op are one contiguous block, as long as its weight, and the
      last op gets nothing it has no weight for. */
  lemma {:induction false} Blocks(ops: seq<WeightedOp>, i: nat)
    requires NonNegative(ops) && Sum(ops) == ROLLS && i < |ops|
    ensures 0 <= Sum(ops[..i]) <= Sum(ops[..i + 1]) <= ROLLS
    ensures Selects(ops, i, Sum(ops[..i]), Sum(ops[..i + 1]))
    ensures Hits(ops, i, ROLLS) == ops[i].weight
  {
    SumGrows(ops, i, i + 1);
    SumNext(ops, i);
    WithinRolls(ops, i);
    forall roll: nat | roll < ROLLS
      ensures SelectFrom(roll, ops, 0) == i <==> Sum(ops[..i]) <= roll < Sum(ops[..i + 1])
    {
      hide *;
      SelectsBlock(roll, ops, 0);
      if Sum(ops[..i]) <= roll < Sum(ops[..i + 1]) {
        SumNext(ops, i);
        ChosenByWeight(roll, ops, i);
      }
    }
    HitsOfBlock(ops, i, Sum(ops[..i]), Sum(ops[..i + 1]), ROLLS);
  }

  lemma {:induction false} HitsNext(ops: seq<WeightedOp>, i: nat, n: nat)
    requires ops != []
    ensures HitsBefore(ops, i + 1, n) == HitsBefore(ops, i, n) + Hits(ops, i, n)
  {
    if n > 0 {
      HitsNext(ops, i, n - 1);
    }
  }

  lemma {:induction false} HitsEnds(ops: seq<WeightedOp>, n: nat)
    requires ops != []
    ensures HitsBefore(ops, 0, n) == 0 && HitsBefore(ops, |ops|, n) == n
  {
    if n > 0 {
      HitsEnds(ops, n - 1);
    }
  }

  lemma {:induction false} ExactSum(ops: seq<WeightedOp>, i: nat)
    requires ops != [] && i <= |ops| && forall j :: 0 <= j < |ops| ==> Hits(ops, j, ROLLS) == ops[j].weight
    ensures Sum(ops[..i]) == HitsBefore(ops, i, ROLLS)
  {
    hide Hits;
    hide HitsBefore;
    HitsEnds(ops, ROLLS);
    if i == 0 {
    } else {
      ExactSum(ops, i - 1);
      HitsNext(ops, i - 1, ROLLS);
      SumNext(ops, i - 1);
    }
  }

  /** Every op is selected by exactly as many of the hundred rolls as its weight says. */
  ghost predicate IsExact(ops: seq<WeightedOp>)
    requires ops != []
  {
    forall i :: 0 <= i < |ops| ==> Hits(ops, i, ROLLS) == ops[i].weight
  }

  /** When an accepted mix is exact: if and only if the sum of its weights is a hundred in truth, not just in 64
      bits. */
  lemma {:induction false} ExactMix(ops: seq<WeightedOp>)
    requires ops != [] && NonNegative(ops) && Total(ops) == 100
    ensures IsExact(ops) <==> Sum(ops) == 100
  {
    hide Hits;
    hide HitsBefore;
    hide Total;
    hide Sum;
    assert ops[..|ops|] == ops;
    if IsExact(ops) {
      ExactSum(ops, |ops|);
      HitsEnds(ops, ROLLS);
    }
    if Sum(ops) == 100 {
      forall i | 0 <= i < |ops| ensures Hits(ops, i, ROLLS) == ops[i].weight {
        Blocks(ops, i);
      }
    }
  }

  /** Every sum of weights below 2^63 that is accepted is a hundred. */
  lemma {:induction false} AcceptedSum(ops: seq<WeightedOp>)
    requires NonNegative(ops) && Total(ops) == 100
    ensures Sum(ops) == 100 <==> Sum(ops) < TWO_TO_THE_63
  {
    if Sum(ops) < TWO_TO_THE_63 {
      TotalExact(ops);
    }
  }

  /** Weights whose sum wraps around to a hundred are accepted. */
  lemma {:induction false} WrappedMixAccepted()
    ensures var big := WeightedOp("a", 0x7fff_ffff_ffff_ffff);
      var ops := [big, big, WeightedOp("b", 102)];
      NonNegative(ops) && Total(ops) == 100 && Sum(ops) != 100
  {
    var big := WeightedOp("a", 0x7fff_ffff_ffff_ffff);
    var ops := [big, big, WeightedOp("b", 102)];
    assert ops[..2] == [big, big] && ops[..2][..1] == [big] && ops[..2][..1][..0] == [];
    assert Total([big]) == Wrap(Total([]) + big.weight) == 0x7fff_ffff_ffff_ffff;
    assert Total([big, big]) == -2;
    assert Sum([big]) == Sum([]) + big.weight;
    assert Sum([big, big]) == 2 * big.weight;
  }
}
