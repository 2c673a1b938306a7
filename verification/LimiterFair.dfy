/**
 * What a tick gives: every limiter shares out the most that its limit and those
 * above it allow, pays as much of its debt from that as it can, and every leaf
 * gets the share of its limiter unless it is full.
 */
module LimiterFair {
  import opened Rates
  import opened LimiterTree
  import opened LimiterBudget
  import opened LimiterCap

  // ----- One limiter

  /** The leaves that a payment of debt is split among. */
  function Payers(d: Data): nat {
    if d.weight == 0 then 1 else d.weight
  }

  /** As much of the debt is paid as possible, in whole tokens for each leaf; without a limit it is forgiven. */
  predicate PaidUp(d: Data) {
    if d.merged.Unlimited? then d.debt == 0 else d.debt < Payers(d) || d.merged == Finite(0)
  }

  /** A debt is paid out of the share, one token less for each leaf at a time. */
  lemma DebtPaid(d: Data)
    ensures PaidUp(PayDebt(d)) && PayDebt(d).debt <= d.debt
    ensures d.merged.Finite? ==>
              var r := PayDebt(d);
              r.merged.Finite? && r.merged.n <= d.merged.n && d.debt - r.debt == (d.merged.n - r.merged.n) * Payers(d)
  {
    if d.merged.Finite? {
      var w := Payers(d);
      var reduction := MinNat(d.merged.n, d.debt / w);
      DivTimes(d.debt, w);
      ScaleMono(reduction, d.debt / w, w);
      assert PayDebt(d).debt == d.debt - reduction * w;
    }
  }

  /** A share for each leaf that neither the limits nor the tokens handed down forbid. */
  predicate Affordable(share: nat, d: Data, tokens: Rate, limit: Rate) {
    && (tokens.Finite? ==> share <= tokens.n)
    && (limit.Finite? ==> FREQUENCY * share <= limit.n)
    && (d.limit.Finite? ==> FREQUENCY * (share * d.weight) <= d.limit.n + d.carry)
  }

  /** What each leaf below a limiter is granted, before the debt is paid from it. */
  ghost predicate GreatestShare(share: nat, d: Data, tokens: Rate, limit: Rate) {
    Affordable(share, d, tokens, limit) && !Affordable(share + 1, d, tokens, limit)
  }

  /**
   * What a limiter settles on: the greatest share, less what pays the debt; and
   * what the limit leaves over is carried to the next tick, less than five
   * octets for each leaf.
   */
  lemma SettleExactly(d: Data, tokens: Rate, limit: Rate) returns (share: nat)
    requires d.weight > 0 && Paired(tokens, limit) && (d.limit.Finite? || limit.Finite?)
    ensures var (mergedLimit, d1) := Settle(d, tokens, limit);
            && GreatestShare(share, d, tokens, limit) && PaidUp(d1)
            && d1.merged.Finite? && d1.merged.n <= share && d1.debt <= d.debt
            && d.debt - d1.debt == (share - d1.merged.n) * d.weight
            && (d.limit.Finite? ==>
                  && FREQUENCY * (share * d.weight) + d1.carry <= d.limit.n + d.carry
                  && d1.carry < FREQUENCY * d.weight)
            && (d.limit.Unlimited? ==> d1.carry == d.carry)
  {
    var (mergedLimit, d1) := Settle(d, tokens, limit);
    share := if tokens.Finite? then MinNat(mergedLimit.n / FREQUENCY, tokens.n) else mergedLimit.n / FREQUENCY;
    var before := MergeLimit(d.(scratch := [], overflow := 0), limit).1.(merged := Finite(share));
    DebtPaid(before);
    assert d1 == PayDebt(before).(unused := d1.unused);
    if d.limit.Finite? {
      var mine := (d.carry + d.limit.n) / d.weight;
      assert mergedLimit.n <= mine && (limit.Finite? ==> mergedLimit.n <= limit.n);
      assert mergedLimit.n == mine || (limit.Finite? && mergedLimit.n == limit.n);
      assert d1.carry == (d.carry + d.limit.n) % d.weight + mergedLimit.n % FREQUENCY * d.weight;
      hide *;
      OwnShare(share, mergedLimit.n, d.carry + d.limit.n, d.weight);
    }
  }

  lemma OwnShare(share: nat, merged: nat, total: nat, w: nat)
    requires w > 0 && share <= merged / FREQUENCY && merged <= total / w
    ensures FREQUENCY * (share * w) + (total % w + merged % FREQUENCY * w) <= total
    ensures total % w + merged % FREQUENCY * w < FREQUENCY * w
    ensures merged == total / w && share == merged / FREQUENCY ==> FREQUENCY * ((share + 1) * w) > total
  {
    var fifth, rest := merged / FREQUENCY, merged % FREQUENCY;
    DivTimes(total, w);
    ScaleMono(merged, total / w, w);
    ScaleMono(share, fifth, w);
    Fifths(merged, w);
    if merged == total / w && share == fifth {
      ScaleMono(merged + 1, FREQUENCY * (share + 1), w);
      assert (merged + 1) * w == merged * w + w;
      assert FREQUENCY * (share + 1) * w == FREQUENCY * ((share + 1) * w);
    }
  }

  lemma Fifths(merged: nat, w: nat)
    ensures FREQUENCY * (merged / FREQUENCY * w) + merged % FREQUENCY * w == merged * w
    ensures merged % FREQUENCY * w + w <= FREQUENCY * w
    ensures merged < FREQUENCY * (merged / FREQUENCY + 1)
  {
    var fifth, rest := merged / FREQUENCY, merged % FREQUENCY;
    assert merged == FREQUENCY * fifth + rest;
    assert (FREQUENCY * fifth + rest) * w == FREQUENCY * (fifth * w) + rest * w;
    ScaleMono(rest + 1, FREQUENCY, w);
  }

  /** The capacity left is the most octets that fit under a fifth of the limit beside the shares. */
  lemma CapacityExactly(d: Data)
    requires d.limit.Finite? && d.merged.Finite?
    ensures var u := UnusedCapacity(d);
            && u.Finite? && d.limit.n < FREQUENCY * (d.merged.n * d.weight + u.n + 1)
            && (u.n > 0 ==> FREQUENCY * (d.merged.n * d.weight + u.n) <= d.limit.n)
  {
    var granted := d.merged.n * d.weight;
    assert d.merged.n * d.weight * FREQUENCY == FREQUENCY * granted;
  }

  // ----- Every limiter and every leaf

  /** The limit that a limiter hands down. */
  function Inherited(d: Data, limit: Rate): Rate
    requires d.weight > 0
  {
    if d.limit.Unlimited? then limit else limit.Min(Finite((d.carry + d.limit.n) / d.weight))
  }

  /** A leaf got its share, or is full and wants no more, or held more than its size allowed. */
  predicate LeafFair(base: Bucket, b: Bucket, share: nat) {
    && b.available.Finite? && b.size.Finite?
    && (|| (b.available == b.size && !b.unsaturated)
        || b.available.n >= base.available.Or(0) + share
        || (base.available.Finite? && base.available.n * b.multiplier > b.size.n * base.multiplier))
  }

  /** A limiter granted a share to each leaf and paid its debt from it. */
  ghost predicate Granted(share: nat, base: Data, d: Data, tokens: Rate, limit: Rate) {
    && GreatestShare(share, base, tokens, limit)
    && d.merged.Finite? && d.merged.n <= share && d.debt <= base.debt
    && base.debt - d.debt == (share - d.merged.n) * base.weight
    && (base.limit.Finite? ==>
          && FREQUENCY * (share * base.weight) + d.carry <= base.limit.n + base.carry
          && d.carry < FREQUENCY * base.weight)
  }

  ghost predicate Granting(base: Data, d: Data, tokens: Rate, limit: Rate) {
    && d.weight == base.weight && d.limit == base.limit && PaidUp(d)
    && (base.limit.Unlimited? ==> d.carry == base.carry)
    && if base.limit.Unlimited? && limit.Unlimited? then d.merged.Unlimited?
       else exists share: nat :: Granted(share, base, d, tokens, limit)
  }

  /** A subtree that was handed tokens under a limit. */
  ghost predicate Fair(base: Node, node: Node, tokens: Rate, limit: Rate)
    requires ShapeOf(base) == ShapeOf(node)
    decreases node
  {
    match node
    case Leaf(b) => tokens.Finite? ==> LeafFair(base.b, b, tokens.n)
    case Limiter(d, cs) =>
      base.d.weight > 0 ==>
        && Granting(base.d, d, tokens, limit)
        && forall i | 0 <= i < |cs| :: Fair(base.children[i], cs[i], d.merged, Inherited(base.d, limit))
  }

  ghost predicate AllFair(bases: seq<Node>, cs: seq<Node>, tokens: Rate, limit: Rate)
    requires ShapesOf(bases) == ShapesOf(cs)
  {
    forall i | 0 <= i < |cs| :: Fair(bases[i], cs[i], tokens, limit)
  }

  // ----- Redistribution takes nothing away

  lemma LeafStaysFair(base: Bucket, b: Bucket, share: nat, overflow: nat)
    requires b.Ok() && LeafFair(base, b, share)
    ensures LeafFair(base, BucketDistribute(b, overflow).0, share)
  {
    var r := BucketDistribute(b, overflow).0;
    if base.available.Finite? && base.available.n * b.multiplier > b.size.n * base.multiplier && r.size != b.size {
      assert r.size.n == 2 * b.size.n && r.multiplier == 2 * b.multiplier;
      DoubledStill(base.available.n, b.multiplier, b.size.n, base.multiplier);
    }
  }

  lemma DoubledStill(a: nat, m: nat, s: nat, k: nat)
    requires a * m > s * k
    ensures a * (2 * m) > (2 * s) * k
  {
    assert a * (2 * m) == 2 * (a * m) && (2 * s) * k == 2 * (s * k);
  }

  lemma SettledKeeps(d: Data, overflow: nat, end: Round)
    requires InRange(end.scratch, |end.cs|)
    ensures var r := Settled(d, overflow, end).0;
            && r.Limiter? && r.children == end.cs
            && r.d == d.(overflow := r.d.overflow, unused := r.d.unused, unsaturated := r.d.unsaturated, scratch := r.d.scratch)
  {
  }

  lemma {:induction false} DistributeFair(base: Node, node: Node, overflow: nat, tokens: Rate, limit: Rate)
    requires Ready(node) && ShapeOf(base) == ShapeOf(node) && Fair(base, node, tokens, limit)
    ensures Fair(base, Distribute(node, overflow).0, tokens, limit)
    decreases ShapeOf(node), 2, 0, 0
  {
    hide Rounds, Settled, Distinct, Unsaturated, UnsaturatedSum, Sweep, Granting, LeafFair, Inherited;
    match node
    case Leaf(b) =>
      if tokens.Finite? {
        LeafStaysFair(base.b, b, tokens.n, overflow);
      }
    case Limiter(d, cs) =>
      var remaining := d.overflow + Usable(d, overflow);
      var end := Rounds(cs, d.scratch, remaining);
      SettledKeeps(d, overflow, end);
      if base.d.weight > 0 {
        RoundsFair(base.children, cs, d.scratch, remaining, d.merged, Inherited(base.d, limit));
        SameGrant(base.d, d, Settled(d, overflow, end).0.d, tokens, limit);
      }
  }

  lemma SameGrant(base: Data, d: Data, d': Data, tokens: Rate, limit: Rate)
    requires Granting(base, d, tokens, limit)
    requires d' == d.(overflow := d'.overflow, unused := d'.unused, unsaturated := d'.unsaturated, scratch := d'.scratch)
    ensures Granting(base, d', tokens, limit)
  {
    if !(base.limit.Unlimited? && limit.Unlimited?) {
      var share: nat :| Granted(share, base, d, tokens, limit);
      assert Granted(share, base, d', tokens, limit);
    }
  }

  lemma {:induction false} RoundsFair(bases: seq<Node>, cs: seq<Node>, scratch: seq<nat>, remaining: nat, tokens: Rate, limit: Rate)
    requires ScratchOk(cs, scratch) && AllReady(cs, scratch)
    requires ShapesOf(bases) == ShapesOf(cs) && AllFair(bases, cs, tokens, limit)
    ensures AllFair(bases, Rounds(cs, scratch, remaining).cs, tokens, limit)
    decreases ShapesOf(cs), 1, |scratch|, remaining
  {
    hide AllFair, Sweep;
    var u := UnsaturatedSum(cs, scratch);
    var extra := if u != 0 then remaining / u else 0;
    var rest := if u != 0 then remaining % u else remaining;
    var s := Sweep(cs, scratch, 0, extra, rest);
    SweepFair(bases, cs, scratch, 0, extra, rest, tokens, limit);
    if extra != 0 {
      ShareShrinks(remaining, u);
      RoundsFair(bases, s.cs, s.scratch, s.remaining, tokens, limit);
    }
  }

  lemma {:induction false} SweepFair(bases: seq<Node>, cs: seq<Node>, scratch: seq<nat>, i: nat, extra: nat, remaining: nat,
                                     tokens: Rate, limit: Rate)
    requires ScratchOk(cs, scratch) && AllReady(cs, scratch) && i <= |scratch|
    requires ShapesOf(bases) == ShapesOf(cs) && AllFair(bases, cs, tokens, limit)
    ensures AllFair(bases, Sweep(cs, scratch, i, extra, remaining).cs, tokens, limit)
    decreases ShapesOf(cs), 0, |scratch| - i, 1
  {
    hide AllFair, Visit, ShapesOf, ScratchOk, AllReady;
    if i < |scratch| {
      var (v, next) := Visit(cs, scratch, i, extra, remaining);
      VisitFair(bases, cs, scratch, i, extra, remaining, tokens, limit);
      SweepFair(bases, v.cs, v.scratch, next, extra, v.remaining, tokens, limit);
    }
  }

  lemma {:induction false} VisitFair(bases: seq<Node>, cs: seq<Node>, scratch: seq<nat>, i: nat, extra: nat, remaining: nat,
                                     tokens: Rate, limit: Rate)
    requires ScratchOk(cs, scratch) && AllReady(cs, scratch) && i < |scratch|
    requires ShapesOf(bases) == ShapesOf(cs) && AllFair(bases, cs, tokens, limit)
    ensures AllFair(bases, Visit(cs, scratch, i, extra, remaining).0.cs, tokens, limit)
    decreases ShapesOf(cs), 0, |scratch| - i, 0
  {
    hide Fair, Distribute, Distinct, Unsaturated;
    var j := scratch[i];
    DistributeFair(bases[j], cs[j], extra, tokens, limit);
    ShapesAfterUpdate(cs, j, Distribute(cs[j], extra).0);
  }

  // ----- Handing out

  lemma LeafAddFair(b: Bucket, tokens: nat, limit: nat, burst: nat)
    requires b.Ok() && tokens <= limit && burst >= 1
    ensures LeafFair(b, BucketAdd(b, Finite(tokens), Finite(limit), burst).0, tokens)
  {
    var size := limit * b.multiplier * burst;
    if b.available.Finite? && size < b.available.n {
      assert b.available.n * b.multiplier > size * b.multiplier;
    } else {
      ScaledAtLeast(limit, b.multiplier);
      ScaledAtLeast(limit * b.multiplier, burst);
    }
  }

  lemma {:induction false} AddFair(node: Node, tokens: Rate, limit: Rate, burst: nat)
    requires BucketsOk(node) && Paired(tokens, limit) && burst >= 1
    ensures Fair(node, AddTokens(node, tokens, limit, burst).0, tokens, limit)
    decreases node, 1
  {
    hide Granting, LeafFair, AddToAll, Settle;
    match node
    case Leaf(b) =>
      if tokens.Finite? {
        LeafAddFair(b, tokens.n, limit.n, burst);
      }
    case Limiter(d, cs) =>
      if d.weight > 0 {
        var (mergedLimit, d1) := Settle(d, tokens, limit);
        SettleFair(d, tokens, limit);
        forall i | 0 <= i < |cs| ensures Fair(cs[i], AddToAll(cs, d1.merged, mergedLimit, burst).cs[i], d1.merged, mergedLimit) {
          AddAllFair(cs, d1.merged, mergedLimit, burst, i);
        }
        var r := AddTokens(node, tokens, limit, burst).0;
        SameGrant(d, d1, r.d, tokens, limit);
      }
  }

  lemma SettleFair(d: Data, tokens: Rate, limit: Rate)
    requires d.weight > 0 && Paired(tokens, limit)
    ensures var (mergedLimit, d1) := Settle(d, tokens, limit);
            mergedLimit == Inherited(d, limit) && Granting(d, d1, tokens, limit)
  {
    if d.limit.Finite? || limit.Finite? {
      var share := SettleExactly(d, tokens, limit);
      assert Granted(share, d, Settle(d, tokens, limit).1, tokens, limit);
    }
  }

  lemma LastAdded(cs: seq<Node>, n: nat, tokens: Rate, limit: Rate, burst: nat)
    requires AllBucketsOk(cs) && Paired(tokens, limit) && burst >= 1 && n == |cs| - 1
    ensures BucketsOk(cs[n]) && AllBucketsOk(cs[..n])
    ensures AddToAll(cs, tokens, limit, burst)
            == AppendChild(AddToAll(cs[..n], tokens, limit, burst), AddTokens(cs[n], tokens, limit, burst))
    ensures |AddToAll(cs[..n], tokens, limit, burst).cs| == n && |AddToAll(cs, tokens, limit, burst).cs| == |cs|
    ensures forall i | 0 <= i < |cs| :: ShapeOf(AddToAll(cs, tokens, limit, burst).cs[i]) == ShapeOf(cs[i])
    ensures forall i | 0 <= i < n :: ShapeOf(AddToAll(cs[..n], tokens, limit, burst).cs[i]) == ShapeOf(cs[i])
  {
    hide AddTokens, BucketsOk, AppendChild, ShapeOf;
    SameShapes(AddToAll(cs, tokens, limit, burst).cs, cs);
    SameShapes(AddToAll(cs[..n], tokens, limit, burst).cs, cs[..n]);
  }

  lemma SameShapes(a: seq<Node>, b: seq<Node>)
    requires ShapesOf(a) == ShapesOf(b)
    ensures |a| == |b| && forall i | 0 <= i < |a| :: ShapeOf(a[i]) == ShapeOf(b[i])
  {
    forall i | 0 <= i < |a| ensures ShapeOf(a[i]) == ShapeOf(b[i]) {
      assert ShapesOf(a)[i] == ShapesOf(b)[i];
    }
  }

  lemma {:induction false} AddAllFair(cs: seq<Node>, tokens: Rate, limit: Rate, burst: nat, i: nat)
    requires AllBucketsOk(cs) && Paired(tokens, limit) && burst >= 1 && i < |cs|
    ensures Fair(cs[i], AddToAll(cs, tokens, limit, burst).cs[i], tokens, limit)
    decreases cs, 0
  {
    hide *;
    var n := |cs| - 1;
    LastAdded(cs, n, tokens, limit, burst);
    var s := AddToAll(cs[..n], tokens, limit, burst);
    var served := AddTokens(cs[n], tokens, limit, burst);
    AppendedAt(s, served);
    if i < n {
      AddAllFair(cs[..n], tokens, limit, burst, i);
    } else {
      AddFair(cs[n], tokens, limit, burst);
      DistributeFair(cs[n], served.0, 0, tokens, limit);
    }
  }

  /**
   * The promise of fairness, for one tick of any tree: every limiter that has
   * leaves grants each of them the greatest share that its limit and carry, the
   * limits above it and what it was handed allow; pays from that as much of its
   * debt as it can; carries over less than five octets for each leaf; and every
   * leaf gets the share of its limiter, unless it is full and wants no more or
   * held more than its size allowed.
   */
  lemma FairShare(root: Node, burst: nat)
    requires BucketsOk(root) && burst >= 1
    ensures Fair(UpdateStats(root), Process(root, burst), Unlimited, Unlimited)
  {
    hide Fair, AddTokens, Distribute, UpdateStats;
    var base := UpdateStats(root);
    AddFair(base, Unlimited, Unlimited, burst);
    DistributeFair(base, AddTokens(base, Unlimited, Unlimited, burst).0, 0, Unlimited, Unlimited);
  }

  // ----- Capacity

  /** A limiter that takes overflow from outside takes it from its capacity, and no more than that. */
  lemma TakesCapacity(node: Node, overflow: nat)
    requires Ready(node) && node.Limiter? && node.d.unused.Finite?
    ensures var (r, back) := Distribute(node, overflow);
            r.Limiter? && r.d.unused.Finite? && back <= overflow && r.d.unused.n + (overflow - back) == node.d.unused.n
  {
    hide Rounds, UnsaturatedSum;
  }
}
