/**
 * One tick over any tree of limiters that all have leaves below them: no
 * limiter lets its leaves gain more than a fifth of its limit and carry,
 * counting the overflow it accepts from outside.
 */
module LimiterCap {
  import opened Rates
  import opened LimiterTree
  import opened LimiterBudget

  // ----- Weights

  function WeightSum(cs: seq<Node>): nat {
    if cs == [] then 0 else WeightSum(cs[..|cs| - 1]) + Weight(cs[|cs| - 1])
  }

  function UnsaturatedCount(cs: seq<Node>): nat {
    if cs == [] then 0 else UnsaturatedCount(cs[..|cs| - 1]) + Unsaturated(cs[|cs| - 1])
  }

  /** Every limiter counts the weights of its children, and has a leaf below it. */
  predicate Weighted(node: Node) {
    match node
    case Leaf(_) => true
    case Limiter(d, cs) =>
      d.weight > 0 && d.weight == WeightSum(cs) && forall i | 0 <= i < |cs| :: Weighted(cs[i])
  }

  // ----- The budget of one limiter

  lemma SettleBudget(d: Data, tokens: Rate, limit: Rate)
    requires d.weight > 0 && Paired(tokens, limit) && d.limit.Finite?
    ensures var d1 := Settle(d, tokens, limit).1;
            && d1.merged.Finite? && d1.unused.Finite?
            && FREQUENCY * (d1.merged.n * d.weight + d1.unused.n) <= d.limit.n + d.carry
  {
    var (mergedLimit, d1) := Settle(d, tokens, limit);
    var mine := (d.carry + d.limit.n) / d.weight;
    var m, w := d1.merged.n, d.weight;
    assert m <= mergedLimit.n / FREQUENCY && mergedLimit.n <= mine;
    assert FREQUENCY * m <= mine;
    assert d1.unused.n == if m * w * FREQUENCY < d.limit.n then (d.limit.n - m * w * FREQUENCY) / FREQUENCY else 0;
    hide *;
    ShareWithinTotal(m, w, d.carry + d.limit.n);
  }

  lemma ShareWithinTotal(m: nat, w: nat, total: nat)
    requires w > 0 && FREQUENCY * m <= total / w
    ensures FREQUENCY * (m * w) <= total
  {
    DivTimes(total, w);
    ScaleMono(FREQUENCY * m, total / w, w);
    assert (FREQUENCY * m) * w == FREQUENCY * (m * w);
  }

  /** Every limiter's finite limit covers what its leaves gained, its overflow and its unused capacity. */
  predicate Capped(base: Node, node: Node)
    requires ShapeOf(base) == ShapeOf(node)
    decreases node
  {
    match node
    case Leaf(_) => true
    case Limiter(d, cs) =>
      && Covered(base, node)
      && forall i | 0 <= i < |cs| :: Capped(base.children[i], cs[i])
  }

  predicate Covered(base: Node, node: Node)
    requires node.Limiter? && ShapeOf(base) == ShapeOf(node)
  {
    base.d.limit.Finite? ==>
      && node.d.unused.Finite?
      && FREQUENCY * (Claim(base, node) + node.d.unused.n) <= base.d.limit.n + base.d.carry
  }

  predicate AllCapped(bases: seq<Node>, cs: seq<Node>)
    requires ShapesOf(bases) == ShapesOf(cs)
  {
    forall i | 0 <= i < |cs| :: Capped(bases[i], cs[i])
  }

  // ----- Redistribution keeps every limiter within its budget

  lemma SettledCovered(base: Node, d: Data, cs: seq<Node>, overflow: nat, end: Round)
    requires ShapeOf(base) == Fork(ShapesOf(cs)) && ShapesOf(end.cs) == ShapesOf(cs) && InRange(end.scratch, |end.cs|)
    requires ClaimAll(base.children, end.cs) + end.remaining
          <= ClaimAll(base.children, cs) + d.overflow + Usable(d, overflow)
    requires Covered(base, Limiter(d, cs))
    ensures ShapeOf(Settled(d, overflow, end).0) == ShapeOf(base)
    ensures Covered(base, Settled(d, overflow, end).0)
  {
    hide ClaimAll, UnsaturatedSum;
    var r := Settled(d, overflow, end).0;
    assert Claim(base, r) == r.d.overflow + ClaimAll(base.children, end.cs);
    assert Claim(base, Limiter(d, cs)) == d.overflow + ClaimAll(base.children, cs);
    if base.d.limit.Finite? {
      assert Claim(base, r) + r.d.unused.n <= Claim(base, Limiter(d, cs)) + d.unused.n;
    }
  }

  lemma {:induction false} DistributeCapped(base: Node, node: Node, overflow: nat)
    requires Ready(node) && ShapeOf(base) == ShapeOf(node) && Capped(base, node)
    ensures Capped(base, Distribute(node, overflow).0)
    decreases ShapeOf(node), 2, 0, 0
  {
    hide Claim, ClaimAll, Rounds, Settled, Distinct, Unsaturated, UnsaturatedSum, Sweep, Covered;
    match node
    case Leaf(b) =>
    case Limiter(d, cs) =>
      var remaining := d.overflow + Usable(d, overflow);
      var end := Rounds(cs, d.scratch, remaining);
      RoundsClaim(base.children, cs, d.scratch, remaining);
      RoundsCapped(base.children, cs, d.scratch, remaining);
      SettledCovered(base, d, cs, overflow, end);
      SettledChildren(d, overflow, end);
  }

  lemma SettledChildren(d: Data, overflow: nat, end: Round)
    requires InRange(end.scratch, |end.cs|)
    ensures Settled(d, overflow, end).0.Limiter? && Settled(d, overflow, end).0.children == end.cs
  {
  }

  lemma {:induction false} RoundsCapped(bases: seq<Node>, cs: seq<Node>, scratch: seq<nat>, remaining: nat)
    requires ScratchOk(cs, scratch) && AllReady(cs, scratch)
    requires ShapesOf(bases) == ShapesOf(cs) && AllCapped(bases, cs)
    ensures AllCapped(bases, Rounds(cs, scratch, remaining).cs)
    decreases ShapesOf(cs), 1, |scratch|, remaining
  {
    hide AllCapped, Sweep;
    var u := UnsaturatedSum(cs, scratch);
    var extra := if u != 0 then remaining / u else 0;
    var rest := if u != 0 then remaining % u else remaining;
    var s := Sweep(cs, scratch, 0, extra, rest);
    SweepCapped(bases, cs, scratch, 0, extra, rest);
    if extra != 0 {
      ShareShrinks(remaining, u);
      RoundsCapped(bases, s.cs, s.scratch, s.remaining);
    }
  }

  lemma {:induction false} SweepCapped(bases: seq<Node>, cs: seq<Node>, scratch: seq<nat>, i: nat, extra: nat, remaining: nat)
    requires ScratchOk(cs, scratch) && AllReady(cs, scratch) && i <= |scratch|
    requires ShapesOf(bases) == ShapesOf(cs) && AllCapped(bases, cs)
    ensures AllCapped(bases, Sweep(cs, scratch, i, extra, remaining).cs)
    decreases ShapesOf(cs), 0, |scratch| - i, 1
  {
    hide AllCapped, Visit, ShapesOf, ScratchOk, AllReady;
    if i < |scratch| {
      var (v, next) := Visit(cs, scratch, i, extra, remaining);
      VisitCapped(bases, cs, scratch, i, extra, remaining);
      SweepCapped(bases, v.cs, v.scratch, next, extra, v.remaining);
    }
  }

  lemma {:induction false} VisitCapped(bases: seq<Node>, cs: seq<Node>, scratch: seq<nat>, i: nat, extra: nat, remaining: nat)
    requires ScratchOk(cs, scratch) && AllReady(cs, scratch) && i < |scratch|
    requires ShapesOf(bases) == ShapesOf(cs) && AllCapped(bases, cs)
    ensures AllCapped(bases, Visit(cs, scratch, i, extra, remaining).0.cs)
    decreases ShapesOf(cs), 0, |scratch| - i, 0
  {
    var j := scratch[i];
    DistributeCapped(bases[j], cs[j], extra);
    ShapesAfterUpdate(cs, j, Distribute(cs[j], extra).0);
    hide Capped, Distribute, Distinct, Unsaturated;
  }

  // ----- Adding the normal tokens

  /** The tokens handed to all children. */
  function Allotted(tokens: nat, cs: seq<Node>): nat {
    if cs == [] then 0 else Allotted(tokens, cs[..|cs| - 1]) + tokens * Weight(cs[|cs| - 1])
  }

  lemma {:induction false} AllottedByWeight(tokens: nat, cs: seq<Node>)
    ensures Allotted(tokens, cs) == tokens * WeightSum(cs)
  {
    if cs != [] {
      var n := |cs| - 1;
      AllottedByWeight(tokens, cs[..n]);
      assert tokens * (WeightSum(cs[..n]) + Weight(cs[n])) == tokens * WeightSum(cs[..n]) + tokens * Weight(cs[n]);
    }
  }

  lemma {:induction false} AddBudget(node: Node, tokens: Rate, limit: Rate, burst: nat)
    requires BucketsOk(node) && Paired(tokens, limit) && burst >= 1 && Weighted(node)
    ensures var r := AddTokens(node, tokens, limit, burst);
            && Capped(node, r.0)
            && (tokens.Finite? ==> Claim(node, r.0) + r.1 <= tokens.n * Weight(node))
    decreases node, 1
  {
    match node
    case Leaf(b) =>
    case Limiter(d, cs) =>
      var (mergedLimit, d1) := Settle(d, tokens, limit);
      var s := AddToAll(cs, d1.merged, mergedLimit, burst);
      AddAllBudget(cs, d1.merged, mergedLimit, burst);
      if d1.merged.Finite? { AllottedByWeight(d1.merged.n, cs); }
      ServeCovered(d, cs, tokens, limit, s);
      if tokens.Finite? { ServeRefund(d, cs, tokens, limit, s); }
      forall i | 0 <= i < |cs| ensures Capped(cs[i], s.cs[i]) {
        AddAllCapped(cs, d1.merged, mergedLimit, burst, i);
      }
  }

  lemma SplitProduct(part: nat, whole: nat, w: nat)
    requires part <= whole
    ensures part * w + (whole - part) * w == whole * w
  {
  }

  lemma ServeCovered(d: Data, cs: seq<Node>, tokens: Rate, limit: Rate, s: Served)
    requires d.weight > 0 && Paired(tokens, limit) && ShapesOf(s.cs) == ShapesOf(cs)
    requires var m := Settle(d, tokens, limit).1.merged;
             m.Finite? ==> ClaimAll(cs, s.cs) + s.overflow <= m.n * d.weight
    ensures ShapeOf(Serve(Settle(d, tokens, limit).1, s)) == ShapeOf(Limiter(d, cs))
    ensures Covered(Limiter(d, cs), Serve(Settle(d, tokens, limit).1, s))
  {
    hide Settle, ClaimAll;
    if d.limit.Finite? {
      SettleBudget(d, tokens, limit);
    }
  }

  lemma ServeRefund(d: Data, cs: seq<Node>, tokens: Rate, limit: Rate, s: Served)
    requires d.weight > 0 && Paired(tokens, limit) && ShapesOf(s.cs) == ShapesOf(cs) && tokens.Finite?
    requires ClaimAll(cs, s.cs) + s.overflow <= Settle(d, tokens, limit).1.merged.n * d.weight
    ensures var d1 := Settle(d, tokens, limit).1;
            && ShapeOf(Serve(d1, s)) == ShapeOf(Limiter(d, cs))
            && Claim(Limiter(d, cs), Serve(d1, s)) + Refund(tokens, d1) <= tokens.n * d.weight
  {
    var d1 := Settle(d, tokens, limit).1;
    var served := Serve(d1, s);
    assert Refund(tokens, d1) == (tokens.n - d1.merged.n) * d.weight;
    hide Settle, ClaimAll, Refund, Usable;
    assert Claim(Limiter(d, cs), served) == s.overflow + ClaimAll(cs, s.cs);
    SplitProduct(d1.merged.n, tokens.n, d.weight);
    hide *;
  }

  lemma {:induction false} AddAllBudget(cs: seq<Node>, tokens: Rate, limit: Rate, burst: nat)
    requires AllBucketsOk(cs) && (forall i | 0 <= i < |cs| :: Weighted(cs[i])) && Paired(tokens, limit) && burst >= 1
    ensures var s := AddToAll(cs, tokens, limit, burst);
            tokens.Finite? ==> ClaimAll(cs, s.cs) + s.overflow <= Allotted(tokens.n, cs)
    decreases cs, 0
  {
    hide AddTokens, Claim, ClaimAll, AppendChild, Weight;
    if cs == [] {
      NothingServed();
    } else {
      var n := |cs| - 1;
      var s := AddToAll(cs[..n], tokens, limit, burst);
      var served := AddTokens(cs[n], tokens, limit, burst);
      AddAllBudget(cs[..n], tokens, limit, burst);
      AddBudget(cs[n], tokens, limit, burst);
      AppendBudget(cs[..n], cs[n], s, served);
      assert cs == cs[..n] + [cs[n]];
    }
  }

  lemma {:induction false} AddAllCapped(cs: seq<Node>, tokens: Rate, limit: Rate, burst: nat, i: nat)
    requires AllBucketsOk(cs) && (forall k | 0 <= k < |cs| :: Weighted(cs[k])) && Paired(tokens, limit) && burst >= 1
    requires i < |cs|
    ensures Capped(cs[i], AddToAll(cs, tokens, limit, burst).cs[i])
    decreases cs, 0
  {
    hide AddTokens, Capped, Distribute, AppendChild, Weighted, BucketsOk, ShapeOf;
    var n := |cs| - 1;
    var s := AddToAll(cs[..n], tokens, limit, burst);
    var served := AddTokens(cs[n], tokens, limit, burst);
    AppendedAt(s, served);
    if i < n {
      AddAllCapped(cs[..n], tokens, limit, burst, i);
    } else {
      AddBudget(cs[n], tokens, limit, burst);
      DistributeCapped(cs[n], served.0, 0);
    }
  }

  lemma AppendedAt(s: Served, served: (Node, nat))
    requires Ready(served.0) && ScratchOk(s.cs, s.scratch) && AllReady(s.cs, s.scratch)
    ensures var cs := AppendChild(s, served).cs;
            && |cs| == |s.cs| + 1
            && (forall i | 0 <= i < |s.cs| :: cs[i] == s.cs[i])
            && (cs[|s.cs|] == served.0 || cs[|s.cs|] == Distribute(served.0, 0).0)
  {
    hide Distribute, Unsaturated, ScratchOk, AllReady;
  }

  lemma NothingServed()
    ensures ClaimAll([], []) == 0
  {
  }

  lemma PushShapes(bases: seq<Node>, base: Node, front: seq<Node>, c: Node)
    requires ShapesOf(front) == ShapesOf(bases) && ShapeOf(c) == ShapeOf(base)
    ensures ShapesOf(front + [c]) == ShapesOf(bases + [base])
  {
  }

  lemma PushClaim(bases: seq<Node>, base: Node, front: seq<Node>, c: Node)
    requires ShapesOf(front) == ShapesOf(bases) && ShapeOf(c) == ShapeOf(base)
    ensures ShapesOf(front + [c]) == ShapesOf(bases + [base])
    ensures ClaimAll(bases + [base], front + [c]) == ClaimAll(bases, front) + Claim(base, c)
  {
    PushShapes(bases, base, front, c);
    hide Claim;
    assert (front + [c])[..|front|] == front;
    assert (bases + [base])[..|front|] == bases;
  }

  lemma AppendBudget(bases: seq<Node>, base: Node, s: Served, served: (Node, nat))
    requires Ready(served.0) && ScratchOk(s.cs, s.scratch) && AllReady(s.cs, s.scratch)
    requires ShapesOf(s.cs) == ShapesOf(bases) && ShapeOf(served.0) == ShapeOf(base)
    ensures var r := AppendChild(s, served);
            && ShapesOf(r.cs) == ShapesOf(bases + [base])
            && ClaimAll(bases + [base], r.cs) + r.overflow
            <= ClaimAll(bases, s.cs) + s.overflow + Claim(base, served.0) + served.1
  {
    hide Claim, ClaimAll, Distribute, Unsaturated, ScratchOk, AllReady, ShapesOf, ShapeOf;
    PushClaim(bases, base, s.cs, served.0);
    DistributeClaim(base, served.0, 0);
    PushClaim(bases, base, s.cs, Distribute(served.0, 0).0);
  }

  // ----- A whole tick

  /** `rate_limiter::update_stats` and `bucket::update_stats`. */
  function UpdateStats(node: Node): (r: Node)
    requires BucketsOk(node)
    ensures ShapeOf(r) == ShapeOf(node) && BucketsOk(r)
    decreases node, 1
  {
    match node
    case Leaf(b) => Leaf(BucketStats(b))
    case Limiter(d, cs) =>
      var cs' := UpdateAllStats(cs);
      Limiter(d.(weight := WeightSum(cs'), unsaturated := UnsaturatedCount(cs')), cs')
  }

  function UpdateAllStats(cs: seq<Node>): (r: seq<Node>)
    requires AllBucketsOk(cs)
    ensures ShapesOf(r) == ShapesOf(cs)
    ensures AllBucketsOk(r) && forall i | 0 <= i < |cs| :: r[i] == UpdateStats(cs[i])
    decreases cs, 0
  {
    seq(|cs|, i requires 0 <= i < |cs| => UpdateStats(cs[i]))
  }

  /** `rate_limit_manager::process` for one limiter. */
  function Process(node: Node, burst: nat): (r: Node)
    requires BucketsOk(node) && burst >= 1
    ensures ShapeOf(r) == ShapeOf(node) && BucketsOk(r)
  {
    Distribute(AddTokens(UpdateStats(node), Unlimited, Unlimited, burst).0, 0).0
  }

  function LeafCount(shape: Shape): nat
    decreases shape, 1
  {
    match shape
    case Tip => 1
    case Fork(subs) => LeafCounts(subs)
  }

  function LeafCounts(subs: seq<Shape>): nat
    decreases subs, 0
  {
    if subs == [] then 0 else LeafCounts(subs[..|subs| - 1]) + LeafCount(subs[|subs| - 1])
  }

  /** No limiter of the tree is without leaves. */
  predicate Populated(shape: Shape) {
    LeafCount(shape) > 0 && (shape.Fork? ==> forall i | 0 <= i < |shape.subs| :: Populated(shape.subs[i]))
  }

  lemma {:induction false} StatsCountLeaves(node: Node)
    requires BucketsOk(node)
    ensures Weight(UpdateStats(node)) == LeafCount(ShapeOf(node))
    decreases node, 1
  {
    match node
    case Leaf(_) =>
    case Limiter(_, cs) => StatsCountAllLeaves(cs);
  }

  lemma PushWeight(front: seq<Node>, c: Node)
    ensures WeightSum(front + [c]) == WeightSum(front) + Weight(c)
  {
    assert (front + [c])[..|front|] == front;
  }

  lemma PushLeaves(front: seq<Shape>, sub: Shape)
    ensures LeafCounts(front + [sub]) == LeafCounts(front) + LeafCount(sub)
  {
    assert (front + [sub])[..|front|] == front;
  }

  lemma {:induction false} StatsCountAllLeaves(cs: seq<Node>)
    requires AllBucketsOk(cs)
    ensures WeightSum(UpdateAllStats(cs)) == LeafCounts(ShapesOf(cs))
    decreases cs, 0
  {
    if cs != [] {
      hide UpdateStats, LeafCount, LeafCounts, ShapeOf, Weight, WeightSum;
      var n := |cs| - 1;
      StatsCountAllLeaves(cs[..n]);
      StatsCountLeaves(cs[n]);
      assert UpdateAllStats(cs) == UpdateAllStats(cs[..n]) + [UpdateStats(cs[n])];
      PushWeight(UpdateAllStats(cs[..n]), UpdateStats(cs[n]));
      PushLeaves(ShapesOf(cs[..n]), ShapeOf(cs[n]));
    }
  }

  lemma {:induction false} StatsWeighted(node: Node)
    requires BucketsOk(node) && Populated(ShapeOf(node))
    ensures Weighted(UpdateStats(node))
    decreases node
  {
    if node.Limiter? {
      StatsCountLeaves(node);
      var cs := node.children;
      forall i | 0 <= i < |cs| ensures Weighted(UpdateAllStats(cs)[i]) {
        assert Populated(ShapesOf(cs)[i]);
        StatsWeighted(cs[i]);
      }
    }
  }

  /** In every limiter with a finite limit, the leaves below it gained at most a fifth of limit and carry. */
  predicate WithinLimits(base: Node, node: Node)
    requires ShapeOf(base) == ShapeOf(node)
    decreases node
  {
    node.Limiter? ==>
      && (base.d.limit.Finite? ==> FREQUENCY * GainOf(base, node) <= base.d.limit.n + base.d.carry)
      && forall i | 0 <= i < |node.children| :: WithinLimits(base.children[i], node.children[i])
  }

  lemma {:induction false} CappedWithin(base: Node, node: Node)
    requires ShapeOf(base) == ShapeOf(node) && Capped(base, node)
    ensures WithinLimits(base, node)
    decreases node
  {
    if node.Limiter? {
      GainWithinClaim(base, node);
      forall i | 0 <= i < |node.children| ensures WithinLimits(base.children[i], node.children[i]) {
        CappedWithin(base.children[i], node.children[i]);
      }
    }
  }

  lemma {:induction false} StatsKeepGain(base: Node, node: Node)
    requires BucketsOk(base) && ShapeOf(base) == ShapeOf(node)
    ensures GainOf(UpdateStats(base), node) == GainOf(base, node)
    decreases node, 1
  {
    match node
    case Leaf(_) =>
    case Limiter(_, cs) => StatsKeepAllGain(base.children, cs);
  }

  lemma {:induction false} StatsKeepAllGain(bases: seq<Node>, cs: seq<Node>)
    requires AllBucketsOk(bases) && ShapesOf(bases) == ShapesOf(cs)
    ensures GainOfAll(UpdateAllStats(bases), cs) == GainOfAll(bases, cs)
    decreases cs, 0
  {
    hide UpdateStats, GainOf, ShapeOf, BucketsOk;
    if cs != [] {
      var n := |cs| - 1;
      StatsKeepAllGain(bases[..n], cs[..n]);
      StatsKeepGain(bases[n], cs[n]);
      assert UpdateAllStats(bases)[..n] == UpdateAllStats(bases[..n]);
    }
  }

  lemma {:induction false} StatsKeepWithin(base: Node, node: Node)
    requires BucketsOk(base) && ShapeOf(base) == ShapeOf(node) && WithinLimits(UpdateStats(base), node)
    ensures WithinLimits(base, node)
    decreases node
  {
    if node.Limiter? {
      StatsKeepGain(base, node);
      forall i | 0 <= i < |node.children| ensures WithinLimits(base.children[i], node.children[i]) {
        assert UpdateStats(base).children[i] == UpdateStats(base.children[i]);
        StatsKeepWithin(base.children[i], node.children[i]);
      }
    }
  }

  /** No sub-limiter is without leaves; the root itself may be empty. */
  predicate SubsPopulated(node: Node) {
    node.Limiter? ==> forall i | 0 <= i < |node.children| :: Populated(ShapeOf(node.children[i]))
  }

  lemma PopulatedUnlessEmpty(node: Node)
    requires SubsPopulated(node)
    ensures Populated(ShapeOf(node)) || (node.Limiter? && node.children == [])
  {
    if node.Limiter? && node.children != [] {
      var subs := ShapesOf(node.children);
      assert subs[|subs| - 1] == ShapeOf(node.children[|subs| - 1]);
    }
  }

  /** The nested cap: one tick over any tree without childless sub-limiters keeps every limiter within its limit. */
  lemma NestedCap(node: Node, burst: nat)
    requires BucketsOk(node) && burst >= 1 && SubsPopulated(node)
    ensures WithinLimits(node, Process(node, burst))
  {
    PopulatedUnlessEmpty(node);
    if node.Limiter? && node.children == [] {
      assert ShapesOf(Process(node, burst).children) == [];
    } else {
      PopulatedCap(node, burst);
    }
  }

  lemma PopulatedCap(node: Node, burst: nat)
    requires BucketsOk(node) && burst >= 1 && Populated(ShapeOf(node))
    ensures WithinLimits(node, Process(node, burst))
  {
    hide AddTokens, Distribute, UpdateStats, Capped, WithinLimits, Weighted;
    var base := UpdateStats(node);
    StatsWeighted(node);
    AddBudget(base, Unlimited, Unlimited, burst);
    var served := AddTokens(base, Unlimited, Unlimited, burst).0;
    DistributeCapped(base, served, 0);
    CappedWithin(base, Process(node, burst));
    StatsKeepWithin(node, Process(node, burst));
  }
}
