/** What a limiter tree may hand out: overflow redistribution never creates tokens. */
module LimiterBudget {
  import opened Rates
  import opened LimiterTree

  // ----- What a node has gained over a base tree of the same shape

  function Gain(base: Bucket, b: Bucket): nat {
    if b.available.Unlimited? then 0
    else if base.available.Unlimited? then b.available.n
    else if base.available.n < b.available.n then b.available.n - base.available.n
    else 0
  }

  /** Tokens the leaves gained. */
  function GainOf(base: Node, node: Node): nat
    requires ShapeOf(base) == ShapeOf(node)
    decreases node, 1
  {
    match node
    case Leaf(b) => Gain(base.b, b)
    case Limiter(_, cs) => GainOfAll(base.children, cs)
  }

  function GainOfAll(bases: seq<Node>, cs: seq<Node>): nat
    requires ShapesOf(bases) == ShapesOf(cs)
    decreases cs, 0
  {
    if cs == [] then 0
    else
      var n := |cs| - 1;
      GainOfAll(bases[..n], cs[..n]) + GainOf(bases[n], cs[n])
  }

  /** Tokens the leaves gained, and overflow the limiters still hold. */
  function Claim(base: Node, node: Node): nat
    requires ShapeOf(base) == ShapeOf(node)
    decreases node, 1
  {
    match node
    case Leaf(b) => Gain(base.b, b)
    case Limiter(d, cs) => d.overflow + ClaimAll(base.children, cs)
  }

  function ClaimAll(bases: seq<Node>, cs: seq<Node>): nat
    requires ShapesOf(bases) == ShapesOf(cs)
    decreases cs, 0
  {
    if cs == [] then 0
    else
      var n := |cs| - 1;
      ClaimAll(bases[..n], cs[..n]) + Claim(bases[n], cs[n])
  }

  lemma {:induction false} GainWithinClaim(base: Node, node: Node)
    requires ShapeOf(base) == ShapeOf(node)
    ensures GainOf(base, node) <= Claim(base, node)
    decreases node, 1
  {
    match node
    case Leaf(_) =>
    case Limiter(_, cs) => GainWithinClaimAll(base.children, cs);
  }

  lemma {:induction false} GainWithinClaimAll(bases: seq<Node>, cs: seq<Node>)
    requires ShapesOf(bases) == ShapesOf(cs)
    ensures GainOfAll(bases, cs) <= ClaimAll(bases, cs)
    decreases cs, 0
  {
    if cs != [] {
      var n := |cs| - 1;
      GainWithinClaimAll(bases[..n], cs[..n]);
      GainWithinClaim(bases[n], cs[n]);
    }
  }

  lemma {:induction false} ClaimUpdate(bases: seq<Node>, cs: seq<Node>, j: nat, c: Node)
    requires ShapesOf(bases) == ShapesOf(cs) && j < |cs| && ShapeOf(c) == ShapeOf(cs[j])
    ensures ShapesOf(bases) == ShapesOf(cs[j := c])
    ensures ClaimAll(bases, cs[j := c]) + Claim(bases[j], cs[j]) == ClaimAll(bases, cs) + Claim(bases[j], c)
  {
    ShapesAfterUpdate(cs, j, c);
    var n := |cs| - 1;
    if j == n {
      assert cs[j := c][..n] == cs[..n];
    } else {
      assert cs[j := c][..n] == cs[..n][j := c];
      ClaimUpdate(bases[..n], cs[..n], j, c);
    }
  }

  // ----- Redistribution never creates tokens

  lemma {:induction false} CountWithinSum(cs: seq<Node>, scratch: seq<nat>)
    requires ScratchOk(cs, scratch)
    ensures |scratch| <= UnsaturatedSum(cs, scratch)
  {
    if scratch != [] {
      CountWithinSum(cs, scratch[..|scratch| - 1]);
    }
  }

  lemma BucketClaim(base: Bucket, b: Bucket, overflow: nat)
    requires b.Ok()
    ensures var (b', ret) := BucketDistribute(b, overflow);
            ret <= overflow && Gain(base, b') + ret <= Gain(base, b) + overflow
  {
  }

  lemma LeafClaim(base: Node, b: Bucket, overflow: nat)
    requires Ready(Leaf(b)) && base.Leaf?
    ensures var r := Distribute(Leaf(b), overflow);
            r.1 <= overflow && Claim(base, r.0) + r.1 <= Claim(base, Leaf(b)) + overflow
  {
    BucketClaim(base.b, b, overflow);
  }

  lemma {:induction false} DistributeClaim(base: Node, node: Node, overflow: nat)
    requires Ready(node) && ShapeOf(base) == ShapeOf(node)
    ensures var r := Distribute(node, overflow);
            r.1 <= overflow && Claim(base, r.0) + r.1 <= Claim(base, node) + overflow
    decreases ShapeOf(node), 2, 0, 0
  {
    hide Claim, ClaimAll, Rounds, Settled, Distinct, Unsaturated, UnsaturatedSum, Sweep;
    match node
    case Leaf(b) =>
      LeafClaim(base, b, overflow);
    case Limiter(d, cs) =>
      var remaining := d.overflow + Usable(d, overflow);
      RoundsClaim(base.children, cs, d.scratch, remaining);
      SettledClaim(base, d, cs, overflow, Rounds(cs, d.scratch, remaining));
  }

  lemma SettledClaim(base: Node, d: Data, cs: seq<Node>, overflow: nat, end: Round)
    requires ShapeOf(base) == Fork(ShapesOf(cs)) && ShapesOf(end.cs) == ShapesOf(cs) && InRange(end.scratch, |end.cs|)
    requires ClaimAll(base.children, end.cs) + end.remaining
          <= ClaimAll(base.children, cs) + d.overflow + Usable(d, overflow)
    ensures var r := Settled(d, overflow, end);
            && r.1 <= overflow
            && ShapeOf(r.0) == ShapeOf(base)
            && Claim(base, r.0) + r.1 <= Claim(base, Limiter(d, cs)) + overflow
  {
  }

  lemma {:induction false} RoundsClaim(bases: seq<Node>, cs: seq<Node>, scratch: seq<nat>, remaining: nat)
    requires ScratchOk(cs, scratch) && AllReady(cs, scratch) && ShapesOf(bases) == ShapesOf(cs)
    ensures var r := Rounds(cs, scratch, remaining);
            ClaimAll(bases, r.cs) + r.remaining <= ClaimAll(bases, cs) + remaining
    decreases ShapesOf(cs), 1, |scratch|, remaining
  {
    var u := UnsaturatedSum(cs, scratch);
    var extra := if u != 0 then remaining / u else 0;
    var rest := if u != 0 then remaining % u else remaining;
    var s := Sweep(cs, scratch, 0, extra, rest);
    SweepClaim(bases, cs, scratch, 0, extra, rest);
    CountWithinSum(cs, scratch);
    SharesIsProduct(extra, |scratch|);
    assert rest + extra * |scratch| <= remaining by {
      if u != 0 { ShareFits(remaining, u, |scratch|); }
    }
    if extra != 0 {
      ShareShrinks(remaining, u);
      RoundsClaim(bases, s.cs, s.scratch, s.remaining);
    }
  }

  lemma ShareFits(remaining: nat, u: nat, n: nat)
    requires n <= u && u != 0
    ensures remaining % u + remaining / u * n <= remaining
  {
    DivTimes(remaining, u);
    ScaleMono(n, u, remaining / u);
  }

  /** What a sweep hands out to the children it has yet to visit. */
  function Shares(extra: nat, count: nat): nat {
    if count == 0 then 0 else Shares(extra, count - 1) + extra
  }

  lemma {:induction false} SharesIsProduct(extra: nat, count: nat)
    ensures Shares(extra, count) == extra * count
  {
    if count != 0 { SharesIsProduct(extra, count - 1); }
  }

  lemma {:induction false} VisitClaim(bases: seq<Node>, cs: seq<Node>, scratch: seq<nat>, i: nat, extra: nat, remaining: nat)
    requires ScratchOk(cs, scratch) && AllReady(cs, scratch) && i < |scratch| && ShapesOf(bases) == ShapesOf(cs)
    ensures var (v, _) := Visit(cs, scratch, i, extra, remaining);
            ClaimAll(bases, v.cs) + v.remaining <= ClaimAll(bases, cs) + remaining + extra
    decreases ShapesOf(cs), 0, |scratch| - i, 0
  {
    var j := scratch[i];
    DistributeClaim(bases[j], cs[j], extra);
    ClaimUpdate(bases, cs, j, Distribute(cs[j], extra).0);
    hide ClaimAll, Claim, Distribute, ShapesOf;
  }

  lemma {:induction false} SweepClaim(bases: seq<Node>, cs: seq<Node>, scratch: seq<nat>, i: nat, extra: nat, remaining: nat)
    requires ScratchOk(cs, scratch) && AllReady(cs, scratch) && i <= |scratch| && ShapesOf(bases) == ShapesOf(cs)
    ensures var r := Sweep(cs, scratch, i, extra, remaining);
            ClaimAll(bases, r.cs) + r.remaining <= ClaimAll(bases, cs) + remaining + Shares(extra, |scratch| - i)
    decreases ShapesOf(cs), 0, |scratch| - i, 1
  {
    hide ClaimAll, Visit, ShapesOf, ScratchOk, AllReady;
    if i < |scratch| {
      var (v, next) := Visit(cs, scratch, i, extra, remaining);
      VisitClaim(bases, cs, scratch, i, extra, remaining);
      SweepClaim(bases, v.cs, v.scratch, next, extra, v.remaining);
    }
  }
}
