/**
 * Where redistribution loses nothing, where tokens appear from nowhere, and
 * exactly when the ledger of a tick holds.
 */
module LimiterExact {
  import opened Rates
  import opened LimiterTree
  import opened LimiterBudget
  import opened LimiterCap
  import opened LimiterFair
  import opened LimiterLedger

  // ----- Tokens in a tree

  /** Tokens of the leaves and overflow held by the limiters. */
  function Money(node: Node): nat
    decreases node, 1
  {
    match node
    case Leaf(b) => b.available.Or(0)
    case Limiter(d, cs) => d.overflow + MoneyAll(cs)
  }

  function MoneyAll(cs: seq<Node>): nat
    decreases cs, 0
  {
    if cs == [] then 0 else MoneyAll(cs[..|cs| - 1]) + Money(cs[|cs| - 1])
  }

  function Emptied(node: Node): (r: Node)
    ensures ShapeOf(r) == ShapeOf(node)
    decreases node, 1
  {
    match node
    case Leaf(b) => Leaf(b.(available := Finite(0)))
    case Limiter(d, cs) => Limiter(d, EmptiedAll(cs))
  }

  function EmptiedAll(cs: seq<Node>): (r: seq<Node>)
    ensures ShapesOf(r) == ShapesOf(cs)
    ensures forall i | 0 <= i < |cs| :: r[i] == Emptied(cs[i])
    decreases cs, 0
  {
    if cs == [] then [] else EmptiedAll(cs[..|cs| - 1]) + [Emptied(cs[|cs| - 1])]
  }

  lemma {:induction false} MoneyIsClaim(shape: Node, node: Node)
    requires ShapeOf(shape) == ShapeOf(node)
    ensures Claim(Emptied(shape), node) == Money(node)
    decreases node, 1
  {
    match node
    case Leaf(_) =>
    case Limiter(_, cs) => MoneyIsClaimAll(shape.children, cs);
  }

  lemma {:induction false} MoneyIsClaimAll(shapes: seq<Node>, cs: seq<Node>)
    requires ShapesOf(shapes) == ShapesOf(cs)
    ensures ClaimAll(EmptiedAll(shapes), cs) == MoneyAll(cs)
    decreases cs, 0
  {
    if cs != [] {
      var n := |cs| - 1;
      MoneyIsClaimAll(shapes[..n], cs[..n]);
      MoneyIsClaim(shapes[n], cs[n]);
      assert EmptiedAll(shapes)[..n] == EmptiedAll(shapes[..n]);
    }
  }

  /** Redistribution returns at most what it was given and never creates tokens, in any tree. */
  lemma NeverCreates(node: Node, overflow: nat)
    requires Ready(node)
    ensures var r := Distribute(node, overflow);
            r.1 <= overflow && Money(r.0) + r.1 <= Money(node) + overflow
  {
    hide Distribute, Money, Claim;
    MoneyIsClaim(node, node);
    MoneyIsClaim(node, Distribute(node, overflow).0);
    DistributeClaim(Emptied(node), node, overflow);
  }

  // ----- What is lost among leaves

  /** The children in the scratch buffer are leaves. */
  predicate LeafScratch(cs: seq<Node>, scratch: seq<nat>)
    requires InRange(scratch, |cs|)
  {
    forall k | 0 <= k < |scratch| :: cs[scratch[k]].Leaf?
  }

  /** A leaf without a limit, which takes tokens without counting them. */
  predicate Boundless(node: Node) {
    node.Leaf? && node.b.available.Unlimited?
  }

  /** No such leaf is in the scratch buffer, from an index on. */
  predicate Counting(cs: seq<Node>, scratch: seq<nat>, i: nat)
    requires InRange(scratch, |cs|)
  {
    forall k | i <= k < |scratch| :: !Boundless(cs[scratch[k]])
  }

  lemma {:induction false} MoneyUpdate(cs: seq<Node>, j: nat, c: Node)
    requires j < |cs|
    ensures MoneyAll(cs[j := c]) + Money(cs[j]) == MoneyAll(cs) + Money(c)
  {
    var n := |cs| - 1;
    if j == n {
      assert cs[j := c][..n] == cs[..n];
    } else {
      assert cs[j := c][..n] == cs[..n][j := c];
      MoneyUpdate(cs[..n], j, c);
    }
  }

  lemma {:induction false} CountIsSum(cs: seq<Node>, scratch: seq<nat>)
    requires ScratchOk(cs, scratch) && LeafScratch(cs, scratch)
    ensures UnsaturatedSum(cs, scratch) == |scratch|
  {
    if scratch != [] {
      assert cs[scratch[|scratch| - 1]].Leaf?;
      CountIsSum(cs, scratch[..|scratch| - 1]);
    }
  }

  /** One leaf takes its share, and it is lost exactly if the leaf has no limit. */
  lemma VisitExact(cs: seq<Node>, scratch: seq<nat>, i: nat, extra: nat, remaining: nat)
    requires ScratchOk(cs, scratch) && AllReady(cs, scratch) && i < |scratch| && LeafScratch(cs, scratch)
    ensures var (v, next) := Visit(cs, scratch, i, extra, remaining);
            && LeafScratch(v.cs, v.scratch)
            && (Counting(cs, scratch, 0) ==> Counting(v.cs, v.scratch, 0))
            && (Counting(v.cs, v.scratch, next) ==> Counting(cs, scratch, i + 1))
            && MoneyAll(v.cs) + v.remaining == MoneyAll(cs) + remaining + if Boundless(cs[scratch[i]]) then 0 else extra
  {
    var j := scratch[i];
    var b := cs[j].b;
    var (b', ret) := BucketDistribute(b, extra);
    assert Distribute(cs[j], extra) == (Leaf(b'), ret);
    MoneyUpdate(cs, j, Leaf(b'));
    CountingVisited(cs, scratch, i, Leaf(b'));
    hide MoneyAll, Distribute, BucketDistribute, ShapesOf, Counting, LeafScratch, AllReady, Distinct;
  }

  /** A leaf that was visited keeps its kind, and stays in the buffer or makes room for the last. */
  lemma CountingVisited(cs: seq<Node>, scratch: seq<nat>, i: nat, c: Node)
    requires InRange(scratch, |cs|) && Distinct(scratch) && i < |scratch| && LeafScratch(cs, scratch)
    requires c.Leaf? && (Boundless(c) <==> Boundless(cs[scratch[i]]))
    ensures var cs', scratch' := cs[scratch[i] := c], RemoveAt(scratch, i);
            && InRange(scratch', |cs'|) && LeafScratch(cs', scratch) && LeafScratch(cs', scratch')
            && (Counting(cs, scratch, 0) ==> Counting(cs', scratch, 0) && Counting(cs', scratch', 0))
            && (Counting(cs', scratch, i + 1) ==> Counting(cs, scratch, i + 1))
            && (Counting(cs', scratch', i) ==> Counting(cs, scratch, i + 1))
  {
    var cs', scratch' := cs[scratch[i] := c], RemoveAt(scratch, i);
    if Counting(cs', scratch', i) {
      forall k | i + 1 <= k < |scratch| ensures !Boundless(cs[scratch[k]]) {
        var k' := if k == |scratch| - 1 then i else k;
        assert scratch'[k'] == scratch[k] && cs'[scratch[k]] == cs[scratch[k]];
      }
    }
  }

  lemma {:induction false} SweepExact(cs: seq<Node>, scratch: seq<nat>, i: nat, extra: nat, remaining: nat)
    requires ScratchOk(cs, scratch) && AllReady(cs, scratch) && i <= |scratch| && LeafScratch(cs, scratch)
    requires Counting(cs, scratch, 0) || extra == 0
    ensures var r := Sweep(cs, scratch, i, extra, remaining);
            && LeafScratch(r.cs, r.scratch) && (Counting(cs, scratch, 0) ==> Counting(r.cs, r.scratch, 0))
            && MoneyAll(r.cs) + r.remaining == MoneyAll(cs) + remaining + Shares(extra, |scratch| - i)
    decreases |scratch| - i
  {
    hide MoneyAll, Visit, ShapesOf, AllReady, LeafScratch, Distinct;
    if i < |scratch| {
      var (v, next) := Visit(cs, scratch, i, extra, remaining);
      VisitExact(cs, scratch, i, extra, remaining);
      SweepExact(v.cs, v.scratch, next, extra, v.remaining);
    }
  }

  /** A sweep over a leaf without a limit loses a share. */
  lemma {:induction false} SweepLoses(cs: seq<Node>, scratch: seq<nat>, i: nat, extra: nat, remaining: nat)
    requires ScratchOk(cs, scratch) && AllReady(cs, scratch) && i <= |scratch| && LeafScratch(cs, scratch)
    ensures var r := Sweep(cs, scratch, i, extra, remaining);
            MoneyAll(r.cs) + r.remaining + (if Counting(cs, scratch, i) then 0 else extra)
            <= MoneyAll(cs) + remaining + Shares(extra, |scratch| - i)
    decreases |scratch| - i
  {
    hide MoneyAll, Visit, ShapesOf, AllReady, LeafScratch, Distinct;
    if i < |scratch| {
      var (v, next) := Visit(cs, scratch, i, extra, remaining);
      VisitExact(cs, scratch, i, extra, remaining);
      SweepLoses(v.cs, v.scratch, next, extra, v.remaining);
      assert Counting(cs, scratch, i) <== !Boundless(cs[scratch[i]]) && Counting(cs, scratch, i + 1);
    }
  }

  lemma RoundsMoney(cs: seq<Node>, scratch: seq<nat>, remaining: nat)
    requires ScratchOk(cs, scratch) && AllReady(cs, scratch)
    ensures var r := Rounds(cs, scratch, remaining);
            MoneyAll(r.cs) + r.remaining <= MoneyAll(cs) + remaining
  {
    hide Rounds, MoneyAll, ClaimAll;
    MoneyIsClaimAll(cs, cs);
    MoneyIsClaimAll(cs, Rounds(cs, scratch, remaining).cs);
    RoundsClaim(EmptiedAll(cs), cs, scratch, remaining);
  }

  lemma SharesOut(remaining: nat, n: nat)
    requires n > 0
    ensures remaining % n + Shares(remaining / n, n) == remaining
    ensures remaining / n == 0 <==> remaining < n
  {
    SharesIsProduct(remaining / n, n);
    DivTimes(remaining, n);
    if remaining / n >= 1 {
      ScaleMono(1, remaining / n, n);
    }
  }

  /** Nothing is lost in the rounds exactly if no leaf without a limit takes part, or there is less than one token for each. */
  lemma {:induction false} RoundsExact(cs: seq<Node>, scratch: seq<nat>, remaining: nat)
    requires ScratchOk(cs, scratch) && AllReady(cs, scratch) && LeafScratch(cs, scratch)
    ensures var r := Rounds(cs, scratch, remaining);
            MoneyAll(r.cs) + r.remaining == MoneyAll(cs) + remaining <==> Counting(cs, scratch, 0) || remaining < |scratch|
    decreases |scratch|, remaining
  {
    hide MoneyAll, Sweep, Counting, LeafScratch;
    var u := UnsaturatedSum(cs, scratch);
    CountIsSum(cs, scratch);
    hide UnsaturatedSum;
    var extra := if u != 0 then remaining / u else 0;
    var rest := if u != 0 then remaining % u else remaining;
    var s := Sweep(cs, scratch, 0, extra, rest);
    if u != 0 {
      SharesOut(remaining, u);
    }
    SweepLoses(cs, scratch, 0, extra, rest);
    if Counting(cs, scratch, 0) || extra == 0 {
      SweepExact(cs, scratch, 0, extra, rest);
    }
    if extra != 0 {
      ShareShrinks(remaining, u);
      RoundsMoney(s.cs, s.scratch, s.remaining);
      if Counting(cs, scratch, 0) {
        RoundsExact(s.cs, s.scratch, s.remaining);
      }
    } else {
      NoneWithout(cs, scratch);
    }
  }

  lemma NoneWithout(cs: seq<Node>, scratch: seq<nat>)
    requires InRange(scratch, |cs|)
    ensures scratch == [] ==> Counting(cs, scratch, 0)
  {
  }

  /**
   * When the unsaturated children of a limiter are leaves, its redistribution
   * loses nothing exactly if none of them is without a limit, or there is less
   * than one token for each.
   */
  lemma NothingLost(d: Data, cs: seq<Node>, overflow: nat)
    requires Ready(Limiter(d, cs)) && LeafScratch(cs, d.scratch)
    ensures var r := Distribute(Limiter(d, cs), overflow);
            Money(r.0) + r.1 == Money(Limiter(d, cs)) + overflow
            <==> Counting(cs, d.scratch, 0) || d.overflow + Usable(d, overflow) < |d.scratch|
  {
    hide *;
    var remaining := d.overflow + Usable(d, overflow);
    CanShare(d, cs);
    SpelledOut(d, cs, overflow);
    HeldAndBelow(d, cs);
    RoundsExact(cs, d.scratch, remaining);
    var end := Rounds(cs, d.scratch, remaining);
    BufferInRange(end.cs, end.scratch);
    SettledMoney(d, overflow, end);
  }

  lemma CanShare(d: Data, cs: seq<Node>)
    requires Ready(Limiter(d, cs))
    ensures ScratchOk(cs, d.scratch) && InRange(d.scratch, |cs|) && AllReady(cs, d.scratch)
  {
    hide Distinct, Unsaturated;
  }

  lemma BufferInRange(cs: seq<Node>, scratch: seq<nat>)
    requires ScratchOk(cs, scratch)
    ensures InRange(scratch, |cs|)
  {
    hide Distinct, Unsaturated;
  }

  lemma HeldAndBelow(d: Data, cs: seq<Node>)
    ensures Money(Limiter(d, cs)) == d.overflow + MoneyAll(cs)
  {
    hide MoneyAll;
  }

  lemma SpelledOut(d: Data, cs: seq<Node>, overflow: nat)
    requires Ready(Limiter(d, cs)) && ScratchOk(cs, d.scratch) && AllReady(cs, d.scratch)
    ensures var end := Rounds(cs, d.scratch, d.overflow + Usable(d, overflow));
            InRange(end.scratch, |end.cs|) && Distribute(Limiter(d, cs), overflow) == Settled(d, overflow, end)
  {
    hide Ready, Rounds, Settled, ShapeOf, BucketsOk, Usable, Distinct, Unsaturated;
  }

  /** Booking what remains neither creates nor loses anything. */
  lemma SettledMoney(d: Data, overflow: nat, end: Round)
    requires InRange(end.scratch, |end.cs|)
    ensures var r := Settled(d, overflow, end);
            Money(r.0) + r.1 == MoneyAll(end.cs) + end.remaining + overflow - Usable(d, overflow)
  {
    hide MoneyAll, UnsaturatedSum;
  }

  /** A leaf without a limit swallows what it is given: here three tokens. In a tick it is never given any; see `TickSound`. */
  lemma BoundlessLoses(d: Data, b: Bucket)
    requires b == Bucket(Unlimited, 1, Unlimited, true, true)
    requires d == Data(Unlimited, Unlimited, 0, 0, Unlimited, 0, 1, 1, [0])
    ensures var r := Distribute(Limiter(d, [Leaf(b)]), 3);
            Ready(Limiter(d, [Leaf(b)])) && Money(r.0) + r.1 < Money(Limiter(d, [Leaf(b)])) + 3
  {
    var node := Limiter(d, [Leaf(b)]);
    assert Ready(node);
    assert Boundless(node.children[d.scratch[0]]);
    NothingLost(d, [Leaf(b)], 3);
    NeverCreates(node, 3);
  }

  // ----- Childless sub-limiters return tokens they were never charged

  predicate Childless(node: Node) {
    node.Limiter? && node.children == [] && node.d.weight == 0
  }

  predicate Flat(cs: seq<Node>) {
    forall i | 0 <= i < |cs| :: (cs[i].Leaf? && cs[i].b.Ok()) || Childless(cs[i])
  }

  function ChildlessCount(cs: seq<Node>): nat {
    if cs == [] then 0 else ChildlessCount(cs[..|cs| - 1]) + if Childless(cs[|cs| - 1]) then 1 else 0
  }

  lemma {:induction false} FlatCount(cs: seq<Node>)
    requires Flat(cs)
    ensures WeightSum(cs) + ChildlessCount(cs) == |cs|
  {
    if cs != [] { FlatCount(cs[..|cs| - 1]); }
  }

  lemma FlatLeaf(b: Bucket, tokens: nat, limit: nat, burst: nat)
    requires b.Ok() && tokens <= limit && burst >= 1
    ensures var r := AddTokens(Leaf(b), Finite(tokens), Finite(limit), burst);
            Claim(Leaf(b), r.0) + r.1 == tokens && Distribute(r.0, 0) == (r.0, 0)
  {
    var (b', ret) := BucketAdd(b, Finite(tokens), Finite(limit), burst);
    assert Gain(b, b') + ret == tokens;
    assert BucketDistribute(b', 0) == (b', 0);
  }

  lemma NoRounds(cs: seq<Node>, scratch: seq<nat>, remaining: nat)
    requires cs == [] && scratch == []
    ensures Rounds(cs, scratch, remaining) == Round(cs, scratch, remaining)
  {
    assert Sweep(cs, scratch, 0, 0, remaining) == Round(cs, scratch, remaining);
  }

  lemma NoChildren(node: Node)
    requires node.Limiter? && node.children == [] && node.d.scratch == [] && node.d.overflow == 0
    ensures var r := Distribute(node, 0);
            r.0.Limiter? && r.0.children == [] && r.0.d.overflow == 0 && r.1 == 0
  {
    NoRounds(node.children, node.d.scratch, node.d.overflow + Usable(node.d, 0));
    hide Rounds;
  }

  lemma FlatChild(c: Node, tokens: nat, limit: nat, burst: nat)
    requires (c.Leaf? && c.b.Ok()) || Childless(c)
    requires tokens <= limit && burst >= 1
    ensures var r := AddTokens(c, Finite(tokens), Finite(limit), burst);
            && Claim(c, r.0) + r.1 == tokens
            && Claim(c, Distribute(r.0, 0).0) == Claim(c, r.0) && Distribute(r.0, 0).1 == 0
  {
    hide Distribute;
    if c.Leaf? {
      FlatLeaf(c.b, tokens, limit, burst);
    } else {
      NoChildren(AddTokens(c, Finite(tokens), Finite(limit), burst).0);
    }
  }

  lemma {:induction false} FlatServed(cs: seq<Node>, tokens: nat, limit: nat, burst: nat)
    requires Flat(cs) && AllBucketsOk(cs) && tokens <= limit && burst >= 1
    ensures var s := AddToAll(cs, Finite(tokens), Finite(limit), burst);
            ClaimAll(cs, s.cs) + s.overflow == Shares(tokens, |cs|)
  {
    hide *;
    var given, cap := Finite(tokens), Finite(limit);
    PairOf(tokens, limit);
    if cs == [] {
      FlatNone(cs, given, cap, burst);
    } else {
      var n := |cs| - 1;
      FlatFront(cs, n);
      LastAdded(cs, n, given, cap, burst);
      FlatServed(cs[..n], tokens, limit, burst);
      FlatChild(cs[n], tokens, limit, burst);
      AppendFlat(cs[..n], cs[n], AddToAll(cs[..n], given, cap, burst), AddTokens(cs[n], given, cap, burst), tokens);
      assert cs == cs[..n] + [cs[n]];
      OneMoreShare(tokens, n);
    }
  }

  lemma PairOf(tokens: nat, limit: nat)
    requires tokens <= limit
    ensures Paired(Finite(tokens), Finite(limit))
  {
  }

  lemma FlatNone(cs: seq<Node>, tokens: Rate, limit: Rate, burst: nat)
    requires cs == [] && Paired(tokens, limit) && burst >= 1 && tokens.Finite?
    ensures var s := AddToAll(cs, tokens, limit, burst);
            ClaimAll(cs, s.cs) + s.overflow == Shares(tokens.n, |cs|)
  {
  }

  lemma OneMoreShare(tokens: nat, n: nat)
    ensures Shares(tokens, n + 1) == Shares(tokens, n) + tokens
  {
  }

  lemma FlatFront(cs: seq<Node>, n: nat)
    requires Flat(cs) && AllBucketsOk(cs) && n == |cs| - 1
    ensures Flat(cs[..n]) && AllBucketsOk(cs[..n]) && ((cs[n].Leaf? && cs[n].b.Ok()) || Childless(cs[n]))
  {
    hide BucketsOk, Childless;
  }

  lemma AppendFlat(bases: seq<Node>, base: Node, s: Served, served: (Node, nat), share: nat)
    requires Ready(served.0) && ScratchOk(s.cs, s.scratch) && AllReady(s.cs, s.scratch)
    requires ShapesOf(s.cs) == ShapesOf(bases) && ShapeOf(served.0) == ShapeOf(base)
    requires Claim(base, served.0) + served.1 == share
    requires Claim(base, Distribute(served.0, 0).0) == Claim(base, served.0) && Distribute(served.0, 0).1 == 0
    ensures var r := AppendChild(s, served);
            && ShapesOf(r.cs) == ShapesOf(bases + [base])
            && ClaimAll(bases + [base], r.cs) + r.overflow == ClaimAll(bases, s.cs) + s.overflow + share
  {
    hide Claim, ClaimAll, Distribute, Unsaturated, ScratchOk, AllReady, ShapesOf, ShapeOf;
    PushClaim(bases, base, s.cs, served.0);
    PushClaim(bases, base, s.cs, Distribute(served.0, 0).0);
  }

  /**
   * The exact balance of serving leaves and childless sub-limiters: gains and
   * overflow make one share for each leaf and one more for each childless
   * sub-limiter. So they add up to the tokens charged exactly when there is no
   * such sub-limiter or nothing was served.
   */
  lemma ChildlessLaw(cs: seq<Node>, tokens: nat, limit: nat, burst: nat)
    requires Flat(cs) && tokens <= limit && burst >= 1
    ensures var s := AddToAll(cs, Finite(tokens), Finite(limit), burst);
            && ClaimAll(cs, s.cs) + s.overflow == tokens * (WeightSum(cs) + ChildlessCount(cs))
            && (ClaimAll(cs, s.cs) + s.overflow == tokens * WeightSum(cs) <==> ChildlessCount(cs) == 0 || tokens == 0)
  {
    FlatServed(cs, tokens, limit, burst);
    FlatCount(cs);
    SharesIsProduct(tokens, |cs|);
    SurplusArithmetic(tokens, WeightSum(cs), ChildlessCount(cs), |cs|);
    hide *;
  }

  lemma SurplusArithmetic(t: nat, w: nat, z: nat, n: nat)
    requires n == w + z
    ensures t * n == t * (w + z)
    ensures t * n == t * w <==> z == 0 || t == 0
  {
    assert t * n == t * w + t * z;
    if z != 0 && t != 0 {
      ScaledAtLeast(t, z);
    }
  }

  const Idle := Data(Unlimited, Finite(0), 0, 0, Finite(0), 0, 0, 0, [])
  const Thirsty := Bucket(Finite(0), 1, Finite(10), true, true)

  lemma ShareOut(c: Node, rest: Node)
    requires c == Leaf(Thirsty.(available := Finite(2)))
    ensures Rounds([c, rest], [0], 2) == Round([Leaf(Thirsty.(available := Finite(4))), rest], [0], 0)
  {
    var full := Leaf(Thirsty.(available := Finite(4)));
    assert Distribute(c, 2) == (full, 0);
    assert Distribute(full, 0) == (full, 0);
    var cs, cs', scratch := [c, rest], [full, rest], [0];
    assert cs[0 := full] == cs';
    assert cs'[0 := full] == cs';
    assert scratch[..0] == [];
    assert UnsaturatedSum(cs, scratch) == 1 by { assert UnsaturatedSum(cs, scratch[..0]) == 0; }
    assert UnsaturatedSum(cs', scratch) == 1 by { assert UnsaturatedSum(cs', scratch[..0]) == 0; }
    assert Visit(cs, scratch, 0, 2, 0) == (Round(cs', scratch, 0), 1);
    assert Sweep(cs, scratch, 0, 2, 0) == Sweep(cs', scratch, 1, 2, 0) == Round(cs', scratch, 0);
    assert Visit(cs', scratch, 0, 0, 0) == (Round(cs', scratch, 0), 1);
    assert Sweep(cs', scratch, 0, 0, 0) == Sweep(cs', scratch, 1, 0, 0) == Round(cs', scratch, 0);
    assert Rounds(cs', scratch, 0) == Round(cs', scratch, 0);
  }

  /** A limiter of ten octets a second with one waiting leaf and one childless sub-limiter. */
  const Leaky := Limiter(Idle.(limit := Finite(10)), [Leaf(Thirsty), Limiter(Idle, [])])

  lemma LeakySettle(d: Data)
    requires d == Idle.(limit := Finite(10), weight := 1, unsaturated := 1)
    ensures var (mergedLimit, d1) := Settle(d, Unlimited, Unlimited);
            mergedLimit == Finite(10) && d1.merged == Finite(2)
  {
  }

  lemma ServeOne(cs: seq<Node>, tokens: Rate, limit: Rate, c: Node, ret: nat)
    requires |cs| == 1 && BucketsOk(cs[0]) && Paired(tokens, limit)
    requires AddTokens(cs[0], tokens, limit, 1) == (c, ret) && Unsaturated(c) != 0
    ensures AddToAll(cs, tokens, limit, 1) == Served([c], ret, [0])
  {
    hide AddTokens, Unsaturated, Paired, BucketsOk, Ready, ScratchOk, AllReady, ShapesOf;
    assert AddToAll(cs[..0], tokens, limit, 1) == Served([], 0, []);
  }

  lemma ServeTwo(cs: seq<Node>, tokens: Rate, limit: Rate, c: Node, ret: nat, more: nat)
    requires |cs| == 2 && BucketsOk(cs[0]) && BucketsOk(cs[1]) && Paired(tokens, limit)
    requires AddTokens(cs[0], tokens, limit, 1) == (c, ret) && Unsaturated(c) != 0
    requires var (c1, ret1) := AddTokens(cs[1], tokens, limit, 1);
             ret1 == more && Unsaturated(c1) == 0 && Distribute(c1, 0).1 == 0
    ensures var s := AddToAll(cs, tokens, limit, 1);
            s.overflow == ret + more && s.scratch == [0] && |s.cs| == 2 && s.cs[0] == c
  {
    ServeOne(cs[..1], tokens, limit, c, ret);
    hide AddTokens, Unsaturated, Distribute;
  }

  lemma LeakyLeaf(node: Node)
    requires node == Leaf(Thirsty)
    ensures AddTokens(node, Finite(2), Finite(10), 1) == (Leaf(Thirsty.(available := Finite(2))), 0)
  {
  }

  lemma LeakyIdle(node: Node)
    requires node == Limiter(Idle, [])
    ensures var (c, ret) := AddTokens(node, Finite(2), Finite(10), 1);
            ret == 2 && Unsaturated(c) == 0 && Distribute(c, 0).1 == 0
  {
    NoChildren(AddTokens(node, Finite(2), Finite(10), 1).0);
    hide Distribute;
  }

  lemma LeakyBoth(cs: seq<Node>, tokens: Rate, limit: Rate)
    requires cs == [Leaf(Thirsty), Limiter(Idle, [])] && tokens == Finite(2) && limit == Finite(10)
    ensures var s := AddToAll(cs, tokens, limit, 1);
            s.overflow == 2 && s.scratch == [0] && |s.cs| == 2 && s.cs[0] == Leaf(Thirsty.(available := Finite(2)))
  {
    hide AddTokens, Distribute, AddToAll, BucketAdd, Settle;
    LeakyLeaf(cs[0]);
    LeakyIdle(cs[1]);
    ServeTwo(cs, tokens, limit, Leaf(Thirsty.(available := Finite(2))), 0, 2);
  }

  lemma LeakyServed(base: Node)
    requires base.Limiter? && base.d == Idle.(limit := Finite(10), weight := 1, unsaturated := 1)
    requires base.children == [Leaf(Thirsty), Limiter(Idle, [])]
    ensures var served := AddTokens(base, Unlimited, Unlimited, 1).0;
            && served.Limiter? && served.d.overflow == 2 && served.d.scratch == [0]
            && |served.children| == 2 && served.children[0] == Leaf(Thirsty.(available := Finite(2)))
  {
    LeakySettle(base.d);
    var (mergedLimit, d1) := Settle(base.d, Unlimited, Unlimited);
    LeakyBoth(base.children, d1.merged, mergedLimit);
    hide AddToAll, Settle;
  }

  lemma LeakySpread(served: Node)
    requires Ready(served) && served.Limiter? && served.d.overflow == 2 && served.d.scratch == [0]
    requires |served.children| == 2 && served.children[0] == Leaf(Thirsty.(available := Finite(2)))
    ensures var r := Distribute(served, 0).0;
            r.Limiter? && |r.children| == 2 && r.children[0] == Leaf(Thirsty.(available := Finite(4)))
  {
    ShareOut(served.children[0], served.children[1]);
    assert served.children == [served.children[0], served.children[1]];
    hide Rounds;
  }

  /** With a childless sub-limiter the cap fails: here the leaf gains four octets in a tick worth two. */
  lemma ChildlessBreaksCap()
    ensures BucketsOk(Leaky) && !WithinLimits(Leaky, Process(Leaky, 1))
  {
    assert BucketsOk(Leaky);
    hide AddTokens, Distribute, UpdateStats, GainOf, BucketsOk;
    var base := UpdateStats(Leaky);
    LeakyStats();
    LeakyServed(base);
    LeakySpread(AddTokens(base, Unlimited, Unlimited, 1).0);
    LeakyGain(Process(Leaky, 1));
  }

  lemma LeakyStats()
    ensures UpdateStats(Leaky) == Limiter(Idle.(limit := Finite(10), weight := 1, unsaturated := 1), [Leaf(Thirsty), Limiter(Idle, [])])
  {
    var cs := Leaky.children;
    assert UpdateStats(cs[0]) == Leaf(Thirsty);
    assert UpdateStats(cs[1]) == Limiter(Idle, []);
    var cs' := UpdateAllStats(cs);
    assert cs' == [Leaf(Thirsty), Limiter(Idle, [])];
    assert WeightSum(cs') == 1 by { assert cs'[..1] == [Leaf(Thirsty)]; assert cs'[..1][..0] == []; }
    assert UnsaturatedCount(cs') == 1 by { assert cs'[..1] == [Leaf(Thirsty)]; assert cs'[..1][..0] == []; }
  }

  lemma LeakyGain(after: Node)
    requires ShapeOf(after) == ShapeOf(Leaky) && after.children[0] == Leaf(Thirsty.(available := Finite(4)))
    ensures GainOf(Leaky, after) >= 4
  {
    var cs, cs' := Leaky.children, after.children;
    assert GainOfAll(cs, cs') >= GainOfAll(cs[..1], cs'[..1]);
    assert GainOfAll(cs[..1], cs'[..1]) == GainOfAll(cs[..1][..0], cs'[..1][..0]) + GainOf(cs[..1][0], cs'[..1][0]);
  }

  // ----- The ledger of one tick, exactly

  lemma EmptyTick(root: Node, burst: nat)
    requires root.Limiter? && root.children == [] && root.d.limit.Finite? && burst >= 1
    ensures var r := Process(root, burst);
            && r.Limiter? && r.d.carry == root.d.carry && GainOf(root, r) == 0
            && r.d.debt == root.d.debt - MinNat(root.d.limit.n, root.d.debt)
  {
    var base := UpdateStats(root);
    assert base.children == [] && base.d.weight == 0;
    var served := AddTokens(base, Unlimited, Unlimited, burst).0;
    assert served.d.debt == root.d.debt - MinNat(root.d.limit.n, root.d.debt) by {
      assert root.d.debt / 1 == root.d.debt;
    }
    DistributeKeepsData(served, 0);
    assert ShapesOf(Process(root, burst).children) == [];
  }

  /**
   * A tick keeps the ledger exactly when a bucket is attached, or the debt it
   * pays is worth no more than one fifth of the limit: without buckets a whole
   * second's limit goes into the debt.
   */
  lemma TickLedgerExactly(root: Node, burst: nat)
    requires root.Limiter? && BucketsOk(root) && SubsPopulated(root) && root.d.limit.Finite? && burst >= 1
    ensures var r := Process(root, burst);
            && r.Limiter?
            && (FREQUENCY * (GainOf(root, r) + root.d.debt - r.d.debt) + r.d.carry <= root.d.limit.n + root.d.carry
                <==> root.children != [] || FREQUENCY * MinNat(root.d.limit.n, root.d.debt) <= root.d.limit.n)
  {
    hide Process, GainOf, SubsPopulated, BucketsOk;
    if root.children == [] {
      EmptyTick(root, burst);
    } else {
      TickRoot(root, burst);
    }
  }

  /** Without buckets a limiter of ten octets a second pays a debt of ten in one tick. */
  lemma EmptyTickOverpays(root: Node, burst: nat)
    requires root == Limiter(Idle.(limit := Finite(10), debt := 10), []) && burst >= 1
    ensures var r := Process(root, burst);
            && r.Limiter? && r.d.debt == 0
            && FREQUENCY * (GainOf(root, r) + root.d.debt - r.d.debt) + r.d.carry > root.d.limit.n + root.d.carry
  {
    hide Process, GainOf;
    EmptyTick(root, burst);
  }
}
