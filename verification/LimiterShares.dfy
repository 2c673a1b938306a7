/**
 * Exactly when sharing out overflow wastes tokens, when nothing is left over
 * that a child still wants, and a tick in which a nested limiter wastes tokens.
 */
module LimiterShares {
  import opened Rates
  import opened LimiterTree
  import opened LimiterBudget
  import opened LimiterCap
  import opened LimiterLedger
  import opened LimiterExact
  import opened LimiterWaste

  // ----- What a sweep leaves alone

  /** A child further on in the buffer, as it was. */
  ghost predicate Ahead(cs: seq<Node>, scratch: seq<nat>, i: nat, j: nat, c: Node) {
    j < |cs| && cs[j] == c && exists l | i < l < |scratch| :: scratch[l] == j
  }

  /** The children yet to be visited are as they were. */
  lemma VisitOthers(cs: seq<Node>, scratch: seq<nat>, i: nat, extra: nat, remaining: nat, k: nat)
    requires ScratchOk(cs, scratch) && AllReady(cs, scratch) && i < |scratch|
    requires var (v, next) := Visit(cs, scratch, i, extra, remaining);
             next <= k < |v.scratch|
    ensures var (v, next) := Visit(cs, scratch, i, extra, remaining);
            Ahead(cs, scratch, i, v.scratch[k], v.cs[v.scratch[k]])
  {
    hide Distribute, Ready, Unsaturated, ShapesOf;
    var (v, next) := Visit(cs, scratch, i, extra, remaining);
    var l := if |v.scratch| < |scratch| && k == i then |scratch| - 1 else k;
    assert v.scratch[k] == scratch[l] && v.cs[v.scratch[k]] == cs[scratch[l]];
  }

  /** A sweep that hands out nothing wastes what the children waste of their own. */
  lemma {:induction false} SweepOfNothing(cs: seq<Node>, scratch: seq<nat>, i: nat, remaining: nat)
    requires ScratchOk(cs, scratch) && AllReady(cs, scratch) && i <= |scratch|
    requires forall k | i <= k < |scratch| :: Waste(cs[scratch[k]], 0) == 0
    ensures SweepWaste(cs, scratch, i, 0, remaining) == 0
    decreases |scratch| - i
  {
    hide Visit, Waste, ScratchOk, AllReady, ShapesOf;
    if i < |scratch| {
      var (v, next) := Visit(cs, scratch, i, 0, remaining);
      InTheBuffer(v.cs, v.scratch);
      forall k | next <= k < |v.scratch| ensures Waste(v.cs[v.scratch[k]], 0) == 0 {
        VisitOthers(cs, scratch, i, 0, remaining, k);
      }
      SweepOfNothing(v.cs, v.scratch, next, v.remaining);
    }
  }

  lemma InTheBuffer(cs: seq<Node>, scratch: seq<nat>)
    requires ScratchOk(cs, scratch) && AllReady(cs, scratch)
    ensures forall k | 0 <= k < |scratch| :: scratch[k] < |cs| && Ready(cs[scratch[k]]) && Unsaturated(cs[scratch[k]]) >= 1
  {
    hide Ready, Unsaturated;
  }

  // ----- Where nothing is wasted

  /** Below a child in the buffer there is never more than one that wants tokens. */
  predicate Thin(node: Node)
    requires Ready(node)
  {
    node.Limiter? ==>
      && |node.d.scratch| <= 1 && node.d.unsaturated <= 1
      && forall k | 0 <= k < |node.d.scratch| :: Thin(node.children[node.d.scratch[k]])
  }

  predicate AllThin(cs: seq<Node>, scratch: seq<nat>)
    requires InRange(scratch, |cs|) && AllReady(cs, scratch)
  {
    forall k | 0 <= k < |scratch| :: Thin(cs[scratch[k]])
  }

  /** Nothing is held by the limiters that overflow reaches. */
  predicate Drained(node: Node)
    requires Ready(node)
  {
    node.Limiter? ==>
      && node.d.overflow == 0
      && forall k | 0 <= k < |node.d.scratch| :: Drained(node.children[node.d.scratch[k]])
  }

  lemma {:induction false} ThinSum(cs: seq<Node>, scratch: seq<nat>)
    requires ScratchOk(cs, scratch) && AllReady(cs, scratch) && AllThin(cs, scratch)
    ensures UnsaturatedSum(cs, scratch) == |scratch|
  {
    if scratch != [] {
      var n := |scratch| - 1;
      assert Thin(cs[scratch[n]]) && Unsaturated(cs[scratch[n]]) == 1;
      forall k | 0 <= k < n ensures Thin(cs[scratch[..n][k]]) {}
      hide Thin, Ready;
      ThinSum(cs, scratch[..n]);
    }
  }

  lemma {:induction false} ThinWastesNothing(node: Node, overflow: nat)
    requires Ready(node) && (node.Limiter? ==> AllThin(node.children, node.d.scratch))
    ensures Waste(node, overflow) == 0
    ensures Thin(node) ==> Thin(Distribute(node, overflow).0)
    decreases ShapeOf(node), 2, 0, 0
  {
    hide Rounds, RoundsWaste, Distinct, Unsaturated, ShapesOf, UnsaturatedSum;
    match node
    case Leaf(_) =>
    case Limiter(d, cs) =>
      var remaining := d.overflow + Usable(d, overflow);
      RoundsThin(cs, d.scratch, remaining);
      var end := Rounds(cs, d.scratch, remaining);
      ThinSum(end.cs, end.scratch);
  }

  lemma {:induction false} RoundsThin(cs: seq<Node>, scratch: seq<nat>, remaining: nat)
    requires ScratchOk(cs, scratch) && AllReady(cs, scratch) && AllThin(cs, scratch)
    ensures var r := Rounds(cs, scratch, remaining);
            RoundsWaste(cs, scratch, remaining) == 0 && AllThin(r.cs, r.scratch) && |r.scratch| <= |scratch|
    decreases ShapesOf(cs), 1, |scratch|, remaining
  {
    hide *;
    var u, extra, rest := OneRound(cs, scratch, remaining);
    var s := Sweep(cs, scratch, 0, extra, rest);
    ThinSum(cs, scratch);
    NoShares(extra);
    SweepThin(cs, scratch, 0, extra, rest);
    if extra != 0 {
      RoundsThin(s.cs, s.scratch, s.remaining);
    }
  }

  lemma NoShares(extra: nat)
    ensures Shares(extra, 0) == 0
  {
  }

  lemma {:induction false} SweepThin(cs: seq<Node>, scratch: seq<nat>, i: nat, extra: nat, remaining: nat)
    requires ScratchOk(cs, scratch) && AllReady(cs, scratch) && AllThin(cs, scratch) && i <= |scratch|
    ensures SweepWaste(cs, scratch, i, extra, remaining) == 0
    ensures var r := Sweep(cs, scratch, i, extra, remaining);
            AllThin(r.cs, r.scratch)
    decreases ShapesOf(cs), 0, |scratch| - i, 1
  {
    hide Visit, ShapesOf, ScratchOk, AllReady, Waste, AllThin;
    if i < |scratch| {
      var (v, next) := Visit(cs, scratch, i, extra, remaining);
      VisitThin(cs, scratch, i, extra, remaining);
      SweepThin(v.cs, v.scratch, next, extra, v.remaining);
    }
  }

  lemma {:induction false} VisitThin(cs: seq<Node>, scratch: seq<nat>, i: nat, extra: nat, remaining: nat)
    requires ScratchOk(cs, scratch) && AllReady(cs, scratch) && AllThin(cs, scratch) && i < |scratch|
    ensures Waste(cs[scratch[i]], extra) == 0
    ensures var (v, _) := Visit(cs, scratch, i, extra, remaining);
            AllThin(v.cs, v.scratch)
    decreases ShapesOf(cs), 0, |scratch| - i, 0
  {
    hide Distribute, Ready, Unsaturated, ShapesOf, Thin, Waste;
    var j := scratch[i];
    ThinDown(cs[j]);
    ThinWastesNothing(cs[j], extra);
    var (v, _) := Visit(cs, scratch, i, extra, remaining);
    forall k | 0 <= k < |v.scratch| ensures Thin(v.cs[v.scratch[k]]) {
      var l := if |v.scratch| < |scratch| && k == i then |scratch| - 1 else k;
      assert v.scratch[k] == scratch[l] && (l == i || v.cs[scratch[l]] == cs[scratch[l]]);
    }
  }

  lemma ThinDown(node: Node)
    requires Ready(node) && Thin(node)
    ensures node.Limiter? ==> AllThin(node.children, node.d.scratch)
  {
  }

  lemma {:induction false} DrainedWastesNothing(node: Node)
    requires Ready(node) && Drained(node)
    ensures Waste(node, 0) == 0
    decreases node
  {
    if node.Limiter? {
      var d, cs := node.d, node.children;
      forall k | 0 <= k < |d.scratch| ensures Waste(cs[d.scratch[k]], 0) == 0 {
        hide Waste;
        DrainedWastesNothing(cs[d.scratch[k]]);
      }
      assert ScratchOk(cs, d.scratch) && AllReady(cs, d.scratch) && Waste(node, 0) == RoundsWaste(cs, d.scratch, 0);
      hide *;
      var u, extra, rest := OneRound(cs, d.scratch, 0);
      SweepOfNothing(cs, d.scratch, 0, rest);
    }
  }

  /**
   * When every child in the buffer is a leaf or thin, or asks for several
   * shares and holds nothing, sharing out wastes nothing exactly if none asks
   * for several shares, or there is less than one token for every share.
   */
  lemma WastesExactly(d: Data, cs: seq<Node>, overflow: nat)
    requires Ready(Limiter(d, cs))
    requires forall k | 0 <= k < |d.scratch| ::
               var c := cs[d.scratch[k]];
               Thin(c) || (Unsaturated(c) >= 2 && Drained(c))
    ensures Waste(Limiter(d, cs), overflow) == 0 <==>
            || (forall k | 0 <= k < |d.scratch| :: Unsaturated(cs[d.scratch[k]]) == 1)
            || d.overflow + Usable(d, overflow) < UnsaturatedSum(cs, d.scratch)
  {
    var remaining := d.overflow + Usable(d, overflow);
    assert Waste(Limiter(d, cs), overflow) == RoundsWaste(cs, d.scratch, remaining);
    forall k | 0 <= k < |d.scratch| ensures Waste(cs[d.scratch[k]], 0) == 0 && (Unsaturated(cs[d.scratch[k]]) == 1 ==> Thin(cs[d.scratch[k]])) {
      var c := cs[d.scratch[k]];
      if Thin(c) {
        ThinDown(c);
        ThinWastesNothing(c, 0);
      } else {
        DrainedWastesNothing(c);
      }
    }
    hide Waste, RoundsWaste, SweepWaste, Thin, Ready, Unsaturated, ShapesOf, Rounds, Sweep;
    if forall k | 0 <= k < |d.scratch| :: Unsaturated(cs[d.scratch[k]]) == 1 {
      RoundsThin(cs, d.scratch, remaining);
    } else {
      var u, extra, rest := OneRound(cs, d.scratch, remaining);
      SeveralShares(cs, d.scratch);
      if extra == 0 {
        SweepOfNothing(cs, d.scratch, 0, rest);
      } else {
        SharesIsProduct(extra, u - |d.scratch|);
        ScaledAtLeast(extra, u - |d.scratch|);
      }
    }
  }

  lemma {:induction false} SeveralShares(cs: seq<Node>, scratch: seq<nat>)
    requires ScratchOk(cs, scratch) && exists k | 0 <= k < |scratch| :: Unsaturated(cs[scratch[k]]) != 1
    ensures UnsaturatedSum(cs, scratch) > |scratch|
  {
    hide Unsaturated;
    var n := |scratch| - 1;
    if Unsaturated(cs[scratch[n]]) != 1 {
      CountWithinSum(cs, scratch[..n]);
    } else {
      var k :| 0 <= k < |scratch| && Unsaturated(cs[scratch[k]]) != 1;
      assert Unsaturated(cs[scratch[..n][k]]) != 1;
      SeveralShares(cs, scratch[..n]);
    }
  }

  /** In a tick, a limiter with leaves in its buffer loses nothing, with or without limits. */
  lemma LeavesLoseNothing(d: Data, cs: seq<Node>, overflow: nat)
    requires Ready(Limiter(d, cs)) && Sound(Limiter(d, cs), overflow) && LeafScratch(cs, d.scratch)
    ensures var r := Distribute(Limiter(d, cs), overflow);
            Money(r.0) + r.1 == Money(Limiter(d, cs)) + overflow
  {
    WasteAccount(Limiter(d, cs), overflow);
    ThinWastesNothing(Limiter(d, cs), overflow);
  }

  // ----- Where nothing is left over that is still wanted

  /** Overflow was shared out: what is held is less than a token for each share wanted, and the count is right. */
  predicate Quiet(node: Node)
    requires Ready(node)
  {
    node.Limiter? ==>
      && node.d.unsaturated == UnsaturatedSum(node.children, node.d.scratch)
      && (node.d.scratch == [] || node.d.overflow < node.d.unsaturated)
      && forall k | 0 <= k < |node.d.scratch| :: Quiet(node.children[node.d.scratch[k]])
  }

  predicate AllQuiet(cs: seq<Node>, scratch: seq<nat>)
    requires InRange(scratch, |cs|) && AllReady(cs, scratch)
  {
    forall k | 0 <= k < |scratch| :: Quiet(cs[scratch[k]])
  }

  lemma LeafStays(b: Bucket)
    requires b.Ok()
    ensures Distribute(Leaf(b), 0) == (Leaf(b), 0)
  {
  }

  /** To share out again changes nothing. */
  lemma {:induction false} QuietStays(node: Node)
    requires Ready(node) && Quiet(node)
    ensures Distribute(node, 0) == (node, 0)
    decreases node
  {
    match node
    case Leaf(b) =>
      LeafStays(b);
    case Limiter(d, cs) =>
      forall k | 0 <= k < |d.scratch| ensures Distribute(cs[d.scratch[k]], 0) == (cs[d.scratch[k]], 0) {
        hide Distribute;
        QuietStays(cs[d.scratch[k]]);
      }
      assert ScratchOk(cs, d.scratch) && AllReady(cs, d.scratch);
      var u := UnsaturatedSum(cs, d.scratch);
      assert d.unsaturated == u && (d.scratch == [] || d.overflow < u);
      RoundsStay(cs, d.scratch, d.overflow);
      LimiterStays(d, cs);
      hide *;
  }

  lemma RoundsStay(cs: seq<Node>, scratch: seq<nat>, remaining: nat)
    requires ScratchOk(cs, scratch) && AllReady(cs, scratch)
    requires scratch == [] || remaining < UnsaturatedSum(cs, scratch)
    requires forall k | 0 <= k < |scratch| :: Distribute(cs[scratch[k]], 0) == (cs[scratch[k]], 0)
    ensures Rounds(cs, scratch, remaining) == Round(cs, scratch, remaining)
  {
    assert scratch == [] ==> UnsaturatedSum(cs, scratch) == 0;
    hide *;
    var u, extra, rest := OneRound(cs, scratch, remaining);
    SweepStays(cs, scratch, 0, rest);
  }

  lemma LimiterStays(d: Data, cs: seq<Node>)
    requires Ready(Limiter(d, cs)) && d.unsaturated == UnsaturatedSum(cs, d.scratch)
    requires Rounds(cs, d.scratch, d.overflow) == Round(cs, d.scratch, d.overflow)
    ensures Distribute(Limiter(d, cs), 0) == (Limiter(d, cs), 0)
  {
    hide Ready, Rounds, Settled, ShapeOf, BucketsOk;
    assert d.overflow + Usable(d, 0) == d.overflow;
    assert Distribute(Limiter(d, cs), 0) == Settled(d, 0, Round(cs, d.scratch, d.overflow));
    SettledStays(d, cs);
  }

  lemma SettledStays(d: Data, cs: seq<Node>)
    requires InRange(d.scratch, |cs|) && d.unsaturated == UnsaturatedSum(cs, d.scratch)
    ensures Settled(d, 0, Round(cs, d.scratch, d.overflow)) == (Limiter(d, cs), 0)
  {
    hide UnsaturatedSum;
  }

  lemma {:induction false} SweepStays(cs: seq<Node>, scratch: seq<nat>, i: nat, remaining: nat)
    requires ScratchOk(cs, scratch) && AllReady(cs, scratch) && i <= |scratch|
    requires forall k | 0 <= k < |scratch| :: Distribute(cs[scratch[k]], 0) == (cs[scratch[k]], 0)
    ensures Sweep(cs, scratch, i, 0, remaining) == Round(cs, scratch, remaining)
    decreases |scratch| - i
  {
    if i < |scratch| {
      hide Distribute, Ready, Unsaturated, ShapesOf, Sweep;
      var j := scratch[i];
      assert cs[j := cs[j]] == cs;
      assert Visit(cs, scratch, i, 0, remaining) == (Round(cs, scratch, remaining), i + 1);
      SweepStays(cs, scratch, i + 1, remaining);
      SweepOne(cs, scratch, i, remaining);
    }
  }

  lemma SweepOne(cs: seq<Node>, scratch: seq<nat>, i: nat, remaining: nat)
    requires ScratchOk(cs, scratch) && AllReady(cs, scratch) && i < |scratch|
    ensures var (v, next) := Visit(cs, scratch, i, 0, remaining);
            Sweep(cs, scratch, i, 0, remaining) == Sweep(v.cs, v.scratch, next, 0, v.remaining)
  {
    hide Visit, ScratchOk, AllReady, ShapesOf;
  }

  /** If all in the buffer have shared out their own, what remains is less than a token for each share still wanted. */
  lemma {:induction false} NoWaste(cs: seq<Node>, scratch: seq<nat>, remaining: nat)
    requires ScratchOk(cs, scratch) && AllReady(cs, scratch) && AllQuiet(cs, scratch)
    ensures var r := Rounds(cs, scratch, remaining);
            AllQuiet(r.cs, r.scratch) && (r.scratch == [] || r.remaining < UnsaturatedSum(r.cs, r.scratch))
    decreases ShapesOf(cs), 1, |scratch|, remaining
  {
    hide *;
    var u, extra, rest := OneRound(cs, scratch, remaining);
    var s := Sweep(cs, scratch, 0, extra, rest);
    if extra == 0 {
      BufferStays(cs, scratch);
      SweepStays(cs, scratch, 0, rest);
    } else {
      SweepQuiet(cs, scratch, 0, extra, rest);
      NoWaste(s.cs, s.scratch, s.remaining);
    }
  }

  lemma BufferStays(cs: seq<Node>, scratch: seq<nat>)
    requires ScratchOk(cs, scratch) && AllReady(cs, scratch) && AllQuiet(cs, scratch)
    ensures forall k | 0 <= k < |scratch| :: Distribute(cs[scratch[k]], 0) == (cs[scratch[k]], 0)
  {
    forall k | 0 <= k < |scratch| ensures Distribute(cs[scratch[k]], 0) == (cs[scratch[k]], 0) {
      hide Distribute, Quiet, Ready;
      QuietStays(cs[scratch[k]]);
    }
  }

  lemma {:induction false} SweepQuiet(cs: seq<Node>, scratch: seq<nat>, i: nat, extra: nat, remaining: nat)
    requires ScratchOk(cs, scratch) && AllReady(cs, scratch) && AllQuiet(cs, scratch) && i <= |scratch|
    ensures var r := Sweep(cs, scratch, i, extra, remaining);
            AllQuiet(r.cs, r.scratch)
    decreases ShapesOf(cs), 0, |scratch| - i, 1
  {
    hide Visit, ShapesOf, ScratchOk, AllReady, AllQuiet;
    if i < |scratch| {
      var (v, next) := Visit(cs, scratch, i, extra, remaining);
      VisitQuiet(cs, scratch, i, extra, remaining);
      SweepQuiet(v.cs, v.scratch, next, extra, v.remaining);
    }
  }

  lemma {:induction false} VisitQuiet(cs: seq<Node>, scratch: seq<nat>, i: nat, extra: nat, remaining: nat)
    requires ScratchOk(cs, scratch) && AllReady(cs, scratch) && AllQuiet(cs, scratch) && i < |scratch|
    ensures var (v, _) := Visit(cs, scratch, i, extra, remaining);
            AllQuiet(v.cs, v.scratch)
    decreases ShapesOf(cs), 0, |scratch| - i, 0
  {
    hide Distribute, Ready, Unsaturated, ShapesOf, Quiet;
    var j := scratch[i];
    QuietDown(cs[j]);
    SharedOut(cs[j], extra);
    var (v, _) := Visit(cs, scratch, i, extra, remaining);
    forall k | 0 <= k < |v.scratch| ensures Quiet(v.cs[v.scratch[k]]) {
      var l := if |v.scratch| < |scratch| && k == i then |scratch| - 1 else k;
      assert v.scratch[k] == scratch[l] && (l == i || v.cs[scratch[l]] == cs[scratch[l]]);
    }
  }

  lemma QuietDown(node: Node)
    requires Ready(node) && Quiet(node)
    ensures node.Limiter? ==> AllQuiet(node.children, node.d.scratch)
  {
  }

  /** What a redistribution leaves, if all in the buffer have shared out their own: to share out again changes nothing. */
  lemma {:induction false} SharedOut(node: Node, overflow: nat)
    requires Ready(node) && (node.Limiter? ==> AllQuiet(node.children, node.d.scratch))
    ensures var r := Distribute(node, overflow).0;
            Quiet(r) && Distribute(r, 0) == (r, 0)
    decreases ShapeOf(node), 2, 0, 0
  {
    hide Rounds, Distinct, Unsaturated, ShapesOf, UnsaturatedSum;
    var r := Distribute(node, overflow).0;
    match node {
      case Leaf(_) =>
      case Limiter(d, cs) =>
        NoWaste(cs, d.scratch, d.overflow + Usable(d, overflow));
        assert Quiet(r);
    }
    hide Distribute;
    QuietStays(r);
  }

  // ----- A tick that wastes tokens

  const Full := Bucket(Finite(10), 1, Finite(10), false, false)

  /** A limiter of thirty octets a second over a leaf that is full and a sub-limiter with two that wait. */
  const Nested := Limiter(Idle.(limit := Finite(30)), [Leaf(Full), Limiter(Idle, [Leaf(Thirsty), Leaf(Thirsty)])])

  lemma ServeFirst(cs: seq<Node>, tokens: Rate, limit: Rate, c: Node, ret: nat)
    requires |cs| == 1 && BucketsOk(cs[0]) && Paired(tokens, limit)
    requires AddTokens(cs[0], tokens, limit, 1) == (c, ret)
    ensures AddToAll(cs, tokens, limit, 1)
            == if Unsaturated(c) != 0 then Served([c], ret, [0]) else Served([Distribute(c, 0).0], ret + Distribute(c, 0).1, [])
  {
    hide AddTokens, Unsaturated, Paired, BucketsOk, Ready, ScratchOk, AllReady, ShapesOf, Distribute;
    assert AddToAll(cs[..0], tokens, limit, 1) == Served([], 0, []);
  }

  lemma ServePair(cs: seq<Node>, tokens: Rate, limit: Rate, a: Node, b: Node, x: nat, y: nat)
    requires |cs| == 2 && BucketsOk(cs[0]) && BucketsOk(cs[1]) && Paired(tokens, limit)
    requires AddTokens(cs[0], tokens, limit, 1) == (a, x) && AddTokens(cs[1], tokens, limit, 1) == (b, y) && Unsaturated(b) != 0
    ensures var s := AddToAll(cs, tokens, limit, 1);
            if Unsaturated(a) != 0 then s == Served([a, b], x + y, [0, 1])
            else s == Served([Distribute(a, 0).0, b], x + Distribute(a, 0).1 + y, [1])
  {
    hide AddTokens, Unsaturated, Paired, BucketsOk, Ready, ScratchOk, AllReady, ShapesOf, ShapeOf, Distribute, AppendChild;
    assert AllBucketsOk(cs) && AllBucketsOk(cs[..1]);
    var front := AddToAll(cs[..1], tokens, limit, 1);
    assert AddToAll(cs, tokens, limit, 1) == AppendChild(front, (b, y));
    ServeFirst(cs[..1], tokens, limit, a, x);
    NotedChild(front, b, y);
    hide *;
  }

  lemma NotedChild(s: Served, c: Node, ret: nat)
    requires Ready(c) && ScratchOk(s.cs, s.scratch) && AllReady(s.cs, s.scratch) && Unsaturated(c) != 0
    ensures AppendChild(s, (c, ret)) == Served(s.cs + [c], s.overflow + ret, s.scratch + [|s.cs|])
  {
    hide Ready, ScratchOk, AllReady, Unsaturated, ShapesOf, Distribute;
  }

  lemma PairStats(cs: seq<Node>)
    requires |cs| == 2
    ensures WeightSum(cs) == Weight(cs[0]) + Weight(cs[1]) && UnsaturatedCount(cs) == Unsaturated(cs[0]) + Unsaturated(cs[1])
  {
    assert cs[..1][..0] == [];
    assert WeightSum(cs[..1]) == WeightSum(cs[..1][..0]) + Weight(cs[0]);
    assert UnsaturatedCount(cs[..1]) == UnsaturatedCount(cs[..1][..0]) + Unsaturated(cs[0]);
  }

  /** The two that wait get their share and want more. */
  lemma SubServed(sub: Node, tokens: Rate, limit: Rate)
    requires sub == Limiter(Idle.(weight := 2, unsaturated := 2), [Leaf(Thirsty), Leaf(Thirsty)])
    requires tokens == Finite(2) && limit == Finite(10)
    ensures BucketsOk(sub)
    ensures var (c, ret) := AddTokens(sub, tokens, limit, 1);
            && ret == 0 && c.Limiter? && c.d.overflow == 0 && c.d.unsaturated == 2 && c.d.unused == Unlimited
            && InRange(c.d.scratch, |c.children|) && LeafScratch(c.children, c.d.scratch)
  {
    assert sub.children[0] == Leaf(Thirsty) && sub.children[1] == Leaf(Thirsty);
    assert BucketsOk(sub);
    SubSettle(sub.d, tokens, limit);
    LeakyLeaf(sub.children[0]);
    var leaf := Leaf(Thirsty.(available := Finite(2)));
    ServePair(sub.children, tokens, limit, leaf, leaf, 0, 0);
    hide AddToAll, Settle;
  }

  lemma SubSettle(d: Data, tokens: Rate, limit: Rate)
    requires d == Idle.(weight := 2, unsaturated := 2) && tokens == Finite(2) && limit == Finite(10)
    ensures var (mergedLimit, d1) := Settle(d, tokens, limit);
            mergedLimit == limit && d1.merged == tokens && d1.unused == Unlimited && d1.unsaturated == 2 && d1.weight == 2
  {
  }

  lemma FullLeaf(node: Node, tokens: Rate, limit: Rate)
    requires node == Leaf(Full) && tokens == Finite(2) && limit == Finite(10)
    ensures AddTokens(node, tokens, limit, 1) == (node, 2) && Distribute(node, 0) == (node, 0)
  {
  }

  lemma NestedSettle(d: Data)
    requires d == Idle.(limit := Finite(30), weight := 3)
    ensures var (mergedLimit, d1) := Settle(d, Unlimited, Unlimited);
            mergedLimit == Finite(10) && d1.merged == Finite(2)
  {
  }

  lemma NestedStats(sub: Node)
    requires sub == Limiter(Idle.(weight := 2, unsaturated := 2), [Leaf(Thirsty), Leaf(Thirsty)])
    ensures BucketsOk(Nested) && UpdateStats(Nested) == Limiter(Idle.(limit := Finite(30), weight := 3), [Leaf(Full), sub])
  {
    assert BucketsOk(Nested.children[0]) && BucketsOk(Nested.children[1]);
    var leaves := Nested.children[1].children;
    var cs := UpdateAllStats(leaves);
    assert UpdateStats(leaves[0]) == Leaf(Thirsty);
    assert cs == [Leaf(Thirsty), Leaf(Thirsty)];
    PairStats(cs);
    assert UpdateStats(Nested.children[1]) == sub;
    assert UpdateStats(Nested.children[0]) == Leaf(Full);
    var top := UpdateAllStats(Nested.children);
    assert top == [Leaf(Full), sub];
    PairStats(top);
  }

  lemma NestedServed(base: Node, sub: Node)
    requires sub == Limiter(Idle.(weight := 2, unsaturated := 2), [Leaf(Thirsty), Leaf(Thirsty)])
    requires base == Limiter(Idle.(limit := Finite(30), weight := 3), [Leaf(Full), sub]) && BucketsOk(base)
    ensures var served := AddTokens(base, Unlimited, Unlimited, 1).0;
            && served.Limiter? && served.d.overflow == 2 && served.d.scratch == [1] && |served.children| == 2
            && var c := served.children[1];
            c.Limiter? && c.d.overflow == 0 && c.d.unsaturated == 2 && c.d.unused == Unlimited
            && InRange(c.d.scratch, |c.children|) && LeafScratch(c.children, c.d.scratch)
  {
    hide AddToAll, Settle;
    assert base.children[0] == Leaf(Full) && base.children[1] == sub;
    NestedSettle(base.d);
    var (mergedLimit, d1) := Settle(base.d, Unlimited, Unlimited);
    BothServed(base.children, sub, d1.merged, mergedLimit);
  }

  lemma BothServed(cs: seq<Node>, sub: Node, tokens: Rate, limit: Rate)
    requires sub == Limiter(Idle.(weight := 2, unsaturated := 2), [Leaf(Thirsty), Leaf(Thirsty)])
    requires cs == [Leaf(Full), sub] && AllBucketsOk(cs) && tokens == Finite(2) && limit == Finite(10)
    ensures var s := AddToAll(cs, tokens, limit, 1);
            && s.overflow == 2 && s.scratch == [1] && |s.cs| == 2
            && var c := s.cs[1];
            c.Limiter? && c.d.overflow == 0 && c.d.unsaturated == 2 && c.d.unused == Unlimited
            && InRange(c.d.scratch, |c.children|) && LeafScratch(c.children, c.d.scratch)
  {
    SubServed(sub, tokens, limit);
    FullLeaf(cs[0], tokens, limit);
    hide AddTokens, AddToAll, Distribute, BucketsOk;
    assert Unsaturated(cs[0]) == 0;
    var (c, ret) := AddTokens(sub, tokens, limit, 1);
    ServePair(cs, tokens, limit, cs[0], c, 2, 0);
  }

  lemma ServedWastes(served: Node)
    requires Ready(served) && served.Limiter? && served.d.overflow == 2 && served.d.scratch == [1] && |served.children| == 2
    requires var c := served.children[1];
             && c.Limiter? && c.d.overflow == 0 && c.d.unsaturated == 2 && c.d.unused == Unlimited
             && InRange(c.d.scratch, |c.children|) && LeafScratch(c.children, c.d.scratch)
    ensures Waste(served, 0) > 0
  {
    hide Waste, Distinct;
    var d, cs := served.d, served.children;
    var c := cs[d.scratch[0]];
    assert Ready(c) && Unsaturated(c) == 2 && Drained(c);
    assert UnsaturatedSum(cs, d.scratch) == 2 by { assert UnsaturatedSum(cs, d.scratch[..0]) == 0; }
    WastesExactly(d, cs, 0);
  }

  /**
   * A tick that wastes: of the two tokens that the full leaf gives back, the
   * sub-limiter is charged for two and given one, which is less than a token
   * for each of its leaves.
   */
  lemma NestedWaste(served: Node)
    requires BucketsOk(Nested) && served == AddTokens(UpdateStats(Nested), Unlimited, Unlimited, 1).0
    ensures Money(Process(Nested, 1)) < Money(served) && TickLost(Nested, 1) > 0
  {
    var sub := Limiter(Idle.(weight := 2, unsaturated := 2), [Leaf(Thirsty), Leaf(Thirsty)]);
    NestedStats(sub);
    NestedServed(UpdateStats(Nested), sub);
    hide AddTokens, UpdateStats, Distribute, Money, AddLost, Waste, Sound;
    ServedWastes(served);
    TickSound(Nested, 1);
    WasteAccount(served, 0);
  }
}
