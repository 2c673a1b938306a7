/**
 * The rate limiter as the program runs it: loops over children and scratch
 * buffer, and objects whose trees change with every call. The tree below an
 * object is a value that each call replaces.
 */
module RateLimiter {
  import opened Rates
  import opened LimiterTree
  import opened LimiterCap
  import opened LimiterLedger

  method SumUnsaturated(cs: seq<Node>, scratch: seq<nat>) returns (sum: nat)
    requires InRange(scratch, |cs|)
    ensures sum == UnsaturatedSum(cs, scratch)
  {
    sum := 0;
    for k := 0 to |scratch|
      invariant sum == UnsaturatedSum(cs, scratch[..k])
    {
      assert scratch[..k + 1][..k] == scratch[..k];
      sum := sum + Unsaturated(cs[scratch[k]]);
    }
    assert scratch[..|scratch|] == scratch;
  }

  /** One pass over the scratch buffer, shrinking it in place by moving its last index into the gap. */
  method SweepOnce(start: Round, extra: nat) returns (end: Round)
    requires ScratchOk(start.cs, start.scratch) && AllReady(start.cs, start.scratch)
    ensures end == Sweep(start.cs, start.scratch, 0, extra, start.remaining)
    decreases ShapesOf(start.cs), 1
  {
    hide Sweep, Visit, ScratchOk, AllReady, AllBucketsOk, ShapesOf;
    var cs, scratch, remaining := start.cs, start.scratch, start.remaining;
    var i: nat := 0;
    InRangeOf(cs, scratch);
    while i < |scratch|
      invariant i <= |scratch| && ScratchOk(cs, scratch) && InRange(scratch, |cs|) && AllReady(cs, scratch)
      invariant ShapesOf(cs) == ShapesOf(start.cs)
      invariant Sweep(cs, scratch, i, extra, remaining) == Sweep(start.cs, start.scratch, 0, extra, start.remaining)
      decreases |scratch| - i
    {
      SweepStep(cs, scratch, i, extra, remaining);
      cs, scratch, i, remaining := VisitChild(cs, scratch, i, extra, remaining);
      InRangeOf(cs, scratch);
    }
    SweepDone(cs, scratch, extra, remaining);
    end := Round(cs, scratch, remaining);
  }

  lemma InRangeOf(cs: seq<Node>, scratch: seq<nat>)
    requires ScratchOk(cs, scratch)
    ensures InRange(scratch, |cs|)
  {
  }

  lemma SweepDone(cs: seq<Node>, scratch: seq<nat>, extra: nat, remaining: nat)
    requires ScratchOk(cs, scratch) && AllReady(cs, scratch)
    ensures Sweep(cs, scratch, |scratch|, extra, remaining) == Round(cs, scratch, remaining)
  {
  }

  /** One child of the scratch buffer takes its share. */
  method VisitChild(cs: seq<Node>, scratch: seq<nat>, i: nat, extra: nat, remaining: nat)
    returns (cs': seq<Node>, scratch': seq<nat>, i': nat, remaining': nat)
    requires ScratchOk(cs, scratch) && AllReady(cs, scratch) && i < |scratch|
    ensures (Round(cs', scratch', remaining'), i') == Visit(cs, scratch, i, extra, remaining)
    decreases ShapesOf(cs), 0
  {
    hide Distribute, BucketsOk, Ready;
    var j := scratch[i];
    assert ShapeOf(cs[j]) == ShapesOf(cs)[j];
    var c, sub := DistributeOverflow(cs[j], extra);
    cs', scratch', i', remaining' := cs[j := c], scratch, i, remaining;
    if sub != 0 || Unsaturated(c) == 0 {
      remaining' := remaining + sub;
      scratch' := scratch'[i := scratch'[|scratch'| - 1]];
      scratch' := scratch'[..|scratch'| - 1];
    } else {
      i' := i + 1;
    }
  }

  lemma SweepStep(cs: seq<Node>, scratch: seq<nat>, i: nat, extra: nat, remaining: nat)
    requires ScratchOk(cs, scratch) && AllReady(cs, scratch) && i < |scratch|
    ensures var (v, next) := Visit(cs, scratch, i, extra, remaining);
            Sweep(v.cs, v.scratch, next, extra, v.remaining) == Sweep(cs, scratch, i, extra, remaining)
  {
    hide Visit, ScratchOk, AllReady;
  }

  /** `distribute_overflow`, for leaves and limiters. */
  method DistributeOverflow(node: Node, overflow: nat) returns (r: Node, ret: nat)
    requires Ready(node)
    ensures (r, ret) == Distribute(node, overflow)
    decreases ShapeOf(node), 3
  {
    hide Rounds, Settled, BucketsOk, Unsaturated, Distinct;
    match node
    case Leaf(b) =>
      var (b', left) := BucketDistribute(b, overflow);
      r, ret := Leaf(b'), left;
    case Limiter(d, _) =>
      var end := SpreadRounds(node.children, d.scratch, d.overflow + Usable(d, overflow));
      r, ret := Book(d, overflow, end);
  }

  /** The end of `distribute_overflow`. */
  method Book(d: Data, overflow: nat, end: Round) returns (r: Node, ret: nat)
    requires InRange(end.scratch, |end.cs|)
    ensures (r, ret) == Settled(d, overflow, end)
  {
    var usable := Usable(d, overflow);
    var unsaturated := SumUnsaturated(end.cs, end.scratch);
    var d1 := d.(unsaturated := unsaturated, scratch := end.scratch);
    if usable > end.remaining {
      if d1.unused.Finite? {
        d1 := d1.(unused := Finite(d1.unused.n - (usable - end.remaining)));
      }
      r, ret := Limiter(d1.(overflow := 0), end.cs), end.remaining + overflow - usable;
    } else {
      r, ret := Limiter(d1.(overflow := end.remaining - usable), end.cs), overflow;
    }
  }

  /** The outer loop of `distribute_overflow`. */
  method SpreadRounds(children: seq<Node>, scratch0: seq<nat>, sum: nat) returns (end: Round)
    requires ScratchOk(children, scratch0) && AllReady(children, scratch0)
    ensures end == Rounds(children, scratch0, sum)
    decreases ShapesOf(children), 2
  {
    hide Sweep, Distinct, Unsaturated, Ready, BucketsOk, ShapesOf, ShapeOf;
    end := Round(children, scratch0, sum);
    while true
      invariant ScratchOk(end.cs, end.scratch) && AllReady(end.cs, end.scratch)
      invariant ShapesOf(end.cs) == ShapesOf(children)
      invariant Rounds(end.cs, end.scratch, end.remaining) == Rounds(children, scratch0, sum)
      decreases |end.scratch|, end.remaining
    {
      var unsaturated := SumUnsaturated(end.cs, end.scratch);
      var extra, rest := 0, end.remaining;
      if unsaturated != 0 {
        extra, rest := end.remaining / unsaturated, end.remaining % unsaturated;
      }
      var swept := SweepOnce(end.(remaining := rest), extra);
      if extra == 0 {
        return swept;
      }
      ShareShrinks(end.remaining, unsaturated);
      end := swept;
    }
  }

  /** The loop over the children in `rate_limiter::add_tokens`. */
  method ServeChildren(children: seq<Node>, tokens: Rate, limit: Rate, burst: nat) returns (s: Served)
    requires AllBucketsOk(children) && Paired(tokens, limit) && burst >= 1
    ensures s == AddToAll(children, tokens, limit, burst)
    decreases children, 0
  {
    hide AddTokens, AppendChild, BucketsOk, Distinct, Unsaturated, Ready;
    var cs, overflow, scratch := [], 0, [];
    for i := 0 to |children|
      invariant Served(cs, overflow, scratch) == AddToAll(children[..i], tokens, limit, burst)
    {
      ServeStep(children[..i + 1], tokens, limit, burst);
      assert children[..i + 1][..i] == children[..i];
      var c, more := AddTokensTo(children[i], tokens, limit, burst);
      cs, overflow, scratch := ServeChild(cs, overflow, scratch, c, more);
    }
    assert children[..|children|] == children;
    s := Served(cs, overflow, scratch);
  }

  lemma ServeStep(cs: seq<Node>, tokens: Rate, limit: Rate, burst: nat)
    requires cs != [] && AllBucketsOk(cs) && Paired(tokens, limit) && burst >= 1
    ensures AddToAll(cs, tokens, limit, burst)
         == AppendChild(AddToAll(cs[..|cs| - 1], tokens, limit, burst), AddTokens(cs[|cs| - 1], tokens, limit, burst))
  {
    hide AddTokens, AppendChild, BucketsOk;
  }

  method ServeChild(cs: seq<Node>, overflow: nat, scratch: seq<nat>, c: Node, more: nat)
    returns (cs': seq<Node>, overflow': nat, scratch': seq<nat>)
    requires Ready(c) && ScratchOk(cs, scratch) && AllReady(cs, scratch)
    ensures Served(cs', overflow', scratch') == AppendChild(Served(cs, overflow, scratch), (c, more))
    decreases ShapeOf(c), 2
  {
    hide Distribute, ScratchOk, AllReady;
    if Unsaturated(c) != 0 {
      cs', overflow', scratch' := cs + [c], overflow + more, scratch + [|cs|];
    } else {
      var spread, left := DistributeOverflow(c, 0);
      cs', overflow', scratch' := cs + [spread], overflow + more + left, scratch;
    }
  }

  /** `add_tokens`, for leaves and limiters. */
  method AddTokensTo(node: Node, tokens: Rate, limit: Rate, burst: nat) returns (r: Node, ret: nat)
    requires BucketsOk(node) && Paired(tokens, limit) && burst >= 1
    ensures (r, ret) == AddTokens(node, tokens, limit, burst)
    decreases node, 1
  {
    hide BucketAdd, AddToAll, Settle;
    match node
    case Leaf(b) =>
      var (b', left) := BucketAdd(b, tokens, limit, burst);
      r, ret := Leaf(b'), left;
    case Limiter(d, cs) =>
      if d.weight == 0 {
        r := Limiter(PayDebt(d.(scratch := [], overflow := 0, merged := d.limit.Min(tokens))), cs);
        ret := tokens.Or(0);
      } else {
        var (mergedLimit, d1) := Settle(d, tokens, limit);
        var s := ServeChildren(cs, d1.merged, mergedLimit, burst);
        r, ret := Serve(d1, s), Refund(tokens, d1);
      }
  }

  lemma JoinOk(root: Node, child: Node, burst: nat)
    requires root.Limiter? && BucketsOk(root) && BucketsOk(child) && burst >= 1
    ensures BucketsOk(Join(root, child, burst))
  {
    hide Admitted, JoinWeight, Advance;
  }

  /** A joining child with its statistics updated takes the tokens advanced to it. */
  method Admit(child: Node, stats: Node, tokens: Rate, burst: nat) returns (joined: Node)
    requires BucketsOk(child) && stats == UpdateStats(Detached(child)) && burst >= 1
    ensures joined == Admitted(child, tokens, burst)
  {
    hide AddTokens, Distribute, UpdateStats, BucketsOk;
    var served, _ := AddTokensTo(stats, tokens, tokens, burst);
    var spread, _ := DistributeOverflow(served, 0);
    joined := spread;
  }

  method JoinChild(root: Node, child: Node, burst: nat) returns (r: Node)
    requires root.Limiter? && BucketsOk(child) && burst >= 1
    ensures r == Join(root, child, burst)
  {
    hide Admitted, UpdateStats, BucketsOk;
    var stats := UpdateStats(Detached(child));
    var w := if Weight(stats) == 0 then 1 else Weight(stats);
    var tokens := Advance(root.d, w);
    var joined := Admit(child, stats, tokens, burst);
    var d := root.d.(weight := root.d.weight + w, debt := root.d.debt + tokens.Or(0) * w);
    r := Node.Limiter(d, root.children + [joined]);
  }

  /** A root limiter: its tree, changed by ticks, joins and leaves. */
  class Limiter {
    var root: Node

    ghost predicate Valid()
      reads this
    {
      root.Limiter? && BucketsOk(root)
    }

    constructor (limit: Rate)
      ensures Valid() && root.children == [] && root.d.limit == limit && root.d.debt == 0 && root.d.carry == 0
    {
      root := Node.Limiter(Data(limit, Finite(0), 0, 0, Finite(0), 0, 0, 0, []), []);
    }

    /** `rate_limit_manager::process`: every limiter of the tree stays within its limit. */
    method Tick(burst: nat)
      requires Valid() && burst >= 1
      modifies this
      ensures Valid() && root == Process(old(root), burst)
      ensures SubsPopulated(old(root)) ==> WithinLimits(old(root), root)
    {
      if SubsPopulated(root) { NestedCap(root, burst); }
      hide BucketsOk, SubsPopulated, WithinLimits, AddTokens, Distribute;
      var stats := UpdateStats(root);
      var served, _ := AddTokensTo(stats, Unlimited, Unlimited, burst);
      var after, _ := DistributeOverflow(served, 0);
      root := after;
    }

    /** `rate_limiter::add`: the tokens advanced to the child are owed by its new parent. */
    method Add(child: Node, burst: nat)
      requires Valid() && BucketsOk(child) && burst >= 1
      modifies this
      ensures Valid() && root == Join(old(root), child, burst)
      ensures old(root.d.merged.Finite?) && Populated(ShapeOf(child)) ==>
                JoinGain(old(root), child, burst) <= root.d.debt - old(root.d.debt)
    {
      if root.d.merged.Finite? && Populated(ShapeOf(child)) { JoinRoot(root, child, burst); }
      JoinOk(root, child, burst);
      hide Join, Populated, ShapeOf, JoinGain, BucketsOk;
      var joined := JoinChild(root, child, burst);
      root := joined;
    }

    /** `bucket_base::remove_bucket`: the last child takes the place of the removed one. */
    method RemoveBucket(i: nat) returns (unspent: nat)
      requires Valid() && i < |root.children|
      modifies this
      ensures Valid() && (root, unspent) == Leave(old(root), i)
      ensures multiset(root.children) == multiset(old(root.children)) - multiset{old(root.children[i])}
    {
      var cs := root.children;
      var (_, taken) := Gather(cs[i]);
      unspent := taken;
      MovedMultiset(cs, i);
      if i != |cs| - 1 {
        cs := cs[i := cs[|cs| - 1]];
      }
      assert cs[..|cs| - 1] == RemoveAt(root.children, i);
      cs := cs[..|cs| - 1];
      root := Node.Limiter(root.d.(debt := root.d.debt - MinNat(root.d.debt, taken)), cs);
    }
  }

  lemma MovedMultiset(cs: seq<Node>, i: nat)
    requires i < |cs|
    ensures multiset(RemoveAt(cs, i)) == multiset(cs) - multiset{cs[i]}
  {
    var n := |cs| - 1;
    var moved := cs[i := cs[n]];
    assert moved == RemoveAt(cs, i) + [cs[n]];
    assert multiset(moved) == multiset(RemoveAt(cs, i)) + multiset{cs[n]};
    assert cs == cs[..i] + [cs[i]] + cs[i + 1..];
    assert moved == cs[..i] + [cs[n]] + cs[i + 1..];
  }
}
