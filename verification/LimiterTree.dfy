/**
 * The tree of limiters and leaf buckets, for one direction. Each function is
 * the meaning of one member of `rate_limiter`; the loops of the original are
 * the recursive functions `AddToAll`, `Sweep` and `Rounds`.
 */
module LimiterTree {
  import opened Rates

  datatype Data = Data(
    limit: Rate, merged: Rate, overflow: nat, debt: nat, unused: Rate,
    carry: nat, unsaturated: nat, weight: nat, scratch: seq<nat>)

  datatype Node =
    | Leaf(b: Bucket)
    | Limiter(d: Data, children: seq<Node>)

  /** The tree with everything but its branching forgotten. */
  datatype Shape = Tip | Fork(subs: seq<Shape>)

  function ShapeOf(node: Node): Shape
    decreases node, 1
  {
    match node
    case Leaf(_) => Tip
    case Limiter(_, cs) => Fork(ShapesOf(cs))
  }

  function ShapesOf(cs: seq<Node>): (r: seq<Shape>)
    ensures |r| == |cs|
    ensures forall i | 0 <= i < |cs| :: r[i] == ShapeOf(cs[i])
    decreases cs, 0
  {
    if cs == [] then []
    else ShapesOf(cs[..|cs| - 1]) + [ShapeOf(cs[|cs| - 1])]
  }

  lemma ShapesAfterUpdate(cs: seq<Node>, j: nat, c: Node)
    requires j < |cs| && ShapeOf(c) == ShapeOf(cs[j])
    ensures ShapesOf(cs[j := c]) == ShapesOf(cs)
  {
    assert ShapesOf(cs[j := c]) == ShapesOf(cs);
  }

  /** The number a node counts for when its parent splits tokens. */
  function Weight(node: Node): nat {
    match node
    case Leaf(_) => 1
    case Limiter(d, _) => d.weight
  }

  /** How many shares of overflow a node asks for. */
  function Unsaturated(node: Node): nat {
    match node
    case Leaf(b) => if b.unsaturated then 1 else 0
    case Limiter(d, _) => if d.unused == Finite(0) then 0 else d.unsaturated
  }

  function UnsaturatedSum(cs: seq<Node>, scratch: seq<nat>): nat
    requires InRange(scratch, |cs|)
  {
    if scratch == [] then 0
    else UnsaturatedSum(cs, scratch[..|scratch| - 1]) + Unsaturated(cs[scratch[|scratch| - 1]])
  }

  predicate InRange(scratch: seq<nat>, n: nat) {
    forall k | 0 <= k < |scratch| :: scratch[k] < n
  }

  predicate Distinct(scratch: seq<nat>) {
    forall k, l | 0 <= k < l < |scratch| :: scratch[k] != scratch[l]
  }

  /** The scratch buffer names children that still want tokens, each once. */
  predicate ScratchOk(cs: seq<Node>, scratch: seq<nat>) {
    && InRange(scratch, |cs|)
    && Distinct(scratch)
    && forall k | 0 <= k < |scratch| :: Unsaturated(cs[scratch[k]]) >= 1
  }

  /** Every leaf is consistent. */
  predicate BucketsOk(node: Node) {
    match node
    case Leaf(b) => b.Ok()
    case Limiter(_, cs) => forall i | 0 <= i < |cs| :: BucketsOk(cs[i])
  }

  predicate AllBucketsOk(cs: seq<Node>) {
    forall i | 0 <= i < |cs| :: BucketsOk(cs[i])
  }

  /** The scratch buffers can be followed down the tree: it can take overflow. */
  predicate Ready(node: Node) {
    match node
    case Leaf(b) => b.Ok()
    case Limiter(d, cs) =>
      ScratchOk(cs, d.scratch) && forall k | 0 <= k < |d.scratch| :: Ready(cs[d.scratch[k]])
  }

  predicate AllReady(cs: seq<Node>, scratch: seq<nat>)
    requires InRange(scratch, |cs|)
  {
    forall k | 0 <= k < |scratch| :: Ready(cs[scratch[k]])
  }

  /** Removal by moving the last element into the gap. */
  function RemoveAt<T>(s: seq<T>, i: nat): (r: seq<T>)
    requires i < |s|
    ensures |r| == |s| - 1
  {
    s[i := s[|s| - 1]][..|s| - 1]
  }

  datatype Round = Round(cs: seq<Node>, scratch: seq<nat>, remaining: nat)

  /** `rate_limiter::distribute_overflow` and `bucket::distribute_overflow`. */
  function Distribute(node: Node, overflow: nat): (r: (Node, nat))
    requires Ready(node)
    ensures Ready(r.0) && ShapeOf(r.0) == ShapeOf(node)
    ensures BucketsOk(node) ==> BucketsOk(r.0)
    decreases ShapeOf(node), 2, 0, 0
  {
    match node
    case Leaf(b) =>
      var (b', ret) := BucketDistribute(b, overflow);
      (Leaf(b'), ret)
    case Limiter(d, cs) =>
      Settled(d, overflow, Rounds(cs, d.scratch, d.overflow + Usable(d, overflow)))
  }

  /** The part of external overflow a limiter has capacity for. */
  function Usable(d: Data, overflow: nat): (r: nat)
    ensures r <= overflow
  {
    if d.unused.Unlimited? then overflow else MinNat(overflow, d.unused.n)
  }

  /** The end of `distribute_overflow`: book what remains as internal or external overflow. */
  function Settled(d: Data, overflow: nat, end: Round): (Node, nat)
    requires InRange(end.scratch, |end.cs|)
  {
    var usable := Usable(d, overflow);
    var d1 := d.(unsaturated := UnsaturatedSum(end.cs, end.scratch), scratch := end.scratch);
    if usable > end.remaining then
      var unused := if d.unused.Unlimited? then Unlimited else Finite(d.unused.n - (usable - end.remaining));
      (Limiter(d1.(unused := unused, overflow := 0), end.cs), end.remaining + overflow - usable)
    else
      (Limiter(d1.(overflow := end.remaining - usable), end.cs), overflow)
  }

  /** The outer loop: split what remains evenly until a share would be zero. */
  function Rounds(cs: seq<Node>, scratch: seq<nat>, remaining: nat): (r: Round)
    requires ScratchOk(cs, scratch) && AllReady(cs, scratch)
    ensures ScratchOk(r.cs, r.scratch) && AllReady(r.cs, r.scratch) && ShapesOf(r.cs) == ShapesOf(cs)
    ensures AllBucketsOk(cs) ==> AllBucketsOk(r.cs)
    decreases ShapesOf(cs), 1, |scratch|, remaining
  {
    var u := UnsaturatedSum(cs, scratch);
    var extra := if u != 0 then remaining / u else 0;
    var rest := if u != 0 then remaining % u else remaining;
    var s := Sweep(cs, scratch, 0, extra, rest);
    if extra == 0 then s
    else
      assert rest < remaining by { ShareShrinks(remaining, u); }
      Rounds(s.cs, s.scratch, s.remaining)
  }

  lemma ShareShrinks(remaining: nat, u: nat)
    requires u != 0 && remaining / u != 0
    ensures remaining % u < remaining
  {
    assert remaining == u * (remaining / u) + remaining % u;
    assert u <= u * (remaining / u);
  }

  /** The inner loop: hand one share to every child in the scratch buffer, dropping those that filled up. */
  function Sweep(cs: seq<Node>, scratch: seq<nat>, i: nat, extra: nat, remaining: nat): (r: Round)
    requires ScratchOk(cs, scratch) && AllReady(cs, scratch) && i <= |scratch|
    ensures ScratchOk(r.cs, r.scratch) && AllReady(r.cs, r.scratch) && ShapesOf(r.cs) == ShapesOf(cs)
    ensures |r.scratch| <= |scratch|
    ensures |r.scratch| == |scratch| ==> r.remaining == remaining
    ensures AllBucketsOk(cs) ==> AllBucketsOk(r.cs)
    decreases ShapesOf(cs), 0, |scratch| - i, 1
  {
    if i == |scratch| then Round(cs, scratch, remaining)
    else
      var (v, next) := Visit(cs, scratch, i, extra, remaining);
      Sweep(v.cs, v.scratch, next, extra, v.remaining)
  }

  /** One step of the inner loop, with the index to go on from. */
  function Visit(cs: seq<Node>, scratch: seq<nat>, i: nat, extra: nat, remaining: nat): (r: (Round, nat))
    requires ScratchOk(cs, scratch) && AllReady(cs, scratch) && i < |scratch|
    ensures ScratchOk(r.0.cs, r.0.scratch) && AllReady(r.0.cs, r.0.scratch) && ShapesOf(r.0.cs) == ShapesOf(cs)
    ensures r.1 <= |r.0.scratch| && |r.0.scratch| - r.1 == |scratch| - i - 1
    ensures |r.0.scratch| <= |scratch|
    ensures |r.0.scratch| == |scratch| ==> r.0.remaining == remaining
    ensures AllBucketsOk(cs) ==> AllBucketsOk(r.0.cs)
    decreases ShapesOf(cs), 0, |scratch| - i, 0
  {
    var j := scratch[i];
    var (c, sub) := Distribute(cs[j], extra);
    ShapesAfterUpdate(cs, j, c);
    if sub != 0 || Unsaturated(c) == 0 then
      DropVisited(cs, scratch, i, c);
      (Round(cs[j := c], RemoveAt(scratch, i), remaining + sub), i)
    else
      KeepVisited(cs, scratch, j, c);
      (Round(cs[j := c], scratch, remaining), i + 1)
  }

  lemma KeepVisited(cs: seq<Node>, scratch: seq<nat>, j: nat, c: Node)
    requires ScratchOk(cs, scratch) && AllReady(cs, scratch) && j < |cs| && Ready(c) && Unsaturated(c) >= 1
    ensures ScratchOk(cs[j := c], scratch) && AllReady(cs[j := c], scratch)
  {
    hide Ready, Unsaturated;
  }

  lemma DropVisited(cs: seq<Node>, scratch: seq<nat>, i: nat, c: Node)
    requires ScratchOk(cs, scratch) && AllReady(cs, scratch) && i < |scratch|
    ensures var scratch' := RemoveAt(scratch, i);
            ScratchOk(cs[scratch[i] := c], scratch') && AllReady(cs[scratch[i] := c], scratch')
  {
    hide Ready, Unsaturated;
    var scratch', last := RemoveAt(scratch, i), |scratch| - 1;
    forall k | 0 <= k < |scratch'| ensures scratch'[k] != scratch[i] && scratch'[k] in scratch {
      assert scratch'[k] == if k == i then scratch[last] else scratch[k];
    }
  }

  /** `rate_limiter::pay_debt`. */
  function PayDebt(d: Data): (r: Data)
    ensures d.merged.Finite? ==> r.merged.Finite? && r.merged.n <= d.merged.n && r.debt <= d.debt
    ensures d.merged.Unlimited? ==> r.merged.Unlimited?
    ensures r == d.(merged := r.merged, debt := r.debt)
  {
    if d.merged.Unlimited? then d.(debt := 0)
    else
      var weight := if d.weight == 0 then 1 else d.weight;
      var reduction := MinNat(d.merged.n, d.debt / weight);
      assert reduction * weight <= d.debt by { DivTimes(d.debt, weight); ScaleMono(reduction, d.debt / weight, weight); }
      d.(merged := Finite(d.merged.n - reduction), debt := d.debt - reduction * weight)
  }

  lemma DivTimes(a: nat, w: nat)
    requires w > 0
    ensures (a / w) * w <= a
    ensures (a / w) * w + a % w == a
  {
  }

  lemma ScaleMono(a: nat, b: nat, w: nat)
    requires a <= b
    ensures a * w <= b * w
  {
  }

  /** The limit and carry part of `rate_limiter::add_tokens`: the merged limit and the updated data. */
  function MergeLimit(d: Data, limit: Rate): (r: (Rate, Data))
    requires d.weight > 0
    ensures limit.Finite? ==> r.0.Finite? && r.0.n <= limit.n
    ensures d.limit.Finite? ==> r.0.Finite?
    ensures limit.Unlimited? && d.limit.Unlimited? ==> r.0.Unlimited?
    ensures r.1 == d.(carry := r.1.carry)
  {
    if d.limit.Unlimited? then (limit, d)
    else
      var mine := (d.carry + d.limit.n) / d.weight;
      var merged := limit.Min(Finite(mine));
      (merged, d.(carry := (d.carry + d.limit.n) % d.weight + merged.n % FREQUENCY * d.weight))
  }

  /** The capacity of a limiter its own share leaves unused. */
  function UnusedCapacity(d: Data): Rate
    requires d.limit.Finite? ==> d.merged.Finite?
  {
    if d.limit.Unlimited? then Unlimited
    else if d.merged.n * d.weight * FREQUENCY < d.limit.n
    then Finite((d.limit.n - d.merged.n * d.weight * FREQUENCY) / FREQUENCY)
    else Finite(0)
  }

  /** A limiter's data once limit, carry, debt and capacity are settled, before its children are served. */
  function Settle(d: Data, tokens: Rate, limit: Rate): (r: (Rate, Data))
    requires d.weight > 0 && Paired(tokens, limit)
    ensures Paired(r.1.merged, r.0)
    ensures tokens.Finite? ==> r.1.merged.Finite? && r.1.merged.n <= tokens.n
    ensures r.1.scratch == [] && r.1.overflow == 0 && r.1.weight == d.weight && r.1.limit == d.limit
    ensures d.limit.Finite? ==> r.0.Finite?
  {
    var (mergedLimit, d1) := MergeLimit(d.(scratch := [], overflow := 0), limit);
    var fifth := if mergedLimit.Finite? then Finite(mergedLimit.n / FREQUENCY) else Unlimited;
    var d2 := PayDebt(d1.(merged := fifth.Min(tokens)));
    (mergedLimit, d2.(unused := UnusedCapacity(d2)))
  }

  /** A limiter's children after they were served, their summed overflow, and the indices of those wanting more. */
  datatype Served = Served(cs: seq<Node>, overflow: nat, scratch: seq<nat>)

  /** The end of `rate_limiter::add_tokens`: the limiter with its served children. */
  function Serve(d: Data, s: Served): Node {
    var unused :=
      if d.unused.Unlimited? then Unlimited
      else if s.overflow >= d.unused.n then Finite(0)
      else Finite(d.unused.n - s.overflow);
    Limiter(d.(overflow := s.overflow, unused := unused, scratch := s.scratch), s.cs)
  }

  /** What a limiter returns to its parent: the tokens it did not pass on, for all its leaves. */
  function Refund(tokens: Rate, d: Data): nat
    requires tokens.Finite? ==> d.merged.Finite? && d.merged.n <= tokens.n
  {
    if tokens.Unlimited? then 0 else (tokens.n - d.merged.n) * d.weight
  }

  /** `rate_limiter::add_tokens` and `bucket::add_tokens`. */
  function AddTokens(node: Node, tokens: Rate, limit: Rate, burst: nat): (r: (Node, nat))
    requires BucketsOk(node) && Paired(tokens, limit) && burst >= 1
    ensures Ready(r.0) && ShapeOf(r.0) == ShapeOf(node) && BucketsOk(r.0)
    decreases node, 1
  {
    match node
    case Leaf(b) =>
      var (b', ret) := BucketAdd(b, tokens, limit, burst);
      (Leaf(b'), ret)
    case Limiter(d, cs) =>
      if d.weight == 0 then
        (Limiter(PayDebt(d.(scratch := [], overflow := 0, merged := d.limit.Min(tokens))), cs), tokens.Or(0))
      else
        var (mergedLimit, d1) := Settle(d, tokens, limit);
        var s := AddToAll(cs, d1.merged, mergedLimit, burst);
        (Serve(d1, s), Refund(tokens, d1))
  }

  /** The loop over the children in `rate_limiter::add_tokens`. */
  function AddToAll(cs: seq<Node>, tokens: Rate, limit: Rate, burst: nat): (r: Served)
    requires AllBucketsOk(cs) && Paired(tokens, limit) && burst >= 1
    ensures ShapesOf(r.cs) == ShapesOf(cs) && AllBucketsOk(r.cs)
    ensures ScratchOk(r.cs, r.scratch) && AllReady(r.cs, r.scratch)
    decreases cs, 0
  {
    if cs == [] then Served([], 0, [])
    else
      var n := |cs| - 1;
      var s := AddToAll(cs[..n], tokens, limit, burst);
      AppendChild(s, AddTokens(cs[n], tokens, limit, burst))
  }

  /** One step of that loop: a child that wants more is noted, any other spreads its own overflow at once. */
  function AppendChild(s: Served, served: (Node, nat)): (r: Served)
    requires Ready(served.0) && ScratchOk(s.cs, s.scratch) && AllReady(s.cs, s.scratch)
    ensures ScratchOk(r.cs, r.scratch) && AllReady(r.cs, r.scratch)
    ensures ShapesOf(r.cs) == ShapesOf(s.cs) + [ShapeOf(served.0)]
    ensures AllBucketsOk(s.cs) && BucketsOk(served.0) ==> AllBucketsOk(r.cs)
  {
    var (c, overflow) := served;
    if Unsaturated(c) != 0 then
      Served(s.cs + [c], s.overflow + overflow, s.scratch + [|s.cs|])
    else
      var (c', more) := Distribute(c, 0);
      Served(s.cs + [c'], s.overflow + overflow + more, s.scratch)
  }
}
