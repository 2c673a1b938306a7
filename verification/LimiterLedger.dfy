/**
 * The rate a root limiter really grants over time: a ledger over any run of
 * ticks, joins, leaves and consumption.
 */
module LimiterLedger {
  import opened Rates
  import opened LimiterTree
  import opened LimiterBudget
  import opened LimiterCap

  // ----- Joining and leaving

  /** A leaf is reset by `remove_bucket` before it joins; a limiter keeps its tree. */
  function Detached(child: Node): (r: Node)
    requires BucketsOk(child)
    ensures BucketsOk(r) && ShapeOf(r) == ShapeOf(child)
  {
    if child.Leaf? then Leaf(FreshBucket) else child
  }

  /** Half a share for each of `weight` leaves. */
  function Half(tokens: nat, weight: nat): nat
    requires weight > 0
  {
    tokens / (weight + weight)
  }

  /** The share a joining child gets in advance, per leaf. */
  function Advance(d: Data, weight: nat): Rate
    requires weight > 0
  {
    if d.merged.Unlimited? then Unlimited else Finite(Half(d.merged.n, weight))
  }

  function JoinWeight(child: Node): (w: nat)
    requires BucketsOk(child)
    ensures w > 0
  {
    var w := Weight(UpdateStats(Detached(child)));
    if w == 0 then 1 else w
  }

  function Admitted(child: Node, tokens: Rate, burst: nat): (r: Node)
    requires BucketsOk(child) && burst >= 1
    ensures ShapeOf(r) == ShapeOf(child) && BucketsOk(r)
  {
    Distribute(AddTokens(UpdateStats(Detached(child)), tokens, tokens, burst).0, 0).0
  }

  /** `rate_limiter::add`. */
  function Join(root: Node, child: Node, burst: nat): (r: Node)
    requires root.Limiter? && BucketsOk(child) && burst >= 1
    ensures r.Limiter?
  {
    var w := JoinWeight(child);
    var tokens := Advance(root.d, w);
    var debt := root.d.debt + tokens.Or(0) * w;
    Limiter(root.d.(weight := root.d.weight + w, debt := debt), root.children + [Admitted(child, tokens, burst)])
  }

  /** `gather_unspent_for_removal`. */
  function Gather(node: Node): (r: (Node, nat))
    decreases node, 1
  {
    match node
    case Leaf(b) =>
      if b.available.Unlimited? then (node, 0) else (Leaf(b.(available := Finite(0))), b.available.n)
    case Limiter(d, cs) =>
      var (cs', sum) := GatherAll(cs);
      var reduction := MinNat(sum, d.debt);
      (Limiter(d.(debt := d.debt - reduction), cs'), sum - reduction)
  }

  function GatherAll(cs: seq<Node>): (r: (seq<Node>, nat))
    decreases cs, 0
  {
    if cs == [] then ([], 0)
    else
      var (front, sum) := GatherAll(cs[..|cs| - 1]);
      var (c, unspent) := Gather(cs[|cs| - 1]);
      (front + [c], sum + unspent)
  }

  /** `bucket_base::remove_bucket`: the parent afterwards and the unspent tokens it was given back. */
  function Leave(root: Node, i: nat): (r: (Node, nat))
    requires root.Limiter? && i < |root.children|
    ensures r.0.Limiter?
  {
    var unspent := Gather(root.children[i]).1;
    (Limiter(root.d.(debt := root.d.debt - MinNat(root.d.debt, unspent)), RemoveAt(root.children, i)), unspent)
  }

  // ----- Balances

  /** The tokens the leaves hold. */
  function Balance(node: Node): nat
    decreases node, 1
  {
    match node
    case Leaf(b) => b.available.Or(0)
    case Limiter(_, cs) => BalanceAll(cs)
  }

  function BalanceAll(cs: seq<Node>): nat
    decreases cs, 0
  {
    if cs == [] then 0 else BalanceAll(cs[..|cs| - 1]) + Balance(cs[|cs| - 1])
  }

  lemma {:induction false} BalanceGrowth(base: Node, node: Node)
    requires ShapeOf(base) == ShapeOf(node)
    ensures Balance(node) <= Balance(base) + GainOf(base, node)
    decreases node, 1
  {
    match node
    case Leaf(_) =>
    case Limiter(_, cs) => BalanceGrowthAll(base.children, cs);
  }

  lemma {:induction false} BalanceGrowthAll(bases: seq<Node>, cs: seq<Node>)
    requires ShapesOf(bases) == ShapesOf(cs)
    ensures BalanceAll(cs) <= BalanceAll(bases) + GainOfAll(bases, cs)
    decreases cs, 0
  {
    if cs != [] {
      var n := |cs| - 1;
      BalanceGrowthAll(bases[..n], cs[..n]);
      BalanceGrowth(bases[n], cs[n]);
    }
  }

  lemma {:induction false} BalanceUpdate(cs: seq<Node>, i: nat, c: Node)
    requires i < |cs|
    ensures BalanceAll(cs[i := c]) + Balance(cs[i]) == BalanceAll(cs) + Balance(c)
  {
    var n := |cs| - 1;
    if i == n {
      assert cs[i := c][..n] == cs[..n];
    } else {
      assert cs[i := c][..n] == cs[..n][i := c];
      BalanceUpdate(cs[..n], i, c);
    }
  }

  lemma BalanceSplit(cs: seq<Node>)
    requires cs != []
    ensures BalanceAll(cs) == BalanceAll(cs[..|cs| - 1]) + Balance(cs[|cs| - 1])
  {
  }

  lemma BalanceWithout(cs: seq<Node>, i: nat)
    requires i < |cs|
    ensures BalanceAll(RemoveAt(cs, i)) + Balance(cs[i]) == BalanceAll(cs)
  {
    var last := cs[|cs| - 1];
    var moved := cs[i := last];
    BalanceUpdate(cs, i, last);
    BalanceSplit(moved);
    hide Balance, BalanceAll;
  }

  lemma {:induction false} GatherWithinBalance(node: Node)
    ensures Gather(node).1 <= Balance(node)
    decreases node, 1
  {
    match node
    case Leaf(_) =>
    case Limiter(_, cs) => GatherAllWithinBalance(cs);
  }

  lemma {:induction false} GatherAllWithinBalance(cs: seq<Node>)
    ensures GatherAll(cs).1 <= BalanceAll(cs)
    decreases cs, 0
  {
    if cs != [] {
      GatherAllWithinBalance(cs[..|cs| - 1]);
      GatherWithinBalance(cs[|cs| - 1]);
    }
  }

  /** Consumers lowered balances and changed their waiting flags, nothing else. */
  predicate Spent(before: Node, after: Node)
    decreases before
  {
    match before
    case Leaf(b) =>
      && after.Leaf?
      && after.b == b.(available := after.b.available, waiting := after.b.waiting)
      && if b.available.Unlimited? then after.b.available.Unlimited?
         else after.b.available.Finite? && after.b.available.n <= b.available.n
    case Limiter(d, cs) =>
      && after.Limiter? && after.d == d && |after.children| == |cs|
      && forall i | 0 <= i < |cs| :: Spent(cs[i], after.children[i])
  }

  lemma {:induction false} SpentKeeps(before: Node, after: Node)
    requires Spent(before, after)
    ensures Balance(after) <= Balance(before)
    ensures BucketsOk(before) ==> BucketsOk(after)
    decreases before, 1
  {
    match before
    case Leaf(_) =>
    case Limiter(_, cs) => SpentKeepsAll(cs, after.children);
  }

  lemma {:induction false} SpentKeepsAll(cs: seq<Node>, after: seq<Node>)
    requires |after| == |cs| && forall i | 0 <= i < |cs| :: Spent(cs[i], after[i])
    ensures BalanceAll(after) <= BalanceAll(cs)
    ensures AllBucketsOk(cs) ==> AllBucketsOk(after)
    decreases cs, 0
  {
    if cs != [] {
      var n := |cs| - 1;
      SpentKeepsAll(cs[..n], after[..n]);
      SpentKeeps(cs[n], after[n]);
    }
  }

  // ----- Runs

  datatype Event =
    | Tick(burst: nat)
    | Joining(child: Node, tolerance: nat)
    | Leaving(index: nat)
    | Using(after: Node)

  /** A root limiter with what its leaves were granted, gave back, brought along and consumed so far. */
  datatype Account = Account(root: Node, granted: nat, returned: nat, brought: nat, consumed: nat)

  predicate Valid(a: Account, limit: nat) {
    && a.root.Limiter? && a.root.d.limit == Finite(limit) && a.root.d.merged.Finite?
    && BucketsOk(a.root)
  }

  /** What may happen to a root limiter; a tick needs at least one bucket, and no childless sub-limiter. */
  predicate Step(a: Account, e: Event, a': Account) {
    && a.root.Limiter? && BucketsOk(a.root)
    && match e
    case Tick(burst) =>
      && burst >= 1 && SubsPopulated(a.root) && a.root.children != []
      && a' == a.(root := Process(a.root, burst), granted := a.granted + GainOf(a.root, Process(a.root, burst)))
    case Joining(child, burst) =>
      && burst >= 1 && BucketsOk(child) && Populated(ShapeOf(child))
      && a' == a.(root := Join(a.root, child, burst), granted := a.granted + JoinGain(a.root, child, burst),
                  brought := a.brought + Balance(Detached(child)))
    case Leaving(i) =>
      && i < |a.root.children|
      && a' == a.(root := Leave(a.root, i).0, returned := a.returned + Leave(a.root, i).1)
    case Using(after) =>
      && Spent(a.root, after) && Balance(after) <= Balance(a.root)
      && a' == a.(root := after, consumed := a.consumed + Balance(a.root) - Balance(after))
  }

  function JoinGain(root: Node, child: Node, burst: nat): nat
    requires root.Limiter? && BucketsOk(child) && burst >= 1
  {
    GainOf(Detached(child), Admitted(child, Advance(root.d, JoinWeight(child)), burst))
  }

  /** Five times what was granted and neither given back nor owed, and the carry. */
  function Potential(a: Account): int
    requires a.root.Limiter?
  {
    FREQUENCY * (a.granted - a.returned - a.root.d.debt) + a.root.d.carry
  }

  // ----- One tick of the root

  lemma RootSettle(d: Data)
    requires d.weight > 0 && d.limit.Finite?
    ensures var d1 := Settle(d, Unlimited, Unlimited).1;
            && d1.merged.Finite? && d1.debt <= d.debt
            && FREQUENCY * (d1.merged.n * d.weight + (d.debt - d1.debt)) + d1.carry == d.limit.n + d.carry
            && d1.carry < FREQUENCY * d.weight
  {
    var total, w := d.carry + d.limit.n, d.weight;
    var mine := total / w;
    var fifth := mine / FREQUENCY;
    var d1 := Settle(d, Unlimited, Unlimited).1;
    var reduction := MinNat(fifth, d.debt / w);
    assert d1.merged.n == fifth - reduction && d.debt - d1.debt == reduction * w;
    assert d1.carry == total % w + mine % FREQUENCY * w;
    hide *;
    SplitProduct(reduction, fifth, w);
    SplitTotal(total, w);
  }

  lemma SplitTotal(total: nat, w: nat)
    requires w > 0
    ensures var mine := total / w;
            && FREQUENCY * (mine / FREQUENCY * w) + (total % w + mine % FREQUENCY * w) == total
            && total % w + mine % FREQUENCY * w < FREQUENCY * w
  {
    DivTimes(total, w);
    SplitMine(total / w, w);
  }

  lemma SplitMine(mine: nat, w: nat)
    ensures FREQUENCY * (mine / FREQUENCY * w) + mine % FREQUENCY * w == mine * w
    ensures mine % FREQUENCY * w + w <= FREQUENCY * w
  {
    var fifth, rest := mine / FREQUENCY, mine % FREQUENCY;
    assert mine == FREQUENCY * fifth + rest;
    assert (FREQUENCY * fifth + rest) * w == FREQUENCY * (fifth * w) + rest * w;
    ScaleMono(rest + 1, FREQUENCY, w);
  }

  lemma ServedRoot(node: Node, burst: nat)
    requires node.Limiter? && BucketsOk(node) && node.d.limit.Finite? && burst >= 1 && Weighted(node)
    ensures var d1 := Settle(node.d, Unlimited, Unlimited).1;
            var served := AddTokens(node, Unlimited, Unlimited, burst).0;
            && served.Limiter? && d1.merged.Finite?
            && served.d == d1.(overflow := served.d.overflow, unused := served.d.unused, scratch := served.d.scratch)
            && Claim(node, served) <= d1.merged.n * node.d.weight
  {
    var (mergedLimit, d1) := Settle(node.d, Unlimited, Unlimited);
    AddAllBudget(node.children, d1.merged, mergedLimit, burst);
    AllottedByWeight(d1.merged.n, node.children);
    hide AddToAll, ClaimAll, WeightSum, AllCapped, Settle;
  }

  lemma DistributeKeepsData(node: Node, overflow: nat)
    requires Ready(node) && node.Limiter?
    ensures var r := Distribute(node, overflow).0;
            && r.Limiter?
            && r.d.(overflow := 0, unused := Unlimited, unsaturated := 0, scratch := [])
            == node.d.(overflow := 0, unused := Unlimited, unsaturated := 0, scratch := [])
  {
    hide Rounds, UnsaturatedSum;
  }

  lemma TickRoot(root: Node, burst: nat)
    requires root.Limiter? && BucketsOk(root) && root.d.limit.Finite? && burst >= 1
    requires SubsPopulated(root) && root.children != []
    ensures var r := Process(root, burst);
            && r.Limiter? && r.d.limit == root.d.limit && r.d.merged.Finite? && r.d.debt <= root.d.debt
            && r.d.weight == LeafCount(ShapeOf(root))
            && r.d.carry < FREQUENCY * r.d.weight
            && FREQUENCY * (GainOf(root, r) + (root.d.debt - r.d.debt)) + r.d.carry <= root.d.limit.n + root.d.carry
  {
    hide AddTokens, Distribute, Weighted, GainOf, Claim, Settle;
    PopulatedUnlessEmpty(root);
    var base := UpdateStats(root);
    StatsWeighted(root);
    StatsCountLeaves(root);
    assert base.d.weight > 0 by { WeightedRoot(base); }
    RootSettle(base.d);
    ServedRoot(base, burst);
    var served := AddTokens(base, Unlimited, Unlimited, burst).0;
    var r := Process(root, burst);
    DistributeKeepsData(served, 0);
    DistributeClaim(base, served, 0);
    GainWithinClaim(base, r);
    StatsKeepGain(root, r);
  }

  lemma WeightedRoot(node: Node)
    requires Weighted(node) && node.Limiter?
    ensures node.d.weight > 0
  {
  }

  // ----- Joining the root

  lemma {:induction false} FreshGain(child: Node, node: Node)
    requires BucketsOk(child) && ShapeOf(child) == ShapeOf(node)
    ensures GainOf(UpdateStats(Detached(child)), node) == GainOf(Detached(child), node)
  {
    StatsKeepGain(Detached(child), node);
  }

  lemma JoinRoot(root: Node, child: Node, burst: nat)
    requires root.Limiter? && root.d.merged.Finite? && BucketsOk(child) && Populated(ShapeOf(child)) && burst >= 1
    ensures JoinGain(root, child, burst) + root.d.debt <= Join(root, child, burst).d.debt
  {
    hide AddTokens, Distribute, GainOf, Claim, Capped, Weighted, UpdateStats;
    var w := JoinWeight(child);
    var tokens := Advance(root.d, w);
    var base := UpdateStats(Detached(child));
    StatsWeighted(Detached(child));
    StatsCountLeaves(Detached(child));
    assert Weight(base) == w;
    AddBudget(base, tokens, tokens, burst);
    var served := AddTokens(base, tokens, tokens, burst).0;
    var r := Admitted(child, tokens, burst);
    DistributeClaim(base, served, 0);
    GainWithinClaim(base, r);
    FreshGain(child, r);
  }

  // ----- The ledger

  lemma PushBalance(front: seq<Node>, c: Node)
    ensures BalanceAll(front + [c]) == BalanceAll(front) + Balance(c)
  {
    assert (front + [c])[..|front|] == front;
  }

  /** One step moves the potential by at most one tick's limit, keeps the account valid and the balance explained. */
  lemma StepLedger(a: Account, e: Event, a': Account, limit: nat)
    requires Valid(a, limit) && Step(a, e, a')
    ensures Valid(a', limit)
    ensures Potential(a') <= Potential(a) + (if e.Tick? then limit else 0)
    ensures e.Tick? ==> a'.root.d.carry < FREQUENCY * a'.root.d.weight
    ensures Explained(a, a')
  {
    match e
    case Tick(burst) => TickLedger(a, burst, a', limit);
    case Joining(child, burst) => JoinLedger(a, child, burst, a', limit);
    case Leaving(i) => LeaveLedger(a, i, a', limit);
    case Using(after) => SpentKeeps(a.root, after);
  }

  /** What the leaves hold, consumed and gave back came from what they were granted and brought along. */
  predicate Explained(a: Account, a': Account) {
    a'.consumed + Balance(a'.root) + a'.returned + a.granted + a.brought
    <= a.consumed + Balance(a.root) + a.returned + a'.granted + a'.brought
  }

  lemma TickLedger(a: Account, burst: nat, a': Account, limit: nat)
    requires Valid(a, limit) && Step(a, Tick(burst), a')
    ensures Valid(a', limit) && Potential(a') <= Potential(a) + limit
    ensures a'.root.d.carry < FREQUENCY * a'.root.d.weight
    ensures Explained(a, a')
  {
    hide Process, GainOf, Balance, BucketsOk;
    TickRoot(a.root, burst);
    NestedCap(a.root, burst);
    BalanceGrowth(a.root, a'.root);
  }

  lemma JoinLedger(a: Account, child: Node, burst: nat, a': Account, limit: nat)
    requires Valid(a, limit) && Step(a, Joining(child, burst), a')
    ensures Valid(a', limit) && Potential(a') <= Potential(a)
    ensures Explained(a, a')
  {
    hide Admitted, GainOf, BalanceAll;
    var joined := Admitted(child, Advance(a.root.d, JoinWeight(child)), burst);
    JoinRoot(a.root, child, burst);
    PushBalance(a.root.children, joined);
    BalanceGrowth(Detached(child), joined);
  }

  lemma LeaveLedger(a: Account, i: nat, a': Account, limit: nat)
    requires Valid(a, limit) && Step(a, Leaving(i), a')
    ensures Valid(a', limit) && Potential(a') <= Potential(a)
    ensures Explained(a, a')
  {
    hide Gather, BalanceAll;
    GatherWithinBalance(a.root.children[i]);
    BalanceWithout(a.root.children, i);
  }

  /** A run: accounts joined by steps. */
  predicate IsRun(accounts: seq<Account>, events: seq<Event>, limit: nat) {
    && |accounts| == |events| + 1
    && Valid(accounts[0], limit)
    && forall k | 0 <= k < |events| :: Step(accounts[k], events[k], accounts[k + 1])
  }

  function Ticks(events: seq<Event>): nat {
    if events == [] then 0 else Ticks(events[..|events| - 1]) + if events[|events| - 1].Tick? then 1 else 0
  }

  lemma OneMore(ticks: nat, limit: nat)
    ensures (ticks + 1) * limit == ticks * limit + limit
  {
  }

  /**
   * The rate ledger. Over any run, five times what the leaves were granted and
   * neither gave back nor owe is at most one limit per tick and the first carry;
   * what they consumed and still hold is covered by what they were granted; and
   * after every tick the carry is less than five octets for each leaf.
   */
  lemma {:induction false} RateLedger(accounts: seq<Account>, events: seq<Event>, limit: nat)
    requires IsRun(accounts, events, limit)
    ensures var a, z := accounts[0], accounts[|events|];
            && Valid(z, limit)
            && Potential(z) <= Potential(a) + Ticks(events) * limit
            && Explained(a, z)
    ensures forall k | 0 <= k < |events| && events[k].Tick? ::
              accounts[k + 1].root.Limiter? && accounts[k + 1].root.d.carry < FREQUENCY * accounts[k + 1].root.d.weight
  {
    hide Step, Balance, BucketsOk;
    if events != [] {
      var n := |events| - 1;
      assert IsRun(accounts[..n + 1], events[..n], limit);
      RateLedger(accounts[..n + 1], events[..n], limit);
      StepLedger(accounts[n], events[n], accounts[n + 1], limit);
      OneMore(Ticks(events[..n]), limit);
    }
  }

  /**
   * The promise of a rate limit: starting from nothing granted, the octets
   * consumed in N ticks are at most N fifths of the limit, beyond the carry,
   * the tokens the leaves started with or brought along, and the debt still
   * to be paid back.
   */
  lemma ConsumptionBound(accounts: seq<Account>, events: seq<Event>, limit: nat)
    requires IsRun(accounts, events, limit)
    requires accounts[0] == Account(accounts[0].root, 0, 0, 0, 0) && accounts[0].root.d.debt == 0
    ensures var a, z := accounts[0], accounts[|events|];
            && z.root.Limiter?
            && FREQUENCY * (z.consumed + Balance(z.root))
            <= Ticks(events) * limit + a.root.d.carry
               + FREQUENCY * (Balance(a.root) + z.brought + z.root.d.debt)
  {
    RateLedger(accounts, events, limit);
  }
}
