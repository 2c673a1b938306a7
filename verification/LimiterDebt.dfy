/** Debts are paid back: over any run without joins the debt of a root falls below the number of its leaves. */
module LimiterDebt {
  import opened Rates
  import opened LimiterTree
  import opened LimiterCap
  import opened LimiterFair
  import opened LimiterLedger

  /** A tick with at least a token for each leaf pays at least one for each, unless there is less left to pay. */
  lemma TickDebt(root: Node, burst: nat)
    requires root.Limiter? && BucketsOk(root) && root.d.limit.Finite? && burst >= 1
    requires LeafCount(ShapeOf(root)) > 0 && root.d.limit.n >= FREQUENCY * LeafCount(ShapeOf(root))
    ensures var r := Process(root, burst);
            var n := LeafCount(ShapeOf(root));
            && r.Limiter? && r.d.limit == root.d.limit && r.d.debt <= root.d.debt
            && (r.d.debt < n || r.d.debt + n <= root.d.debt)
  {
    StatsCountLeaves(root);
    FairShare(root, burst);
    var base, r := UpdateStats(root), Process(root, burst);
    assert base.d.weight == LeafCount(ShapeOf(root)) && base.d.debt == root.d.debt;
    assert Granting(base.d, r.d, Unlimited, Unlimited);
    hide UpdateStats, Process, Fair, LeafCount, ShapeOf, BucketsOk;
    GrantPays(base.d, r.d);
  }

  lemma GrantPays(base: Data, d: Data)
    requires Granting(base, d, Unlimited, Unlimited) && base.weight > 0
    requires base.limit.Finite? && base.limit.n >= FREQUENCY * base.weight
    ensures d.debt <= base.debt && (d.debt < base.weight || d.debt + base.weight <= base.debt)
  {
    var share: nat :| Granted(share, base, d, Unlimited, Unlimited);
    assert 1 * base.weight == base.weight;
    assert Affordable(1, base, Unlimited, Unlimited);
    if d.debt >= base.weight {
      assert d.merged == Finite(0);
      ScaleMono(1, share, base.weight);
    }
  }

  /** No step but joining adds to the debt, or to the leaves. */
  lemma StepDebt(a: Account, e: Event, a': Account, limit: nat)
    requires Valid(a, limit) && Step(a, e, a') && !e.Joining?
    requires limit >= FREQUENCY * LeafCount(ShapeOf(a.root))
    ensures a'.root.Limiter? && a'.root.d.debt <= a.root.d.debt && LeafCount(ShapeOf(a'.root)) <= LeafCount(ShapeOf(a.root))
    ensures e.Tick? ==> a'.root.d.debt < LeafCount(ShapeOf(a.root)) || a'.root.d.debt + 1 <= a.root.d.debt
  {
    match e
    case Tick(burst) =>
      PopulatedUnlessEmpty(a.root);
      assert LeafCount(ShapeOf(a.root)) > 0;
      hide Process, LeafCount, ShapeOf, BucketsOk, SubsPopulated;
      TickDebt(a.root, burst);
    case Leaving(i) =>
      LeaveLeaves(a.root.children, i);
      hide Gather;
    case Using(after) =>
      SpentShape(a.root, after);
  }

  lemma {:induction false} SpentShape(before: Node, after: Node)
    requires Spent(before, after)
    ensures ShapeOf(after) == ShapeOf(before)
    decreases before
  {
    match before
    case Leaf(_) =>
    case Limiter(_, cs) =>
      forall i | 0 <= i < |cs| ensures ShapeOf(after.children[i]) == ShapeOf(cs[i]) {
        SpentShape(cs[i], after.children[i]);
      }
      assert ShapesOf(after.children) == ShapesOf(cs);
  }

  lemma LeaveLeaves(cs: seq<Node>, i: nat)
    requires i < |cs|
    ensures LeafCounts(ShapesOf(RemoveAt(cs, i))) <= LeafCounts(ShapesOf(cs))
  {
    ShapesWithout(cs, i);
    hide *;
    CountsWithout(ShapesOf(cs), i);
  }

  lemma ShapesWithout(cs: seq<Node>, i: nat)
    requires i < |cs|
    ensures |ShapesOf(cs)| == |cs| && ShapesOf(RemoveAt(cs, i)) == RemoveAt(ShapesOf(cs), i)
  {
    hide ShapeOf;
  }

  lemma CountsWithout(shapes: seq<Shape>, i: nat)
    requires i < |shapes|
    ensures LeafCounts(RemoveAt(shapes, i)) <= LeafCounts(shapes)
  {
    hide LeafCount, LeafCounts;
    var last := shapes[|shapes| - 1];
    CountsUpdate(shapes, i, last);
    CountsSplit(shapes[i := last]);
  }

  lemma CountsSplit(shapes: seq<Shape>)
    requires shapes != []
    ensures LeafCounts(shapes) == LeafCounts(shapes[..|shapes| - 1]) + LeafCount(shapes[|shapes| - 1])
  {
  }

  lemma {:induction false} CountsUpdate(shapes: seq<Shape>, i: nat, s: Shape)
    requires i < |shapes|
    ensures LeafCounts(shapes[i := s]) + LeafCount(shapes[i]) == LeafCounts(shapes) + LeafCount(s)
  {
    var n := |shapes| - 1;
    if i == n {
      assert shapes[i := s][..n] == shapes[..n];
    } else {
      assert shapes[i := s][..n] == shapes[..n][i := s];
      CountsUpdate(shapes[..n], i, s);
    }
  }

  // ----- Joining and leaving

  /** A child that joins is advanced half of what a tick granted, split among its leaves, and served fairly with it. */
  lemma JoinAdvances(root: Node, child: Node, burst: nat)
    requires root.Limiter? && root.d.merged.Finite? && BucketsOk(child) && burst >= 1
    ensures var w := JoinWeight(child);
            var (t, r) := (Advance(root.d, w), Join(root, child, burst));
            && t.Finite? && 2 * (t.n * w) <= root.d.merged.n < 2 * ((t.n + 1) * w)
            && r.d.debt == root.d.debt + t.n * w && r.d.weight == root.d.weight + w
            && |r.children| == |root.children| + 1 && r.children[..|root.children|] == root.children
            && ShapeOf(r.children[|root.children|]) == ShapeOf(child)
            && Fair(UpdateStats(Detached(child)), r.children[|root.children|], t, t)
  {
    hide *;
    JoinedTo(root, child, burst);
    HalfExactly(root.d.merged.n, JoinWeight(child));
    AdmittedFairly(child, Advance(root.d, JoinWeight(child)), burst);
  }

  lemma JoinedTo(root: Node, child: Node, burst: nat)
    requires root.Limiter? && root.d.merged.Finite? && BucketsOk(child) && burst >= 1
    ensures var w := JoinWeight(child);
            var (t, r) := (Advance(root.d, w), Join(root, child, burst));
            && t.Finite? && t.n == Half(root.d.merged.n, w)
            && r.d.debt == root.d.debt + t.n * w && r.d.weight == root.d.weight + w
            && |r.children| == |root.children| + 1 && r.children[..|root.children|] == root.children
            && r.children[|root.children|] == Admitted(child, t, burst)
  {
    hide Admitted, JoinWeight, Half, ShapeOf, BucketsOk;
  }

  lemma AdmittedFairly(child: Node, t: Rate, burst: nat)
    requires BucketsOk(child) && burst >= 1
    ensures Fair(UpdateStats(Detached(child)), Admitted(child, t, burst), t, t)
  {
    var base := UpdateStats(Detached(child));
    hide Fair, AddTokens, Distribute, UpdateStats, Detached;
    AddFair(base, t, t, burst);
    DistributeFair(base, AddTokens(base, t, t, burst).0, 0, t, t);
  }

  lemma HalfExactly(tokens: nat, w: nat)
    requires w > 0
    ensures 2 * (Half(tokens, w) * w) <= tokens < 2 * ((Half(tokens, w) + 1) * w)
  {
    var t := tokens / (w + w);
    DivTimes(tokens, w + w);
    assert t * (w + w) == 2 * (t * w) && (t + 1) * w == t * w + w;
  }

  /** All that is owed in a tree. */
  function Debts(node: Node): nat
    decreases node, 1
  {
    match node
    case Leaf(_) => 0
    case Limiter(d, cs) => d.debt + DebtsAll(cs)
  }

  function DebtsAll(cs: seq<Node>): nat
    decreases cs, 0
  {
    if cs == [] then 0 else DebtsAll(cs[..|cs| - 1]) + Debts(cs[|cs| - 1])
  }

  /** A tree that leaves gives up all it holds: for the debts within, and what is left over once its root owes nothing. */
  lemma {:induction false} GatherAccount(node: Node)
    ensures var (r, unspent) := Gather(node);
            && unspent + Debts(node) == Balance(node) + Debts(r) && Balance(r) == 0
            && (r.Limiter? && unspent > 0 ==> r.d.debt == 0)
    decreases node, 1
  {
    match node
    case Leaf(_) =>
    case Limiter(_, cs) => GatherAllAccount(cs);
  }

  lemma {:induction false} GatherAllAccount(cs: seq<Node>)
    ensures var (rs, unspent) := GatherAll(cs);
            unspent + DebtsAll(cs) == BalanceAll(cs) + DebtsAll(rs) && BalanceAll(rs) == 0
    decreases cs, 0
  {
    if cs != [] {
      var n := |cs| - 1;
      GatherAllAccount(cs[..n]);
      GatherAccount(cs[n]);
      hide Gather, Balance, Debts;
      var rs := GatherAll(cs).0;
      assert rs[..|rs| - 1] == GatherAll(cs[..n]).0;
    }
  }

  /** And its parent owes that much less. */
  lemma LeaveReturns(root: Node, i: nat)
    requires root.Limiter? && i < |root.children|
    ensures var (r, unspent) := Leave(root, i);
            var debts := Debts(Gather(root.children[i]).0);
            && r.Limiter? && unspent + Debts(root.children[i]) == Balance(root.children[i]) + debts
            && r.d == root.d.(debt := r.d.debt)
            && (if unspent >= root.d.debt then r.d.debt == 0 else r.d.debt + unspent == root.d.debt)
  {
    GatherAccount(root.children[i]);
  }

  // ----- Runs

  predicate NoJoins(events: seq<Event>) {
    forall k | 0 <= k < |events| :: !events[k].Joining?
  }

  /**
   * Over a run without joins, under a limit worth at least a token for each
   * leaf and tick, the debt falls with every tick until it is less than the
   * number of leaves.
   */
  lemma {:induction false} DebtFalls(accounts: seq<Account>, events: seq<Event>, limit: nat)
    requires IsRun(accounts, events, limit) && NoJoins(events)
    requires limit >= FREQUENCY * LeafCount(ShapeOf(accounts[0].root))
    ensures var a, z := accounts[0].root, accounts[|events|].root;
            && z.Limiter? && LeafCount(ShapeOf(z)) <= LeafCount(ShapeOf(a)) && z.d.debt <= a.d.debt
            && (z.d.debt < LeafCount(ShapeOf(a)) || z.d.debt + Ticks(events) <= a.d.debt)
    decreases |events|
  {
    if events != [] {
      hide Step, LeafCount, ShapeOf, BucketsOk;
      var n := |events| - 1;
      assert IsRun(accounts[..n + 1], events[..n], limit);
      DebtFalls(accounts[..n + 1], events[..n], limit);
      hide Valid;
      RateLedger(accounts[..n + 1], events[..n], limit);
      assert Valid(accounts[n], limit);
      StepDebt(accounts[n], events[n], accounts[n + 1], limit);
    }
  }

  /** After as many ticks as the debt was high it is less than the number of leaves. */
  lemma DebtRepaid(accounts: seq<Account>, events: seq<Event>, limit: nat)
    requires IsRun(accounts, events, limit) && NoJoins(events)
    requires limit >= FREQUENCY * LeafCount(ShapeOf(accounts[0].root)) && Ticks(events) > accounts[0].root.d.debt
    ensures accounts[|events|].root.Limiter? && accounts[|events|].root.d.debt < LeafCount(ShapeOf(accounts[0].root))
  {
    hide IsRun, LeafCount, ShapeOf;
    DebtFalls(accounts, events, limit);
  }

  /**
   * The promise of a rate limit without a remainder of debt: if a run goes on
   * without joins for long enough, the octets consumed in all N ticks are at
   * most N fifths of the limit, beyond the first carry, the tokens brought
   * along, and less than one octet for each leaf.
   */
  lemma SettledConsumption(accounts: seq<Account>, events: seq<Event>, limit: nat, m: nat)
    requires IsRun(accounts, events, limit) && m <= |events| && NoJoins(events[m..])
    requires accounts[0] == Account(accounts[0].root, 0, 0, 0, 0) && accounts[0].root.d.debt == 0
    requires accounts[m].root.Limiter? && limit >= FREQUENCY * LeafCount(ShapeOf(accounts[m].root))
    requires Ticks(events[m..]) > accounts[m].root.d.debt
    ensures var a, z := accounts[0], accounts[|events|];
            && z.root.Limiter?
            && FREQUENCY * (z.consumed + Balance(z.root))
               < Ticks(events) * limit + a.root.d.carry
                 + FREQUENCY * (Balance(a.root) + z.brought + LeafCount(ShapeOf(accounts[m].root)))
  {
    RunSuffix(accounts, events, limit, m);
    hide Step, LeafCount, ShapeOf, Balance, BucketsOk;
    DebtRepaid(accounts[m..], events[m..], limit);
    ConsumptionBound(accounts, events, limit);
  }

  lemma RunSuffix(accounts: seq<Account>, events: seq<Event>, limit: nat, m: nat)
    requires IsRun(accounts, events, limit) && m <= |events|
    ensures IsRun(accounts[m..], events[m..], limit)
  {
    hide Step, BucketsOk;
    assert IsRun(accounts[..m + 1], events[..m], limit);
    RateLedger(accounts[..m + 1], events[..m], limit);
    assert Valid(accounts[m], limit);
    forall k | 0 <= k < |events| - m ensures Step(accounts[m..][k], events[m..][k], accounts[m..][k + 1]) {
      assert Step(accounts[m + k], events[m + k], accounts[m + k + 1]);
    }
  }
}
