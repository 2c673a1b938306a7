/**
 * What a tick wastes. When a limiter shares overflow out, a sub-limiter that
 * asks for several shares is charged for all of them and given one. What is
 * lost that way is counted here, so that a tick has an exact balance.
 */
module LimiterWaste {
  import opened Rates
  import opened LimiterTree
  import opened LimiterBudget
  import opened LimiterCap
  import opened LimiterLedger
  import opened LimiterExact

  // ----- Leaves without a limit are never offered a token

  /** All leaves count their tokens. */
  predicate Metered(node: Node) {
    match node
    case Leaf(b) => b.available.Finite?
    case Limiter(_, cs) => forall i | 0 <= i < |cs| :: Metered(cs[i])
  }

  /** Nothing is held above leaves that may be without a limit. */
  predicate Dry(node: Node) {
    match node
    case Leaf(_) => true
    case Limiter(d, cs) => d.overflow == 0 && forall i | 0 <= i < |cs| :: Metered(cs[i]) || Dry(cs[i])
  }

  /** What redistribution finds in a tick. */
  predicate Sound(node: Node, overflow: nat) {
    Metered(node) || (Dry(node) && overflow == 0)
  }

  predicate AllSound(cs: seq<Node>, overflow: nat) {
    || (forall i | 0 <= i < |cs| :: Metered(cs[i]))
    || (overflow == 0 && forall i | 0 <= i < |cs| :: Metered(cs[i]) || Dry(cs[i]))
  }

  // ----- The waste of a redistribution

  /** The tokens lost in `distribute_overflow`. */
  function Waste(node: Node, overflow: nat): nat
    requires Ready(node)
    decreases ShapeOf(node), 2, 0, 0
  {
    match node
    case Leaf(_) => 0
    case Limiter(d, cs) => RoundsWaste(cs, d.scratch, d.overflow + Usable(d, overflow))
  }

  /** In each round, a share for every one asked for but one for each child; and what children lose. */
  function RoundsWaste(cs: seq<Node>, scratch: seq<nat>, remaining: nat): nat
    requires ScratchOk(cs, scratch) && AllReady(cs, scratch)
    decreases ShapesOf(cs), 1, |scratch|, remaining
  {
    var u := UnsaturatedSum(cs, scratch);
    var extra := if u != 0 then remaining / u else 0;
    var rest := if u != 0 then remaining % u else remaining;
    var s := Sweep(cs, scratch, 0, extra, rest);
    assert |scratch| <= u by { CountWithinSum(cs, scratch); }
    Shares(extra, u - |scratch|) + SweepWaste(cs, scratch, 0, extra, rest) +
    if extra == 0 then 0
    else
      assert rest < remaining by { ShareShrinks(remaining, u); }
      RoundsWaste(s.cs, s.scratch, s.remaining)
  }

  function SweepWaste(cs: seq<Node>, scratch: seq<nat>, i: nat, extra: nat, remaining: nat): nat
    requires ScratchOk(cs, scratch) && AllReady(cs, scratch) && i <= |scratch|
    decreases ShapesOf(cs), 0, |scratch| - i, 1
  {
    if i == |scratch| then 0
    else
      var (v, next) := Visit(cs, scratch, i, extra, remaining);
      Waste(cs[scratch[i]], extra) + SweepWaste(v.cs, v.scratch, next, extra, v.remaining)
  }

  /** The exact balance of a redistribution in a tick, in any tree. */
  lemma {:induction false} WasteAccount(node: Node, overflow: nat)
    requires Ready(node) && Sound(node, overflow)
    ensures var r := Distribute(node, overflow);
            && Money(r.0) + r.1 + Waste(node, overflow) == Money(node) + overflow
            && (Metered(node) ==> Metered(r.0)) && (Dry(node) && overflow == 0 ==> Dry(r.0) && r.1 == 0)
    decreases ShapeOf(node), 2, 0, 0
  {
    hide MoneyAll, Rounds, RoundsWaste, UnsaturatedSum, Settled, Distinct, Unsaturated, ShapesOf;
    match node
    case Leaf(b) =>
      LeafAccount(b, overflow);
    case Limiter(d, cs) =>
      var remaining := d.overflow + Usable(d, overflow);
      var end := Rounds(cs, d.scratch, remaining);
      RoundsAccount(cs, d.scratch, remaining);
      SettledMoney(d, overflow, end);
      SettledChildren(d, overflow, end);
      if overflow == 0 && end.remaining == 0 {
        SettledDry(d, overflow, end);
      }
  }

  lemma LeafAccount(b: Bucket, overflow: nat)
    requires b.Ok() && (b.available.Finite? || overflow == 0)
    ensures var r := Distribute(Leaf(b), overflow);
            && Money(r.0) + r.1 == Money(Leaf(b)) + overflow && r.0.Leaf?
            && (b.available.Finite? ==> r.0.b.available.Finite?) && (overflow == 0 ==> r.1 == 0)
  {
  }

  lemma SettledDry(d: Data, overflow: nat, end: Round)
    requires InRange(end.scratch, |end.cs|) && overflow == 0 && end.remaining == 0
    ensures var r := Settled(d, overflow, end);
            r.0.Limiter? && r.0.d.overflow == 0 && r.1 == 0
  {
    hide UnsaturatedSum;
  }

  lemma {:induction false} RoundsAccount(cs: seq<Node>, scratch: seq<nat>, remaining: nat)
    requires ScratchOk(cs, scratch) && AllReady(cs, scratch) && AllSound(cs, remaining)
    ensures var r := Rounds(cs, scratch, remaining);
            && MoneyAll(r.cs) + r.remaining + RoundsWaste(cs, scratch, remaining) == MoneyAll(cs) + remaining
            && SameSoundness(cs, r.cs) && (remaining == 0 ==> r.remaining == 0)
    decreases ShapesOf(cs), 1, |scratch|, remaining
  {
    hide *;
    var u, extra, rest := OneRound(cs, scratch, remaining);
    var s := Sweep(cs, scratch, 0, extra, rest);
    SoundMono(cs, remaining, extra);
    SweepAccount(cs, scratch, 0, extra, rest);
    if extra != 0 {
      SoundNext(cs, s.cs, extra, s.remaining);
      RoundsAccount(s.cs, s.scratch, s.remaining);
      SoundTrans(cs, s.cs, Rounds(s.cs, s.scratch, s.remaining).cs);
    }
  }

  /** What a round shares out, what is left over, and how that makes up the rounds. */
  lemma OneRound(cs: seq<Node>, scratch: seq<nat>, remaining: nat) returns (u: nat, extra: nat, rest: nat)
    requires ScratchOk(cs, scratch) && AllReady(cs, scratch)
    ensures u == UnsaturatedSum(cs, scratch) >= |scratch|
    ensures rest + Shares(extra, |scratch|) + Shares(extra, u - |scratch|) == remaining && extra <= remaining
    ensures extra == 0 <==> u == 0 || remaining < u
    ensures var s := Sweep(cs, scratch, 0, extra, rest);
            if extra == 0 then
              && rest == remaining && Rounds(cs, scratch, remaining) == s
              && RoundsWaste(cs, scratch, remaining) == SweepWaste(cs, scratch, 0, extra, rest)
            else
              && (|s.scratch| < |scratch| || s.remaining < remaining)
              && Rounds(cs, scratch, remaining) == Rounds(s.cs, s.scratch, s.remaining)
              && RoundsWaste(cs, scratch, remaining)
                 == Shares(extra, u - |scratch|) + SweepWaste(cs, scratch, 0, extra, rest) + RoundsWaste(s.cs, s.scratch, s.remaining)
  {
    hide Sweep, SweepWaste, AllReady, ShapesOf;
    CountWithinSum(cs, scratch);
    u := UnsaturatedSum(cs, scratch);
    hide UnsaturatedSum;
    extra := if u != 0 then remaining / u else 0;
    rest := if u != 0 then remaining % u else remaining;
    if u != 0 {
      Divided(remaining, u, |scratch|);
      SharesOut(remaining, u);
      if extra != 0 {
        ShareShrinks(remaining, u);
      }
    }
    assert Shares(0, |scratch|) == 0 && Shares(0, u - |scratch|) == 0 by {
      SharesIsProduct(0, |scratch|);
      SharesIsProduct(0, u - |scratch|);
    }
  }

  lemma SoundMono(cs: seq<Node>, overflow: nat, share: nat)
    requires AllSound(cs, overflow) && share <= overflow
    ensures AllSound(cs, share)
  {
  }

  lemma SoundNext(cs: seq<Node>, after: seq<Node>, share: nat, overflow: nat)
    requires AllSound(cs, share) && share != 0 && SameSoundness(cs, after)
    ensures AllSound(after, overflow)
  {
    assert AllSound(cs, 1) && AllSound(after, 1);
  }

  lemma SoundTrans(a: seq<Node>, b: seq<Node>, c: seq<Node>)
    requires SameSoundness(a, b) && SameSoundness(b, c)
    ensures SameSoundness(a, c)
  {
    hide AllSound;
  }

  lemma Divided(remaining: nat, u: nat, n: nat)
    requires 0 < u && n <= u
    ensures remaining % u + Shares(remaining / u, n) + Shares(remaining / u, u - n) == remaining && remaining / u <= remaining
  {
    DivTimes(remaining, u);
    SharesIsProduct(remaining / u, n);
    SharesIsProduct(remaining / u, u - n);
    SplitProduct(n, u, remaining / u);
    ScaledAtLeast(remaining / u, u);
  }

  /** Children are metered if they were, and sound if they were. */
  predicate SameSoundness(cs: seq<Node>, after: seq<Node>) {
    (AllSound(cs, 1) ==> AllSound(after, 1)) && (AllSound(cs, 0) ==> AllSound(after, 0))
  }

  lemma {:induction false} SweepAccount(cs: seq<Node>, scratch: seq<nat>, i: nat, extra: nat, remaining: nat)
    requires ScratchOk(cs, scratch) && AllReady(cs, scratch) && i <= |scratch| && AllSound(cs, extra)
    ensures var r := Sweep(cs, scratch, i, extra, remaining);
            && MoneyAll(r.cs) + r.remaining + SweepWaste(cs, scratch, i, extra, remaining)
               == MoneyAll(cs) + remaining + Shares(extra, |scratch| - i)
            && SameSoundness(cs, r.cs) && (extra == 0 ==> r.remaining == remaining)
    decreases ShapesOf(cs), 0, |scratch| - i, 1
  {
    hide MoneyAll, Visit, ShapesOf, ScratchOk, AllReady, Waste, AllSound;
    if i < |scratch| {
      var (v, next) := Visit(cs, scratch, i, extra, remaining);
      VisitAccount(cs, scratch, i, extra, remaining);
      SweepAccount(v.cs, v.scratch, next, extra, v.remaining);
    }
  }

  lemma {:induction false} VisitAccount(cs: seq<Node>, scratch: seq<nat>, i: nat, extra: nat, remaining: nat)
    requires ScratchOk(cs, scratch) && AllReady(cs, scratch) && i < |scratch| && AllSound(cs, extra)
    ensures var (v, _) := Visit(cs, scratch, i, extra, remaining);
            && MoneyAll(v.cs) + v.remaining + Waste(cs[scratch[i]], extra) == MoneyAll(cs) + remaining + extra
            && AllSound(v.cs, extra) && SameSoundness(cs, v.cs) && (extra == 0 ==> v.remaining == remaining)
    decreases ShapesOf(cs), 0, |scratch| - i, 0
  {
    hide MoneyAll, Money, Distribute, ShapesOf, Waste, Distinct, Unsaturated, Metered, Dry, Ready;
    var j := scratch[i];
    WasteAccount(cs[j], extra);
    NeverCreates(cs[j], extra);
    MoneyUpdate(cs, j, Distribute(cs[j], extra).0);
    SoundUpdate(cs, j, Distribute(cs[j], extra).0, extra);
    hide AllSound;
  }

  lemma SoundUpdate(cs: seq<Node>, j: nat, c: Node, overflow: nat)
    requires j < |cs| && AllSound(cs, overflow)
    requires (Metered(cs[j]) ==> Metered(c)) && (Dry(cs[j]) && overflow == 0 ==> Dry(c))
    ensures AllSound(cs[j := c], overflow) && SameSoundness(cs, cs[j := c])
  {
    hide Metered, Dry;
  }

  // ----- Handing out the tokens of a tick

  /** There is no leaf below. */
  predicate Leafless(node: Node) {
    node.Limiter? && forall i | 0 <= i < |node.children| :: Leafless(node.children[i])
  }

  /** A limiter that counts no leaves has none. */
  predicate Counted(node: Node) {
    node.Limiter? ==>
      && (node.d.weight == 0 ==> Leafless(node))
      && forall i | 0 <= i < |node.children| :: Counted(node.children[i])
  }

  lemma {:induction false} WeightedCounted(node: Node)
    requires Weighted(node)
    ensures Counted(node)
  {
    if node.Limiter? {
      forall i | 0 <= i < |node.children| ensures Counted(node.children[i]) {
        WeightedCounted(node.children[i]);
      }
    }
  }

  lemma {:induction false} NoLeaves(node: Node)
    requires LeafCount(ShapeOf(node)) == 0
    ensures Leafless(node)
    decreases node, 1
  {
    var cs := node.children;
    forall i | 0 <= i < |cs| ensures Leafless(cs[i]) {
      NoLeavesAt(cs, i);
    }
  }

  lemma {:induction false} NoLeavesAt(cs: seq<Node>, i: nat)
    requires LeafCounts(ShapesOf(cs)) == 0 && i < |cs|
    ensures Leafless(cs[i])
    decreases cs, 0
  {
    hide Leafless, ShapeOf, LeafCount, LeafCounts;
    var n := |cs| - 1;
    PushLeaves(ShapesOf(cs[..n]), ShapeOf(cs[n]));
    if i == n {
      NoLeaves(cs[n]);
    } else {
      NoLeavesAt(cs[..n], i);
    }
  }

  lemma {:induction false} LeaflessMetered(node: Node)
    requires Leafless(node)
    ensures Metered(node)
  {
    forall i | 0 <= i < |node.children| ensures Metered(node.children[i]) {
      LeaflessMetered(node.children[i]);
    }
  }

  lemma {:induction false} StatsCounted(node: Node)
    requires BucketsOk(node)
    ensures Counted(UpdateStats(node))
    decreases node
  {
    if node.Limiter? {
      var r := UpdateStats(node);
      StatsCountLeaves(node);
      if r.d.weight == 0 {
        NoLeaves(r);
      }
      forall i | 0 <= i < |r.children| ensures Counted(r.children[i]) {
        StatsCounted(node.children[i]);
      }
    }
  }

  /** After a limiter's share is handed out its leaves count their tokens, or it holds nothing and was asked to give back nothing. */
  lemma {:induction false} AddedSound(node: Node, tokens: Rate, limit: Rate, burst: nat)
    requires BucketsOk(node) && Paired(tokens, limit) && burst >= 1 && Counted(node)
    ensures var r := AddTokens(node, tokens, limit, burst);
            && (limit.Finite? ==> Metered(r.0))
            && (limit.Unlimited? ==> (Metered(r.0) || Dry(r.0)) && r.1 == 0)
    decreases node, 1
  {
    match node
    case Leaf(b) =>
    case Limiter(d, cs) =>
      hide Settle, AddToAll;
      if d.weight == 0 {
        LeaflessMetered(node);
      } else {
        var (mergedLimit, d1) := Settle(d, tokens, limit);
        AllAddedSound(cs, d1.merged, mergedLimit, burst);
      }
  }

  lemma {:induction false} AllAddedSound(cs: seq<Node>, tokens: Rate, limit: Rate, burst: nat)
    requires AllBucketsOk(cs) && Paired(tokens, limit) && burst >= 1 && forall i | 0 <= i < |cs| :: Counted(cs[i])
    ensures var s := AddToAll(cs, tokens, limit, burst);
            if limit.Finite? then AllSound(s.cs, 1) else AllSound(s.cs, 0) && s.overflow == 0
    decreases cs, 0
  {
    hide AddTokens, Counted, BucketsOk, AppendChild;
    if cs != [] {
      var n := |cs| - 1;
      var s := AddToAll(cs[..n], tokens, limit, burst);
      var served := AddTokens(cs[n], tokens, limit, burst);
      AllAddedSound(cs[..n], tokens, limit, burst);
      AddedSound(cs[n], tokens, limit, burst);
      AppendedSound(s, served, if limit.Finite? then 1 else 0);
    }
  }

  lemma AppendedSound(s: Served, served: (Node, nat), overflow: nat)
    requires Ready(served.0) && ScratchOk(s.cs, s.scratch) && AllReady(s.cs, s.scratch)
    requires AllSound(s.cs, overflow) && (Metered(served.0) || (overflow == 0 && Dry(served.0)))
    ensures var r := AppendChild(s, served);
            AllSound(r.cs, overflow) && r.overflow == s.overflow + served.1
  {
    hide Distribute, Unsaturated, ScratchOk, AllReady, Metered, Dry, Waste;
    WasteAccount(served.0, 0);
    NeverCreates(served.0, 0);
    hide Money;
  }

  /** The tokens a leaf gives up when its limit shrinks or is lifted. */
  function Forfeit(b: Bucket, limit: Rate, burst: nat): nat {
    if b.available.Unlimited? then 0
    else if limit.Unlimited? then b.available.n
    else b.available.n - MinNat(b.available.n, limit.n * b.multiplier * burst)
  }

  /** The tokens lost in `add_tokens`: what leaves give up, and the waste of sub-limiters that want no more. */
  function AddLost(node: Node, tokens: Rate, limit: Rate, burst: nat): nat
    requires BucketsOk(node) && Paired(tokens, limit) && burst >= 1
    decreases node, 1
  {
    match node
    case Leaf(b) => Forfeit(b, limit, burst)
    case Limiter(d, cs) =>
      if d.weight == 0 then 0
      else
        var (mergedLimit, d1) := Settle(d, tokens, limit);
        AddAllLost(cs, d1.merged, mergedLimit, burst)
  }

  function AddAllLost(cs: seq<Node>, tokens: Rate, limit: Rate, burst: nat): nat
    requires AllBucketsOk(cs) && Paired(tokens, limit) && burst >= 1
    decreases cs, 0
  {
    if cs == [] then 0
    else
      var n := |cs| - 1;
      var c := AddTokens(cs[n], tokens, limit, burst).0;
      AddAllLost(cs[..n], tokens, limit, burst) + AddLost(cs[n], tokens, limit, burst) + if Unsaturated(c) != 0 then 0 else Waste(c, 0)
  }

  lemma LeafAdded(b: Bucket, tokens: nat, limit: nat, burst: nat)
    requires b.Ok() && tokens <= limit && burst >= 1
    ensures var (b', ret) := BucketAdd(b, Finite(tokens), Finite(limit), burst);
            b'.available.Finite? && b'.available.n + ret + Forfeit(b, Finite(limit), burst) == b.available.Or(0) + tokens
  {
  }

  /** Every token handed to a subtree is in a leaf, held as overflow, given back, or lost. */
  lemma {:induction false} AddAccount(node: Node, tokens: Rate, limit: Rate, burst: nat)
    requires BucketsOk(node) && Paired(tokens, limit) && burst >= 1 && Weighted(node) && tokens.Finite?
    ensures var r := AddTokens(node, tokens, limit, burst);
            Money(r.0) + r.1 + AddLost(node, tokens, limit, burst) == Balance(node) + tokens.n * Weight(node)
    decreases node, 1
  {
    hide MoneyAll, BalanceAll, Weighted, Settle, AddToAll, AddAllLost, WeightSum;
    match node
    case Leaf(b) =>
      LeafAdded(b, tokens.n, limit.n, burst);
    case Limiter(d, cs) =>
      WeightedDown(node);
      var (mergedLimit, d1) := Settle(d, tokens, limit);
      AddAllAccount(cs, d1.merged, mergedLimit, burst);
      AllottedByWeight(d1.merged.n, cs);
      SplitProduct(d1.merged.n, tokens.n, d.weight);
  }

  lemma WeightedDown(node: Node)
    requires Weighted(node) && node.Limiter? && BucketsOk(node)
    ensures node.d.weight > 0 && node.d.weight == WeightSum(node.children) && AllBucketsOk(node.children)
    ensures forall i | 0 <= i < |node.children| :: Weighted(node.children[i])
  {
  }

  lemma {:induction false} AddAllAccount(cs: seq<Node>, tokens: Rate, limit: Rate, burst: nat)
    requires AllBucketsOk(cs) && (forall i | 0 <= i < |cs| :: Weighted(cs[i])) && Paired(tokens, limit) && burst >= 1 && tokens.Finite?
    ensures var s := AddToAll(cs, tokens, limit, burst);
            MoneyAll(s.cs) + s.overflow + AddAllLost(cs, tokens, limit, burst) == BalanceAll(cs) + Allotted(tokens.n, cs)
    decreases cs, 0
  {
    if cs == [] {
      NothingAdded(cs, tokens, limit, burst);
    } else {
      hide *;
      var n := |cs| - 1;
      FrontOk(cs, n);
      var s := AddToAll(cs[..n], tokens, limit, burst);
      var served := AddTokens(cs[n], tokens, limit, burst);
      LastChild(cs, n, tokens, limit, burst);
      AddAllAccount(cs[..n], tokens, limit, burst);
      AddAccount(cs[n], tokens, limit, burst);
      WeightedCounted(cs[n]);
      AddedSound(cs[n], tokens, limit, burst);
      PairedFinite(tokens, limit);
      AppendedMoney(s, served);
    }
  }

  lemma PairedFinite(tokens: Rate, limit: Rate)
    requires Paired(tokens, limit) && tokens.Finite?
    ensures limit.Finite?
  {
  }

  lemma NothingAdded(cs: seq<Node>, tokens: Rate, limit: Rate, burst: nat)
    requires cs == [] && Paired(tokens, limit) && burst >= 1 && tokens.Finite?
    ensures var s := AddToAll(cs, tokens, limit, burst);
            MoneyAll(s.cs) + s.overflow + AddAllLost(cs, tokens, limit, burst) == BalanceAll(cs) + Allotted(tokens.n, cs)
  {
  }

  lemma FrontOk(cs: seq<Node>, n: nat)
    requires AllBucketsOk(cs) && (forall i | 0 <= i < |cs| :: Weighted(cs[i])) && n == |cs| - 1
    ensures BucketsOk(cs[n]) && AllBucketsOk(cs[..n]) && Weighted(cs[n]) && forall i | 0 <= i < n :: Weighted(cs[..n][i])
  {
    hide BucketsOk, Weighted;
  }

  /** How the last child adds to everything. */
  lemma LastChild(cs: seq<Node>, n: nat, tokens: Rate, limit: Rate, burst: nat)
    requires AllBucketsOk(cs) && Paired(tokens, limit) && burst >= 1 && tokens.Finite?
    requires n == |cs| - 1 && BucketsOk(cs[n]) && AllBucketsOk(cs[..n])
    ensures AddToAll(cs, tokens, limit, burst)
            == AppendChild(AddToAll(cs[..n], tokens, limit, burst), AddTokens(cs[n], tokens, limit, burst))
    ensures BalanceAll(cs) == BalanceAll(cs[..n]) + Balance(cs[n])
    ensures Allotted(tokens.n, cs) == Allotted(tokens.n, cs[..n]) + tokens.n * Weight(cs[n])
    ensures var c := AddTokens(cs[n], tokens, limit, burst).0;
            AddAllLost(cs, tokens, limit, burst)
            == AddAllLost(cs[..n], tokens, limit, burst) + AddLost(cs[n], tokens, limit, burst) + if Unsaturated(c) != 0 then 0 else Waste(c, 0)
  {
    hide AddTokens, BucketsOk, AppendChild, Balance, AddLost, Weight, Waste, Unsaturated, ShapesOf, ShapeOf;
  }

  lemma AppendedMoney(s: Served, served: (Node, nat))
    requires Ready(served.0) && ScratchOk(s.cs, s.scratch) && AllReady(s.cs, s.scratch) && Metered(served.0)
    ensures var r := AppendChild(s, served);
            MoneyAll(r.cs) + r.overflow + (if Unsaturated(served.0) != 0 then 0 else Waste(served.0, 0))
            == MoneyAll(s.cs) + s.overflow + Money(served.0) + served.1
  {
    hide Distribute, Unsaturated, ScratchOk, AllReady, Metered, Dry, Waste, Money;
    WasteAccount(served.0, 0);
    PushMoney(s.cs, served.0);
    PushMoney(s.cs, Distribute(served.0, 0).0);
    hide MoneyAll;
  }

  lemma PushMoney(front: seq<Node>, c: Node)
    ensures MoneyAll(front + [c]) == MoneyAll(front) + Money(c)
  {
    assert (front + [c])[..|front|] == front;
  }

  // ----- A whole tick

  /** In a tick of any tree, a leaf without a limit is never offered a token: none is held anywhere above it. */
  lemma TickSound(root: Node, burst: nat)
    requires BucketsOk(root) && burst >= 1
    ensures Sound(AddTokens(UpdateStats(root), Unlimited, Unlimited, burst).0, 0)
  {
    StatsCounted(root);
    AddedSound(UpdateStats(root), Unlimited, Unlimited, burst);
    hide *;
  }

  /** Nor when a child joins. */
  lemma JoinSound(child: Node, tokens: Rate, burst: nat)
    requires BucketsOk(child) && burst >= 1
    ensures Sound(AddTokens(UpdateStats(Detached(child)), tokens, tokens, burst).0, 0)
  {
    StatsCounted(Detached(child));
    AddedSound(UpdateStats(Detached(child)), tokens, tokens, burst);
  }

  lemma {:induction false} StatsKeepBalance(node: Node)
    requires BucketsOk(node)
    ensures Balance(UpdateStats(node)) == Balance(node)
    decreases node, 1
  {
    match node
    case Leaf(_) =>
    case Limiter(_, cs) => StatsKeepBalances(cs);
  }

  lemma {:induction false} StatsKeepBalances(cs: seq<Node>)
    requires AllBucketsOk(cs)
    ensures BalanceAll(UpdateAllStats(cs)) == BalanceAll(cs)
    decreases cs, 0
  {
    hide UpdateStats, Balance, BucketsOk;
    if cs != [] {
      var n := |cs| - 1;
      StatsKeepBalances(cs[..n]);
      StatsKeepBalance(cs[n]);
      assert UpdateAllStats(cs)[..n] == UpdateAllStats(cs[..n]);
    }
  }

  /** The tokens lost in a tick: in handing out shares, and in redistributing what came back. */
  function TickLost(root: Node, burst: nat): nat
    requires BucketsOk(root) && burst >= 1
  {
    var base := UpdateStats(root);
    AddLost(base, Unlimited, Unlimited, burst) + Waste(AddTokens(base, Unlimited, Unlimited, burst).0, 0)
  }

  lemma ServedAccount(node: Node, burst: nat)
    requires node.Limiter? && BucketsOk(node) && node.d.limit.Finite? && burst >= 1 && Weighted(node)
    ensures var d1 := Settle(node.d, Unlimited, Unlimited).1;
            var served := AddTokens(node, Unlimited, Unlimited, burst).0;
            && served.Limiter? && d1.merged.Finite? && Metered(served)
            && served.d == d1.(overflow := served.d.overflow, unused := served.d.unused, scratch := served.d.scratch)
            && Money(served) + AddLost(node, Unlimited, Unlimited, burst) == Balance(node) + d1.merged.n * node.d.weight
  {
    hide MoneyAll, BalanceAll, Weighted, BucketsOk, Settle, AddToAll, AddAllLost, WeightSum;
    WeightedDown(node);
    var (mergedLimit, d1) := Settle(node.d, Unlimited, Unlimited);
    AddAllAccount(node.children, d1.merged, mergedLimit, burst);
    forall i | 0 <= i < |node.children| ensures Counted(node.children[i]) {
      WeightedCounted(node.children[i]);
    }
    AllAddedSound(node.children, d1.merged, mergedLimit, burst);
    AllottedByWeight(d1.merged.n, node.children);
  }

  /**
   * The exact balance of a tick, in any tree without childless sub-limiters: a
   * fifth of limit and carry is in leaves, held as overflow, paid off the debt
   * or lost, and the rest is carried over.
   */
  lemma TickBalance(root: Node, burst: nat)
    requires root.Limiter? && BucketsOk(root) && root.d.limit.Finite? && burst >= 1
    requires SubsPopulated(root) && root.children != []
    ensures var r := Process(root, burst);
            && r.Limiter?
            && FREQUENCY * (Money(r) + TickLost(root, burst) - Balance(root) + root.d.debt - r.d.debt) + r.d.carry
               == root.d.limit.n + root.d.carry
  {
    hide AddTokens, Distribute, Weighted, Money, Balance, Settle, AddLost, Waste, Metered;
    PopulatedUnlessEmpty(root);
    var base := UpdateStats(root);
    StatsWeighted(root);
    assert base.d.weight > 0 by { WeightedRoot(base); }
    RootSettle(base.d);
    ServedAccount(base, burst);
    var served := AddTokens(base, Unlimited, Unlimited, burst).0;
    DistributeKeepsData(served, 0);
    WasteAccount(served, 0);
    NeverCreates(served, 0);
    StatsKeepBalance(root);
  }
}
