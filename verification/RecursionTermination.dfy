/** Every recursive operation over finitely many server paths comes to an end, whatever the server replies. */
module RecursionTermination {
  import opened ServerPath
  import opened RecursiveOperation

  // ----- The measure: paths yet unvisited, then the weight of the stacks

  function Unvisited(roots: seq<Root>, all: set<Path>): nat {
    if roots == [] then 0 else |all - roots[0].visited| + Unvisited(roots[1..], all)
  }

  /** A first try weighs more than a second, and a visit more than the marker it leaves. */
  function Weight(dir: Dir): nat {
    1 + (if dir.doVisit then 2 else 0) + (if dir.secondTry then 0 else 1)
  }

  function StackWeight(dirs: seq<Dir>): nat {
    if dirs == [] then 0 else Weight(dirs[0]) + StackWeight(dirs[1..])
  }

  function TotalWeight(roots: seq<Root>): nat {
    if roots == [] then 0 else StackWeight(roots[0].dirs) + TotalWeight(roots[1..])
  }

  predicate Within(reply: Reply, all: set<Path>) {
    reply.Listed? ==> reply.listing.path in all
  }

  lemma {:induction false} StackWeightConcat(a: seq<Dir>, b: seq<Dir>)
    ensures StackWeight(a + b) == StackWeight(a) + StackWeight(b)
  {
    if a == [] {
      assert a + b == b;
    } else {
      assert (a + b)[1..] == a[1..] + b;
      StackWeightConcat(a[1..], b);
    }
  }

  lemma MarkerLighter(mode: Mode, dir: Dir, dir': Dir, rest: seq<Dir>)
    requires Weight(dir') == Weight(dir) && dir'.doVisit == dir.doVisit
    ensures StackWeight(Marker(mode, dir') + rest) < Weight(dir) + StackWeight(rest)
  {
    StackWeightConcat(Marker(mode, dir'), rest);
  }

  /** A reply makes the root visit a new path, or makes its stack lighter. */
  lemma ReactShrinks(mode: Mode, cfg: Config, root: Root, reply: Reply, all: set<Path>)
    requires root.dirs != [] && Within(reply, all)
    ensures var r := React(mode, cfg, root, reply);
            r.stop || |all - r.root.visited| < |all - root.visited|
            || (r.root.visited == root.visited && StackWeight(r.root.dirs) < StackWeight(root.dirs))
  {
    hide ReactListed, ReactFailed;
    match reply
    case Listed(listing) => ListedShrinks(mode, cfg, root, listing, all);
    case Failed(critical) => FailedShrinks(mode, root, critical);
    case NotDir(_) =>
    case Stopped =>
  }

  lemma ListedShrinks(mode: Mode, cfg: Config, root: Root, listing: Listing, all: set<Path>)
    requires root.dirs != [] && listing.path in all
    ensures var r := ReactListed(mode, cfg, root, listing);
            |all - r.root.visited| < |all - root.visited|
            || (r.root.visited == root.visited && StackWeight(r.root.dirs) < StackWeight(root.dirs))
  {
    var dir, rest := root.dirs[0], root.dirs[1..];
    var dir' := Below(root, listing.path, dir).dir;
    MarkerLighter(mode, dir, dir', rest);
    if listing.path !in root.visited { NewlyVisited(all, root.visited, listing.path); }
    hide Marker, ProcessEntries, Below, Weight;
  }

  lemma FailedShrinks(mode: Mode, root: Root, critical: bool)
    requires root.dirs != []
    ensures var r := ReactFailed(mode, root, critical);
            r.root.visited == root.visited && StackWeight(r.root.dirs) < StackWeight(root.dirs)
  {
    var dir, rest := root.dirs[0], root.dirs[1..];
    MarkerLighter(mode, dir, dir, rest);
    hide Marker;
    assert ([dir.(secondTry := true)] + rest)[1..] == rest;
  }

  lemma NewlyVisited(all: set<Path>, visited: set<Path>, p: Path)
    requires p in all && p !in visited
    ensures |all - (visited + {p})| < |all - visited|
  {
    assert all - visited == (all - (visited + {p})) + {p};
  }

  lemma {:induction false} NextShrinks(op: Op, all: set<Path>)
    ensures Unvisited(Next(op).roots, all) <= Unvisited(op.roots, all)
    ensures TotalWeight(Next(op).roots) <= TotalWeight(op.roots)
    ensures Waiting(Next(op)) || Next(op).mode == Inactive
    decreases |op.roots|, if op.roots == [] then 0 else |op.roots[0].dirs|
  {
    if op.mode != Inactive && op.roots != [] {
      var root := op.roots[0];
      if root.dirs == [] {
        NextShrinks(op.(roots := op.roots[1..], log := op.log + [RootDone]), all);
      } else if IsMarker(op.mode, root.dirs[0]) {
        var roots := [root.(dirs := root.dirs[1..])] + op.roots[1..];
        assert roots[1..] == op.roots[1..];
        NextShrinks(op.(roots := roots,
                        log := op.log + [RemoveDir(root.dirs[0].parent, root.dirs[0].subdir)]), all);
      }
    }
  }

  /** The measure falls with every reply, until the operation is over. */
  lemma HandleShrinks(cfg: Config, op: Op, reply: Reply, all: set<Path>)
    requires Waiting(op) && Within(reply, all)
    ensures var op' := Handle(cfg, op, reply);
            && (Waiting(op') || op'.mode == Inactive)
            && (Waiting(op') ==>
                  Unvisited(op'.roots, all) < Unvisited(op.roots, all)
                  || (Unvisited(op'.roots, all) == Unvisited(op.roots, all)
                      && TotalWeight(op'.roots) < TotalWeight(op.roots)))
  {
    var r := React(op.mode, cfg, op.roots[0], reply);
    ReactShrinks(op.mode, cfg, op.roots[0], reply, all);
    NextShrinks(Absorb(cfg, op, reply), all);
    hide React, Next;
    if !r.stop {
      var roots := [r.root] + op.roots[1..];
      assert roots[1..] == op.roots[1..];
    }
  }

  /**
   * The replies a server gives until the operation is over, where each reply may
   * depend on the whole exchange so far. That this function is total is the claim.
   */
  ghost function Exchange(cfg: Config, op: Op, server: seq<Reply> -> Reply, past: seq<Reply>, all: set<Path>): seq<Reply>
    requires forall h :: Within(server(h), all)
    decreases Unvisited(op.roots, all), TotalWeight(op.roots)
  {
    if !Waiting(op) then []
    else
      var reply := server(past);
      HandleShrinks(cfg, op, reply, all);
      var op' := Handle(cfg, op, reply);
      if Waiting(op') then [reply] + Exchange(cfg, op', server, past + [reply], all) else [reply]
  }

  /** For every server, after finitely many replies the operation is over. */
  lemma {:induction false} Terminates(cfg: Config, op: Op, server: seq<Reply> -> Reply, past: seq<Reply>, all: set<Path>)
    requires forall h :: Within(server(h), all)
    requires Waiting(op) || op.mode == Inactive
    ensures Run(cfg, op, Exchange(cfg, op, server, past, all)).mode == Inactive
    decreases Unvisited(op.roots, all), TotalWeight(op.roots)
  {
    if Waiting(op) {
      var reply := server(past);
      HandleShrinks(cfg, op, reply, all);
      var op' := Handle(cfg, op, reply);
      hide Handle, Unvisited, TotalWeight;
      if Waiting(op') {
        var more := Exchange(cfg, op', server, past + [reply], all);
        Terminates(cfg, op', server, past + [reply], all);
        assert ([reply] + more)[1..] == more;
      } else {
        assert [reply][1..] == [];
      }
    }
  }
}
