/**
 * The order of a recursive operation: what it does for a stack of work is what
 * it does for the top part and then for the rest, so contents go before their
 * directory.
 */
module RecursionOrder {
  import opened ServerPath
  import opened RecursiveOperation

  // ----- A root run to its end

  datatype End = Done | Awaiting | Aborted

  /** What a root did with a sequence of replies: its effects, what is left of it, and the replies left over. */
  datatype Outcome = Outcome(log: seq<Effect>, root: Root, rest: seq<Reply>, end: End)

  function Prepend(log: seq<Effect>, o: Outcome): Outcome {
    o.(log := log + o.log)
  }

  function Exec(mode: Mode, cfg: Config, root: Root, replies: seq<Reply>): Outcome
    decreases |replies|, |root.dirs|
  {
    if root.dirs == [] then Outcome([], root, replies, Done)
    else if IsMarker(mode, root.dirs[0]) then
      Prepend([RemoveDir(root.dirs[0].parent, root.dirs[0].subdir)],
              Exec(mode, cfg, root.(dirs := root.dirs[1..]), replies))
    else if replies == [] then Outcome([ListCommand(root.dirs[0])], root, [], Awaiting)
    else
      var r := React(mode, cfg, root, replies[0]);
      if r.stop then Outcome([ListCommand(root.dirs[0])], root, replies[1..], Aborted)
      else Prepend([ListCommand(root.dirs[0])] + r.Effects(), Exec(mode, cfg, r.root, replies[1..]))
  }

  /** The outcome of work on top of more work. */
  function Then(mode: Mode, cfg: Config, first: Outcome, below: seq<Dir>): Outcome {
    if first.end.Done? then Prepend(first.log, Exec(mode, cfg, first.root.(dirs := below), first.rest))
    else first.(root := first.root.(dirs := first.root.dirs + below))
  }

  lemma ListedLocal(mode: Mode, cfg: Config, root: Root, top: seq<Dir>, below: seq<Dir>, listing: Listing)
    requires top != []
    ensures var r := ReactListed(mode, cfg, root.(dirs := top), listing);
            ReactListed(mode, cfg, root.(dirs := top + below), listing)
            == r.(root := r.root.(dirs := r.root.dirs + below))
  {
    hide ProcessEntries;
    assert (top + below)[1..] == top[1..] + below;
    var dir := Below(root.(dirs := top), listing.path, top[0]).dir;
    assert Below(root.(dirs := top + below), listing.path, top[0]) == Below(root.(dirs := top), listing.path, top[0]);
    hide Below, Marker;
    var w := ProcessEntries(mode, cfg, listing, dir);
    Regroup(Marker(mode, dir), top[1..], below);
    Regroup(w.dirs, Marker(mode, dir) + top[1..], below);
    Regroup([], Marker(mode, dir) + top[1..], below);
  }

  lemma Regroup(a: seq<Dir>, b: seq<Dir>, c: seq<Dir>)
    ensures a + (b + c) == a + b + c
  {
  }

  lemma ReactLocal(mode: Mode, cfg: Config, root: Root, top: seq<Dir>, below: seq<Dir>, reply: Reply)
    requires top != []
    ensures var r := React(mode, cfg, root.(dirs := top), reply);
            React(mode, cfg, root.(dirs := top + below), reply)
            == r.(root := r.root.(dirs := r.root.dirs + below))
  {
    hide ReactListed, Marker;
    assert (top + below)[1..] == top[1..] + below;
    match reply
    case Listed(listing) => ListedLocal(mode, cfg, root, top, below, listing);
    case Failed(_) =>
      Regroup([top[0].(secondTry := true)], top[1..], below);
      Regroup(Marker(mode, top[0]), top[1..], below);
    case NotDir(_) =>
    case Stopped =>
  }

  /** Work on top is run to its end before anything below it is touched. */
  lemma {:induction false} StackDiscipline(mode: Mode, cfg: Config, root: Root, top: seq<Dir>, below: seq<Dir>, replies: seq<Reply>)
    ensures Exec(mode, cfg, root.(dirs := top + below), replies)
         == Then(mode, cfg, Exec(mode, cfg, root.(dirs := top), replies), below)
    decreases |replies|, |top|
  {
    var all, part := root.(dirs := top + below), root.(dirs := top);
    if top == [] {
      assert top + below == below;
      PrependNothing(Exec(mode, cfg, all, replies));
    } else if IsMarker(mode, top[0]) {
      assert (top + below)[1..] == top[1..] + below;
      StackDiscipline(mode, cfg, root, top[1..], below, replies);
      var log := [RemoveDir(top[0].parent, top[0].subdir)];
      ThenPrepend(mode, cfg, log, Exec(mode, cfg, root.(dirs := top[1..]), replies), below);
    } else if replies == [] {
    } else {
      ReactLocal(mode, cfg, root, top, below, replies[0]);
      hide React;
      var r := React(mode, cfg, part, replies[0]);
      if !r.stop {
        StackDiscipline(mode, cfg, r.root, r.root.dirs, below, replies[1..]);
        ThenPrepend(mode, cfg, [ListCommand(top[0])] + r.Effects(), Exec(mode, cfg, r.root, replies[1..]), below);
      }
    }
  }

  lemma PrependNothing(o: Outcome)
    ensures Prepend([], o) == o
  {
  }

  lemma ThenPrepend(mode: Mode, cfg: Config, log: seq<Effect>, o: Outcome, below: seq<Dir>)
    ensures Then(mode, cfg, Prepend(log, o), below) == Prepend(log, Then(mode, cfg, o, below))
  {
    hide Exec;
    if o.end.Done? {
      var more := Exec(mode, cfg, o.root.(dirs := below), o.rest).log;
      assert (log + o.log) + more == log + (o.log + more);
    }
  }

  // ----- Contents before the directory

  /** A listing that is processed for the front directory, in a recursive deletion. */
  predicate Deletes(root: Root, listing: Listing) {
    && root.dirs != [] && root.dirs[0].doVisit && root.dirs[0].subdir != ""
    && Below(root, listing.path, root.dirs[0]).below
    && (root.dirs[0].link == NoLink || root.dirs[0].recurse)
    && listing.path !in root.visited
  }

  /** The effects of a directory's own listing. */
  function OwnEffects(cfg: Config, root: Root, listing: Listing): seq<Effect>
    requires root.dirs != []
  {
    [ListCommand(root.dirs[0])] + React(Delete, cfg, root, Listed(listing)).Effects()
  }

  /** The root with just the work a directory's listing pushed. */
  function Contents(cfg: Config, root: Root, listing: Listing): Root
    requires root.dirs != []
  {
    var dir := Below(root, listing.path, root.dirs[0]).dir;
    root.(dirs := ProcessEntries(Delete, cfg, listing, dir).dirs, visited := root.visited + {listing.path})
  }

  /**
   * Post-order: a visited directory is removed right after the effects of its
   * listing and everything done for the work its listing pushed, and before
   * anything else; and not at all as long as that work is unfinished.
   */
  lemma PostOrder(cfg: Config, root: Root, listing: Listing, replies: seq<Reply>)
    requires Deletes(root, listing)
    ensures var inner := Exec(Delete, cfg, Contents(cfg, root, listing), replies);
            var dir := root.dirs[0];
            Exec(Delete, cfg, root, [Listed(listing)] + replies).log
            == OwnEffects(cfg, root, listing) + inner.log
               + if inner.end.Done?
                 then [RemoveDir(dir.parent, dir.subdir)]
                      + Exec(Delete, cfg, inner.root.(dirs := root.dirs[1..]), inner.rest).log
                 else []
  {
    var rest := root.dirs[1..];
    var contents := Contents(cfg, root, listing);
    var marker := DeleteReaction(cfg, root, listing);
    var inner := Exec(Delete, cfg, contents, replies);
    ExecListed(cfg, root, listing, replies);
    StackDiscipline(Delete, cfg, contents, contents.dirs, [marker] + rest, replies);
    if inner.end.Done? { ExecMarker(cfg, inner.root, marker, rest, inner.rest); }
    hide Exec, OwnEffects, Contents, Deletes;
    LogShape(OwnEffects(cfg, root, listing), inner.log,
             Exec(Delete, cfg, inner.root.(dirs := [marker] + rest), inner.rest).log);
  }

  lemma DeleteReaction(cfg: Config, root: Root, listing: Listing) returns (marker: Dir)
    requires Deletes(root, listing)
    ensures var contents := Contents(cfg, root, listing);
            var r := React(Delete, cfg, root, Listed(listing));
            && !r.stop
            && r.root == contents.(dirs := contents.dirs + ([marker] + root.dirs[1..]))
    ensures marker.parent == root.dirs[0].parent && marker.subdir == root.dirs[0].subdir && IsMarker(Delete, marker)
  {
    hide EntriesWork;
    marker := Below(root, listing.path, root.dirs[0]).dir.(doVisit := false);
  }

  lemma ExecListed(cfg: Config, root: Root, listing: Listing, replies: seq<Reply>)
    requires Deletes(root, listing)
    ensures var r := React(Delete, cfg, root, Listed(listing));
            !r.stop ==>
            Exec(Delete, cfg, root, [Listed(listing)] + replies)
            == Prepend(OwnEffects(cfg, root, listing), Exec(Delete, cfg, r.root, replies))
  {
    hide React;
    assert ([Listed(listing)] + replies)[1..] == replies;
  }

  lemma ExecMarker(cfg: Config, root: Root, marker: Dir, rest: seq<Dir>, replies: seq<Reply>)
    requires IsMarker(Delete, marker)
    ensures Exec(Delete, cfg, root.(dirs := [marker] + rest), replies).log
         == [RemoveDir(marker.parent, marker.subdir)] + Exec(Delete, cfg, root.(dirs := rest), replies).log
  {
    assert ([marker] + rest)[1..] == rest;
  }

  lemma LogShape(a: seq<Effect>, b: seq<Effect>, c: seq<Effect>)
    ensures a + b + [] == a + b && a + (b + c) == a + b + c
  {
  }

  // ----- The whole operation, root by root

  /** An operation that first chooses its next listing and then takes replies. */
  function Steps(cfg: Config, op: Op, replies: seq<Reply>): Op
    decreases |replies|
  {
    var op1 := Next(op);
    if !Waiting(op1) || replies == [] then op1
    else Steps(cfg, Absorb(cfg, op1, replies[0]), replies[1..])
  }

  lemma {:induction false} RunIsSteps(cfg: Config, op: Op, replies: seq<Reply>)
    ensures Run(cfg, Next(op), replies) == Steps(cfg, op, replies)
    decreases |replies|
  {
    var op1 := Next(op);
    if replies != [] {
      if Waiting(op1) {
        RunIsSteps(cfg, Absorb(cfg, op1, replies[0]), replies[1..]);
      } else {
        RunIdle(cfg, op1, replies);
      }
    }
  }

  lemma {:induction false} RunIdle(cfg: Config, op: Op, replies: seq<Reply>)
    requires !Waiting(op)
    ensures Run(cfg, op, replies) == op
    decreases |replies|
  {
    if replies != [] { RunIdle(cfg, op, replies[1..]); }
  }

  /** The operation after its first root did all it could with the replies. */
  function AfterRoot(cfg: Config, op: Op, o: Outcome): Op
    requires op.roots != []
  {
    match o.end
    case Done => Steps(cfg, op.(roots := op.roots[1..], log := op.log + o.log + [RootDone]), o.rest)
    case Awaiting => op.(roots := [o.root] + op.roots[1..], log := op.log + o.log)
    case Aborted => Op(Inactive, [], op.log + o.log)
  }

  /** An operation runs its roots one after the other, each to its end. */
  lemma {:induction false} RootByRoot(cfg: Config, op: Op, replies: seq<Reply>)
    requires op.mode != Inactive && op.roots != []
    ensures Steps(cfg, op, replies) == AfterRoot(cfg, op, Exec(op.mode, cfg, op.roots[0], replies))
    decreases |replies|, |op.roots[0].dirs|
  {
    hide AfterRoot, React, Absorb;
    var root := op.roots[0];
    if root.dirs == [] {
      EmptyRoot(cfg, op, replies);
    } else if IsMarker(op.mode, root.dirs[0]) {
      var op' := MarkerRoot(cfg, op, replies);
      RootByRoot(cfg, op', replies);
    } else {
      var op1 := op.(log := op.log + [ListCommand(root.dirs[0])]);
      if replies == [] || React(op.mode, cfg, root, replies[0]).stop {
        LastStep(cfg, op, op1, replies);
      } else {
        OneStep(cfg, op, op1, replies);
        RootByRoot(cfg, Absorb(cfg, op1, replies[0]), replies[1..]);
      }
    }
  }

  lemma EmptyRoot(cfg: Config, op: Op, replies: seq<Reply>)
    requires op.mode != Inactive && op.roots != [] && op.roots[0].dirs == []
    ensures Steps(cfg, op, replies) == AfterRoot(cfg, op, Exec(op.mode, cfg, op.roots[0], replies))
  {
    var popped := op.(roots := op.roots[1..], log := op.log + [RootDone]);
    assert op.log + [] + [RootDone] == op.log + [RootDone];
    assert Next(op) == Next(popped);
    StepsFromNext(cfg, op, popped, replies);
    hide Steps;
  }

  lemma MarkerRoot(cfg: Config, op: Op, replies: seq<Reply>) returns (op': Op)
    requires op.mode != Inactive && op.roots != [] && op.roots[0].dirs != [] && IsMarker(op.mode, op.roots[0].dirs[0])
    ensures op'.mode == op.mode && op'.roots != [] && |op'.roots[0].dirs| < |op.roots[0].dirs|
    ensures Steps(cfg, op, replies) == Steps(cfg, op', replies)
    ensures AfterRoot(cfg, op, Exec(op.mode, cfg, op.roots[0], replies))
         == AfterRoot(cfg, op', Exec(op.mode, cfg, op'.roots[0], replies))
  {
    var root := op.roots[0];
    var remove := RemoveDir(root.dirs[0].parent, root.dirs[0].subdir);
    op' := op.(roots := [root.(dirs := root.dirs[1..])] + op.roots[1..], log := op.log + [remove]);
    assert op'.roots[1..] == op.roots[1..];
    assert Next(op) == Next(op');
    StepsFromNext(cfg, op, op', replies);
    AfterPrepend(cfg, op, op', [remove], Exec(op.mode, cfg, op'.roots[0], replies));
  }

  lemma LastStep(cfg: Config, op: Op, op1: Op, replies: seq<Reply>)
    requires op.mode != Inactive && op.roots != [] && op.roots[0].dirs != [] && !IsMarker(op.mode, op.roots[0].dirs[0])
    requires op1 == op.(log := op.log + [ListCommand(op.roots[0].dirs[0])])
    requires replies == [] || React(op.mode, cfg, op.roots[0], replies[0]).stop
    ensures Steps(cfg, op, replies) == AfterRoot(cfg, op, Exec(op.mode, cfg, op.roots[0], replies))
  {
    hide React;
    assert Next(op) == op1 && Waiting(op1);
    assert op.roots == [op.roots[0]] + op.roots[1..];
  }

  lemma OneStep(cfg: Config, op: Op, op1: Op, replies: seq<Reply>)
    requires op.mode != Inactive && op.roots != [] && op.roots[0].dirs != [] && !IsMarker(op.mode, op.roots[0].dirs[0])
    requires op1 == op.(log := op.log + [ListCommand(op.roots[0].dirs[0])])
    requires replies != [] && !React(op.mode, cfg, op.roots[0], replies[0]).stop
    ensures var op' := Absorb(cfg, op1, replies[0]);
            && op'.mode == op.mode && op'.roots != []
            && Steps(cfg, op, replies) == Steps(cfg, op', replies[1..])
            && AfterRoot(cfg, op, Exec(op.mode, cfg, op.roots[0], replies))
            == AfterRoot(cfg, op', Exec(op.mode, cfg, op'.roots[0], replies[1..]))
  {
    hide React;
    assert Next(op) == op1 && Waiting(op1);
    var r := React(op.mode, cfg, op.roots[0], replies[0]);
    var op' := Absorb(cfg, op1, replies[0]);
    var log := [ListCommand(op.roots[0].dirs[0])] + r.Effects();
    assert op'.roots[1..] == op.roots[1..];
    assert op'.log == op.log + log;
    AfterPrepend(cfg, op, op', log, Exec(op.mode, cfg, r.root, replies[1..]));
    hide AfterRoot, Next;
  }

  lemma StepsFromNext(cfg: Config, a: Op, b: Op, replies: seq<Reply>)
    requires Next(a) == Next(b)
    ensures Steps(cfg, a, replies) == Steps(cfg, b, replies)
  {
    hide Next;
  }

  lemma AfterPrepend(cfg: Config, op: Op, op': Op, log: seq<Effect>, o: Outcome)
    requires op.roots != [] && op'.roots != [] && op'.roots[1..] == op.roots[1..]
    requires op'.mode == op.mode && op'.log == op.log + log
    ensures AfterRoot(cfg, op, Prepend(log, o)) == AfterRoot(cfg, op', o)
  {
    hide Steps;
    assert op.log + (log + o.log) == op.log + log + o.log;
  }
}
