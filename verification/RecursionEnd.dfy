/** How a recursive operation ends: it tells of every root that is done, and then once that it has finished. */
module RecursionEnd {
  import opened ServerPath
  import opened RecursiveOperation

  /** How often a log tells that a root is done. */
  function RootsDone(log: seq<Effect>): nat {
    if log == [] then 0 else RootsDone(log[..|log| - 1]) + if log[|log| - 1] == RootDone then 1 else 0
  }

  lemma {:induction false} DoneConcat(a: seq<Effect>, b: seq<Effect>)
    ensures RootsDone(a + b) == RootsDone(a) + RootsDone(b)
  {
    if b == [] {
      assert a + b == a;
    } else {
      assert (a + b)[..|a + b| - 1] == a + b[..|b| - 1];
      DoneConcat(a, b[..|b| - 1]);
    }
  }

  /** Neither of a root that is done nor of the end. */
  predicate Quiet(log: seq<Effect>) {
    forall i | 0 <= i < |log| :: log[i] != RootDone && log[i] != Finished
  }

  lemma {:induction false} QuietDone(log: seq<Effect>)
    requires Quiet(log)
    ensures RootsDone(log) == 0
  {
    if log != [] {
      QuietDone(log[..|log| - 1]);
    }
  }

  lemma {:induction false} EntriesQuiet(mode: Mode, cfg: Config, path: Path, dir: Dir, entries: seq<Entry>)
    ensures Quiet(EntriesWork(mode, cfg, path, dir, entries).effects)
  {
    if entries != [] {
      EntriesQuiet(mode, cfg, path, dir, entries[1..]);
      EntryQuiet(mode, cfg, path, dir, entries[0]);
      hide EntryWork;
    }
  }

  lemma EntryQuiet(mode: Mode, cfg: Config, path: Path, dir: Dir, e: Entry)
    ensures Quiet(EntryWork(mode, cfg, path, dir, e).effects)
  {
  }

  lemma ReactQuiet(mode: Mode, cfg: Config, root: Root, reply: Reply)
    requires root.dirs != []
    ensures Quiet(React(mode, cfg, root, reply).Effects())
    ensures React(mode, cfg, root, reply).stop <==> reply == Stopped
  {
    FurtherQuiet(mode, cfg, root, reply);
    var r := React(mode, cfg, root, reply);
    hide React, Quiet;
    EffectsQuiet(r);
  }

  lemma FurtherQuiet(mode: Mode, cfg: Config, root: Root, reply: Reply)
    requires root.dirs != []
    ensures Quiet(React(mode, cfg, root, reply).further)
    ensures React(mode, cfg, root, reply).stop <==> reply == Stopped
  {
    if reply.Listed? {
      var listing := reply.listing;
      var dir := Below(root, listing.path, root.dirs[0]).dir;
      hide EntriesWork, Below, Marker;
      EntriesQuiet(mode, cfg, listing.path, dir, listing.entries);
    }
  }

  lemma EffectsQuiet(r: Reaction)
    requires Quiet(r.further)
    ensures Quiet(r.Effects())
  {
  }

  /** What an operation with so many roots has told: of those that are done, and of the end once there are no more. */
  predicate Tidy(op: Op, total: nat) {
    if op.mode == Inactive then
      && op.roots == [] && RootsDone(op.log) == total
      && op.log != [] && op.log[|op.log| - 1] == Finished && Finished !in op.log[..|op.log| - 1]
    else Finished !in op.log && RootsDone(op.log) + |op.roots| == total
  }

  lemma OneMore(log: seq<Effect>, e: Effect)
    ensures RootsDone(log + [e]) == RootsDone(log) + if e == RootDone then 1 else 0
  {
    assert (log + [e])[..|log + [e]| - 1] == log;
  }

  lemma {:induction false} NextTidy(op: Op, total: nat)
    requires Tidy(op, total)
    ensures Tidy(Next(op), total)
    decreases |op.roots|, if op.roots == [] then 0 else |op.roots[0].dirs|
  {
    hide RootsDone, IsMarker;
    if op.mode != Inactive {
      if op.roots == [] {
        OneMore(op.log, Finished);
        assert (op.log + [Finished])[..|op.log|] == op.log;
      } else {
        var root := op.roots[0];
        if root.dirs == [] {
          OneMore(op.log, RootDone);
          NextTidy(op.(roots := op.roots[1..], log := op.log + [RootDone]), total);
        } else if IsMarker(op.mode, root.dirs[0]) {
          var remove := RemoveDir(root.dirs[0].parent, root.dirs[0].subdir);
          OneMore(op.log, remove);
          NextTidy(op.(roots := [root.(dirs := root.dirs[1..])] + op.roots[1..], log := op.log + [remove]), total);
        } else {
          OneMore(op.log, ListCommand(root.dirs[0]));
        }
      }
    }
  }

  lemma AbsorbTidy(cfg: Config, op: Op, reply: Reply, total: nat)
    requires Waiting(op) && Tidy(op, total)
    ensures reply != Stopped ==> Tidy(Absorb(cfg, op, reply), total)
    ensures reply == Stopped ==> Absorb(cfg, op, reply).mode == Inactive && Finished !in Absorb(cfg, op, reply).log
  {
    hide RootsDone, React;
    ReactQuiet(op.mode, cfg, op.roots[0], reply);
    var effects := React(op.mode, cfg, op.roots[0], reply).Effects();
    QuietDone(effects);
    DoneConcat(op.log, effects);
  }

  /**
   * Whatever the replies: unless it is stopped, an operation has told of every
   * root it is done with; it has finished once they all are, and says so once,
   * at the very end. When stopped it says nothing.
   */
  lemma {:induction false} EndsOnce(cfg: Config, op: Op, replies: seq<Reply>, total: nat)
    requires Tidy(op, total)
    ensures var r := Run(cfg, op, replies);
            Tidy(r, total) || (Stopped in replies && r.mode == Inactive && Finished !in r.log)
    decreases |replies|
  {
    if replies != [] {
      hide Tidy, Next, Absorb;
      if Waiting(op) {
        AbsorbTidy(cfg, op, replies[0], total);
        if replies[0] == Stopped {
          var r := Absorb(cfg, op, replies[0]);
          StaysStopped(r);
          RunStopped(cfg, r, replies[1..]);
        } else {
          NextTidy(Absorb(cfg, op, replies[0]), total);
          EndsOnce(cfg, Handle(cfg, op, replies[0]), replies[1..], total);
        }
      } else {
        EndsOnce(cfg, op, replies[1..], total);
      }
    }
  }

  lemma StaysStopped(op: Op)
    requires op.mode == Inactive
    ensures Next(op) == op
  {
  }

  lemma {:induction false} RunStopped(cfg: Config, op: Op, replies: seq<Reply>)
    requires op.mode == Inactive
    ensures Run(cfg, op, replies) == op
  {
    if replies != [] { RunStopped(cfg, op, replies[1..]); }
  }
}
