/** What a recursive operation processes: no path twice for a root, and nothing outside the chosen directories. */
module RecursionReach {
  import opened Options
  import opened ServerPath
  import opened RecursiveOperation
  import opened RecursionOrder

  // ----- Each path at most once

  function Entered(log: seq<Effect>): seq<Path> {
    if log == [] then []
    else (if log[0].Enter? then [log[0].path] else []) + Entered(log[1..])
  }

  lemma {:induction false} EnteredConcat(a: seq<Effect>, b: seq<Effect>)
    ensures Entered(a + b) == Entered(a) + Entered(b)
  {
    if a == [] {
      assert a + b == b;
    } else {
      assert (a + b)[1..] == a[1..] + b;
      EnteredConcat(a[1..], b);
      var head := if a[0].Enter? then [a[0].path] else [];
      assert head + (Entered(a[1..]) + Entered(b)) == (head + Entered(a[1..])) + Entered(b);
    }
  }

  /** Effects that neither enter a directory nor note a link target. */
  predicate Plain(log: seq<Effect>) {
    if log == [] then true else !log[0].Enter? && !log[0].LinkTarget? && Plain(log[1..])
  }

  lemma {:induction false} PlainConcat(a: seq<Effect>, b: seq<Effect>)
    requires Plain(a) && Plain(b)
    ensures Plain(a + b)
  {
    if a == [] {
      assert a + b == b;
    } else {
      assert (a + b)[1..] == a[1..] + b;
      PlainConcat(a[1..], b);
    }
  }

  lemma {:induction false} PlainEntersNothing(log: seq<Effect>)
    requires Plain(log)
    ensures Entered(log) == []
  {
    if log != [] { PlainEntersNothing(log[1..]); }
  }

  lemma EntryPlain(mode: Mode, cfg: Config, path: Path, dir: Dir, e: Entry)
    ensures Plain(EntryWork(mode, cfg, path, dir, e).effects)
  {
  }

  lemma {:induction false} EntriesPlain(mode: Mode, cfg: Config, path: Path, dir: Dir, entries: seq<Entry>)
    ensures Plain(EntriesWork(mode, cfg, path, dir, entries).effects)
  {
    if entries != [] {
      hide EntryWork, Plain;
      EntriesPlain(mode, cfg, path, dir, entries[1..]);
      EntryPlain(mode, cfg, path, dir, entries[0]);
      PlainConcat(EntriesWork(mode, cfg, path, dir, entries[1..]).effects, EntryWork(mode, cfg, path, dir, entries[0]).effects);
    }
  }

  lemma ProcessPlain(mode: Mode, cfg: Config, listing: Listing, dir: Dir)
    ensures Plain(ProcessEntries(mode, cfg, listing, dir).effects + [ListingEnd])
  {
    EntriesPlain(mode, cfg, listing.path, dir, listing.entries);
    var w := EntriesWork(mode, cfg, listing.path, dir, listing.entries);
    hide EntriesWork;
    PlainConcat(w.effects, [DeleteFiles(listing.path, w.files)]);
    PlainConcat(ProcessEntries(mode, cfg, listing, dir).effects, [ListingEnd]);
  }

  /** The further effects of a reply are plain. */
  lemma ReactPlain(mode: Mode, cfg: Config, root: Root, reply: Reply)
    requires root.dirs != []
    ensures Plain(React(mode, cfg, root, reply).further)
  {
    match reply
    case Listed(listing) =>
      var dir := Below(root, listing.path, root.dirs[0]).dir;
      ProcessPlain(mode, cfg, listing, dir);
      PlainConcat([EmptyDirectory(dir.localDir)], [ListingEnd]);
      hide ProcessEntries, Plain, Below;
      assert Plain([]) by { NothingPlain([]); }
    case Failed(_) =>
    case NotDir(_) =>
    case Stopped =>
  }

  lemma NothingPlain(log: seq<Effect>)
    requires log == []
    ensures Plain(log)
  {
  }

  lemma ReactVisited(mode: Mode, cfg: Config, root: Root, reply: Reply)
    requires root.dirs != []
    ensures var r := React(mode, cfg, root, reply);
            && (r.entered.None? ==> r.root.visited == root.visited)
            && (r.entered.Some? ==>
                  r.entered.value !in root.visited && r.root.visited == root.visited + {r.entered.value})
  {
    hide ProcessEntries, Below, Marker;
  }

  lemma ReactEntered(mode: Mode, cfg: Config, root: Root, reply: Reply)
    requires root.dirs != []
    ensures var r := React(mode, cfg, root, reply);
            Entered([ListCommand(root.dirs[0])] + r.Effects()) == if r.entered.Some? then [r.entered.value] else []
  {
    hide React, Entered;
    ReactPlain(mode, cfg, root, reply);
    PlainEntersNothing(React(mode, cfg, root, reply).further);
    EffectsEntered(React(mode, cfg, root, reply), ListCommand(root.dirs[0]));
  }

  lemma EffectsEntered(r: Reaction, command: Effect)
    requires Entered(r.further) == [] && command.ListDir?
    ensures Entered([command] + r.Effects()) == if r.entered.Some? then [r.entered.value] else []
  {
    var target := if r.target.Some? then [LinkTarget(r.target.value)] else [];
    var entered := if r.entered.Some? then [Enter(r.entered.value)] else [];
    EnteredConcat([command], r.Effects());
    EnteredConcat(target, entered + r.further);
    EnteredConcat(entered, r.further);
  }

  predicate NoneTwice(paths: seq<Path>) {
    forall i, j | 0 <= i < j < |paths| :: paths[i] != paths[j]
  }

  /** For one root, no path is processed twice, and none that was visited before. */
  lemma {:induction false} EachPathOnce(mode: Mode, cfg: Config, root: Root, replies: seq<Reply>)
    ensures var o := Exec(mode, cfg, root, replies);
            && NoneTwice(Entered(o.log))
            && (forall p | p in Entered(o.log) :: p !in root.visited && p in o.root.visited)
            && root.visited <= o.root.visited
    decreases |replies|, |root.dirs|
  {
    hide React, NoneTwice, Entered;
    if root.dirs == [] {
      EntersNone(mode, cfg, root, replies);
    } else if IsMarker(mode, root.dirs[0]) {
      var shorter := root.(dirs := root.dirs[1..]);
      var remove := [RemoveDir(root.dirs[0].parent, root.dirs[0].subdir)];
      EachPathOnce(mode, cfg, shorter, replies);
      EnteredConcat(remove, Exec(mode, cfg, shorter, replies).log);
      PlainEntersNothing(remove);
      assert [] + Entered(Exec(mode, cfg, shorter, replies).log) == Entered(Exec(mode, cfg, shorter, replies).log);
    } else if replies == [] || React(mode, cfg, root, replies[0]).stop {
      EntersNone(mode, cfg, root, replies);
    } else {
      var r := React(mode, cfg, root, replies[0]);
      var inner := Exec(mode, cfg, r.root, replies[1..]);
      ReactEntered(mode, cfg, root, replies[0]);
      ReactVisited(mode, cfg, root, replies[0]);
      EachPathOnce(mode, cfg, r.root, replies[1..]);
      EnteredConcat([ListCommand(root.dirs[0])] + r.Effects(), inner.log);
      if r.entered.Some? {
        OneMore(r.entered.value, Entered(inner.log));
      } else {
        assert [] + Entered(inner.log) == Entered(inner.log);
      }
    }
  }

  lemma EntersNone(mode: Mode, cfg: Config, root: Root, replies: seq<Reply>)
    requires root.dirs == []
          || (!IsMarker(mode, root.dirs[0]) && (replies == [] || React(mode, cfg, root, replies[0]).stop))
    ensures var o := Exec(mode, cfg, root, replies);
            NoneTwice(Entered(o.log)) && Entered(o.log) == [] && o.root.visited == root.visited
  {
    hide React;
  }

  lemma OneMore(p: Path, paths: seq<Path>)
    requires NoneTwice(paths) && p !in paths
    ensures NoneTwice([p] + paths)
  {
  }

  // ----- Only inside the chosen directories

  /** Below the start directory, the start directory itself if allowed, or at or below a noted link target. */
  predicate Permitted(root: Root, path: Path, targets: set<Path>) {
    || path.IsSubdirOf(root.start)
    || (path == root.start && root.allowParent)
    || exists t | t in targets :: path == t || path.IsSubdirOf(t)
  }

  function TargetsIn(log: seq<Effect>): set<Path> {
    if log == [] then {} else (if log[0].LinkTarget? then {log[0].path} else {}) + TargetsIn(log[1..])
  }

  /** Every directory a log enters is permitted by the link targets noted before. */
  predicate StaysInside(root: Root, log: seq<Effect>, targets: set<Path>) {
    if log == [] then true
    else
      && (log[0].Enter? ==> Permitted(root, log[0].path, targets))
      && StaysInside(root, log[1..], targets + if log[0].LinkTarget? then {log[0].path} else {})
  }

  lemma {:induction false} InsideConcat(root: Root, a: seq<Effect>, b: seq<Effect>, targets: set<Path>)
    requires StaysInside(root, a, targets) && StaysInside(root, b, targets + TargetsIn(a))
    ensures StaysInside(root, a + b, targets)
    decreases a
  {
    if a == [] {
      assert a + b == b;
      assert targets + {} == targets;
    } else {
      assert (a + b)[1..] == a[1..] + b;
      var here := if a[0].LinkTarget? then {a[0].path} else {};
      assert targets + TargetsIn(a) == (targets + here) + TargetsIn(a[1..]);
      InsideConcat(root, a[1..], b, targets + here);
    }
  }

  lemma {:induction false} PlainInside(root: Root, log: seq<Effect>, targets: set<Path>)
    requires Plain(log)
    ensures StaysInside(root, log, targets) && TargetsIn(log) == {}
    decreases log
  {
    if log != [] {
      assert targets + {} == targets;
      PlainInside(root, log[1..], targets);
    }
  }

  /** Work confined to a root: its link targets are among the noted ones. */
  predicate Confined(dirs: seq<Dir>, targets: set<Path>) {
    forall i | 0 <= i < |dirs| :: dirs[i].startDir.NoPath? || dirs[i].startDir in targets
  }

  predicate SameRoot(a: Root, b: Root) {
    a.start == b.start && a.allowParent == b.allowParent
  }

  lemma {:induction false} EntriesConfined(mode: Mode, cfg: Config, path: Path, dir: Dir, entries: seq<Entry>, targets: set<Path>)
    requires dir.startDir.NoPath? || dir.startDir in targets
    ensures Confined(EntriesWork(mode, cfg, path, dir, entries).dirs, targets)
  {
    if entries != [] {
      EntriesConfined(mode, cfg, path, dir, entries[1..], targets);
      hide Skipped;
    }
  }

  lemma ConfinedTail(dirs: seq<Dir>, targets: set<Path>, now: set<Path>)
    requires dirs != [] && Confined(dirs, targets) && targets <= now
    ensures Confined(dirs[1..], now) && Confined(dirs, now)
    ensures dirs[0].startDir.NoPath? || dirs[0].startDir in targets
  {
  }

  lemma ConfinedConcat(a: seq<Dir>, b: seq<Dir>, targets: set<Path>)
    requires Confined(a, targets) && Confined(b, targets)
    ensures Confined(a + b, targets)
  {
  }

  lemma BelowPermitted(root: Root, path: Path, dir: Dir, targets: set<Path>)
    requires dir.startDir.NoPath? || dir.startDir in targets
    requires Below(root, path, dir).below
    ensures var v := Below(root, path, dir);
            var now := targets + if v.target.Some? then {v.target.value} else {};
            && Permitted(root, path, now)
            && (v.dir.startDir.NoPath? || v.dir.startDir in now)
            && (v.target.Some? ==> v.target.value == path && dir.link == UserLink)
  {
  }

  lemma ReactConfined(mode: Mode, cfg: Config, root: Root, reply: Reply, targets: set<Path>)
    requires root.dirs != [] && Confined(root.dirs, targets)
    ensures var r := React(mode, cfg, root, reply);
            var now := targets + if r.target.Some? then {r.target.value} else {};
            && SameRoot(r.root, root) && Confined(r.root.dirs, now)
            && (r.entered.Some? ==> Permitted(root, r.entered.value, now))
            && (r.target.Some? ==>
                  reply.Listed? && r.target.value == reply.listing.path && root.dirs[0].link == UserLink)
  {
    var r := React(mode, cfg, root, reply);
    var now := targets + if r.target.Some? then {r.target.value} else {};
    var dir, rest := root.dirs[0], root.dirs[1..];
    ConfinedTail(root.dirs, targets, now);
    match reply
    case Listed(listing) =>
      var v := Below(root, listing.path, dir);
      if v.below {
        BelowPermitted(root, listing.path, dir, targets);
        assert r.target == v.target;
        EntriesConfined(mode, cfg, listing.path, v.dir, listing.entries, now);
        hide EntriesWork, Below, Permitted, Skipped;
        ConfinedConcat(Marker(mode, v.dir), rest, now);
        ConfinedConcat(ProcessEntries(mode, cfg, listing, v.dir).dirs, Marker(mode, v.dir) + rest, now);
        ConfinedConcat([], Marker(mode, v.dir) + rest, now);
      }
    case Failed(_) =>
      ConfinedConcat(Marker(mode, dir), rest, now);
      ConfinedConcat([dir.(secondTry := true)], rest, now);
    case NotDir(_) =>
    case Stopped =>
  }

  // ----- Only links that were chosen widen the reach

  /** Link targets are noted only for links with one of the given commands to list them, right after that command. */
  predicate NotedFor(log: seq<Effect>, commands: set<Effect>) {
    forall k | 0 <= k < |log| && log[k].LinkTarget? :: k > 0 && log[k - 1] in commands
  }

  /** The links of the user among the work are listed with one of the given commands. */
  predicate LinksListed(dirs: seq<Dir>, commands: set<Effect>) {
    forall i | 0 <= i < |dirs| && dirs[i].link == UserLink :: ListCommand(dirs[i]) in commands
  }

  function UserLinkCommands(dirs: seq<Dir>): set<Effect> {
    set d | d in dirs && d.link == UserLink :: ListCommand(d)
  }

  lemma {:induction false} PlainAt(log: seq<Effect>, k: nat)
    requires Plain(log) && k < |log|
    ensures !log[k].LinkTarget?
  {
    if k > 0 {
      PlainAt(log[1..], k - 1);
    }
  }

  lemma PlainNoted(log: seq<Effect>, commands: set<Effect>)
    requires Plain(log)
    ensures NotedFor(log, commands)
  {
    forall k | 0 <= k < |log| ensures !log[k].LinkTarget? {
      PlainAt(log, k);
    }
  }

  lemma NotedConcat(a: seq<Effect>, b: seq<Effect>, commands: set<Effect>)
    requires NotedFor(a, commands) && NotedFor(b, commands)
    ensures NotedFor(a + b, commands)
  {
    forall k | 0 <= k < |a + b| && (a + b)[k].LinkTarget? ensures k > 0 && (a + b)[k - 1] in commands {
      if k >= |a| {
        assert b[k - |a|].LinkTarget?;
        assert b[k - |a| - 1] in commands;
      }
    }
  }

  lemma LinksConcat(a: seq<Dir>, b: seq<Dir>, commands: set<Effect>)
    requires LinksListed(a, commands) && LinksListed(b, commands)
    ensures LinksListed(a + b, commands)
  {
  }

  /** Links found in listings are not links of the user. */
  lemma {:induction false} EntriesNoUserLinks(mode: Mode, cfg: Config, path: Path, dir: Dir, entries: seq<Entry>, commands: set<Effect>)
    ensures LinksListed(EntriesWork(mode, cfg, path, dir, entries).dirs, commands)
  {
    if entries != [] {
      EntriesNoUserLinks(mode, cfg, path, dir, entries[1..], commands);
      hide Skipped;
      LinksConcat(EntryWork(mode, cfg, path, dir, entries[0]).dirs, EntriesWork(mode, cfg, path, dir, entries[1..]).dirs, commands);
    }
  }

  lemma ReactLinks(mode: Mode, cfg: Config, root: Root, reply: Reply, commands: set<Effect>)
    requires root.dirs != [] && LinksListed(root.dirs, commands)
    ensures var r := React(mode, cfg, root, reply);
            && LinksListed(r.root.dirs, commands)
            && (r.target.Some? ==> ListCommand(root.dirs[0]) in commands)
  {
    var dir, rest := root.dirs[0], root.dirs[1..];
    assert LinksListed(rest, commands);
    match reply
    case Listed(listing) =>
      var v := Below(root, listing.path, dir);
      assert v.dir.link == dir.link && ListCommand(v.dir) == ListCommand(dir) && (v.target.Some? ==> dir.link == UserLink);
      EntriesNoUserLinks(mode, cfg, listing.path, v.dir, listing.entries, commands);
      hide EntriesWork, Below;
      assert LinksListed(Marker(mode, v.dir), commands);
      LinksConcat(Marker(mode, v.dir), rest, commands);
      LinksConcat(ProcessEntries(mode, cfg, listing, v.dir).dirs, Marker(mode, v.dir) + rest, commands);
      LinksConcat([], Marker(mode, v.dir) + rest, commands);
    case Failed(_) =>
      assert LinksListed(Marker(mode, dir), commands) && LinksListed([dir.(secondTry := true)], commands);
      LinksConcat(Marker(mode, dir), rest, commands);
      LinksConcat([dir.(secondTry := true)], rest, commands);
    case NotDir(_) =>
    case Stopped =>
  }

  lemma EffectsNoted(r: Reaction, command: Effect, commands: set<Effect>)
    requires Plain(r.further) && (r.target.Some? ==> command in commands)
    requires command.ListDir?
    ensures NotedFor([command] + r.Effects(), commands)
  {
    PlainNoted(r.further, commands);
    hide Plain;
    var entered := if r.entered.Some? then [Enter(r.entered.value)] else [];
    var first := [command] + if r.target.Some? then [LinkTarget(r.target.value)] else [];
    assert NotedFor(first, commands) && NotedFor(entered, commands);
    NotedConcat(entered, r.further, commands);
    NotedConcat(first, entered + r.further, commands);
    assert [command] + r.Effects() == first + (entered + r.further);
  }

  lemma {:induction false} ExecNoted(mode: Mode, cfg: Config, root: Root, replies: seq<Reply>, commands: set<Effect>)
    requires LinksListed(root.dirs, commands)
    ensures NotedFor(Exec(mode, cfg, root, replies).log, commands)
    decreases |replies|, |root.dirs|
  {
    hide React, NotedFor;
    if root.dirs == [] || (!IsMarker(mode, root.dirs[0]) && (replies == [] || React(mode, cfg, root, replies[0]).stop)) {
      OneCommand(mode, cfg, root, replies);
      PlainNoted(Exec(mode, cfg, root, replies).log, commands);
    } else if IsMarker(mode, root.dirs[0]) {
      var shorter := root.(dirs := root.dirs[1..]);
      var remove := [RemoveDir(root.dirs[0].parent, root.dirs[0].subdir)];
      ExecNoted(mode, cfg, shorter, replies, commands);
      PlainNoted(remove, commands);
      NotedConcat(remove, Exec(mode, cfg, shorter, replies).log, commands);
    } else {
      var r := React(mode, cfg, root, replies[0]);
      ReactPlain(mode, cfg, root, replies[0]);
      ReactLinks(mode, cfg, root, replies[0], commands);
      EffectsNoted(r, ListCommand(root.dirs[0]), commands);
      ExecNoted(mode, cfg, r.root, replies[1..], commands);
      NotedConcat([ListCommand(root.dirs[0])] + r.Effects(), Exec(mode, cfg, r.root, replies[1..]).log, commands);
    }
  }

  /**
   * Containment: a directory is processed only below the start directory, at it
   * when its parent may be listed, or at or below the target of a link; and every
   * such target was noted right after listing a link the user had chosen, that is
   * one of the directories the root began with. Links found on the way widen nothing.
   */
  lemma Containment(mode: Mode, cfg: Config, root: Root, replies: seq<Reply>, targets: set<Path>)
    requires Confined(root.dirs, targets)
    ensures StaysInside(root, Exec(mode, cfg, root, replies).log, targets)
    ensures var log := Exec(mode, cfg, root, replies).log;
            forall k | 0 <= k < |log| && log[k].LinkTarget? ::
              k > 0 && exists d | d in root.dirs && d.link == UserLink :: log[k - 1] == ListCommand(d)
  {
    ExecInside(mode, cfg, root, replies, targets);
    var commands := UserLinkCommands(root.dirs);
    ExecNoted(mode, cfg, root, replies, commands);
    hide Exec, StaysInside;
    var log := Exec(mode, cfg, root, replies).log;
    forall k | 0 <= k < |log| && log[k].LinkTarget?
      ensures k > 0 && exists d | d in root.dirs && d.link == UserLink :: log[k - 1] == ListCommand(d)
    {
      assert log[k - 1] in commands;
      var d :| d in root.dirs && d.link == UserLink && ListCommand(d) == log[k - 1];
      assert log[k - 1] == ListCommand(d);
    }
  }

  lemma {:induction false} ExecInside(mode: Mode, cfg: Config, root: Root, replies: seq<Reply>, targets: set<Path>)
    requires Confined(root.dirs, targets)
    ensures StaysInside(root, Exec(mode, cfg, root, replies).log, targets)
    decreases |replies|, |root.dirs|
  {
    hide React, StaysInside, Permitted;
    if root.dirs == [] || (!IsMarker(mode, root.dirs[0]) && (replies == [] || React(mode, cfg, root, replies[0]).stop)) {
      OneCommand(mode, cfg, root, replies);
      PlainInside(root, Exec(mode, cfg, root, replies).log, targets);
    } else if IsMarker(mode, root.dirs[0]) {
      var shorter := root.(dirs := root.dirs[1..]);
      var remove := [RemoveDir(root.dirs[0].parent, root.dirs[0].subdir)];
      ExecInside(mode, cfg, shorter, replies, targets);
      SameInside(shorter, root, Exec(mode, cfg, shorter, replies).log, targets);
      PlainInside(root, remove, targets);
      assert targets + {} == targets;
      InsideConcat(root, remove, Exec(mode, cfg, shorter, replies).log, targets);
    } else {
      var r := React(mode, cfg, root, replies[0]);
      var now := targets + if r.target.Some? then {r.target.value} else {};
      var head := [ListCommand(root.dirs[0])] + r.Effects();
      ReactPlain(mode, cfg, root, replies[0]);
      ReactConfined(mode, cfg, root, replies[0], targets);
      EffectsInside(root, r, ListCommand(root.dirs[0]), targets);
      ExecInside(mode, cfg, r.root, replies[1..], now);
      SameInside(r.root, root, Exec(mode, cfg, r.root, replies[1..]).log, now);
      InsideConcat(root, head, Exec(mode, cfg, r.root, replies[1..]).log, targets);
    }
  }

  lemma OneCommand(mode: Mode, cfg: Config, root: Root, replies: seq<Reply>)
    requires root.dirs == []
          || (!IsMarker(mode, root.dirs[0]) && (replies == [] || React(mode, cfg, root, replies[0]).stop))
    ensures Plain(Exec(mode, cfg, root, replies).log)
  {
    hide React;
  }

  lemma {:induction false} SameInside(a: Root, b: Root, log: seq<Effect>, targets: set<Path>)
    requires SameRoot(a, b) && StaysInside(a, log, targets)
    ensures StaysInside(b, log, targets)
    decreases log
  {
    if log != [] {
      SameInside(a, b, log[1..], targets + if log[0].LinkTarget? then {log[0].path} else {});
    }
  }

  lemma EffectsInside(root: Root, r: Reaction, command: Effect, targets: set<Path>)
    requires Plain(r.further) && command.ListDir?
    requires var now := targets + if r.target.Some? then {r.target.value} else {};
             r.entered.Some? ==> Permitted(root, r.entered.value, now)
    ensures StaysInside(root, [command] + r.Effects(), targets)
    ensures targets + TargetsIn([command] + r.Effects()) == targets + if r.target.Some? then {r.target.value} else {}
  {
    var target := if r.target.Some? then [LinkTarget(r.target.value)] else [];
    var now := targets + if r.target.Some? then {r.target.value} else {};
    var entered := if r.entered.Some? then [Enter(r.entered.value)] else [];
    PlainInside(root, r.further, now);
    if r.entered.Some? { SingleInside(root, Enter(r.entered.value), now); }
    if r.target.Some? { SingleInside(root, LinkTarget(r.target.value), targets); }
    SingleInside(root, command, targets);
    NoneInside(root, targets);
    NoneInside(root, now);
    hide Permitted, StaysInside, TargetsIn;
    assert now + {} == now && targets + {} == targets;
    InsideConcat(root, entered, r.further, now);
    TargetsConcat(entered, r.further);
    InsideConcat(root, target, entered + r.further, targets);
    TargetsConcat(target, entered + r.further);
    InsideConcat(root, [command], r.Effects(), targets);
    TargetsConcat([command], r.Effects());
  }

  lemma SingleInside(root: Root, e: Effect, targets: set<Path>)
    requires e.Enter? ==> Permitted(root, e.path, targets)
    ensures StaysInside(root, [e], targets)
    ensures TargetsIn([e]) == if e.LinkTarget? then {e.path} else {}
  {
    hide Permitted;
    assert [e][1..] == [];
  }

  lemma NoneInside(root: Root, targets: set<Path>)
    ensures StaysInside(root, [], targets) && TargetsIn([]) == {}
  {
  }

  lemma {:induction false} TargetsConcat(a: seq<Effect>, b: seq<Effect>)
    ensures TargetsIn(a + b) == TargetsIn(a) + TargetsIn(b)
  {
    if a == [] {
      assert a + b == b;
    } else {
      assert (a + b)[1..] == a[1..] + b;
      TargetsConcat(a[1..], b);
    }
  }
}
