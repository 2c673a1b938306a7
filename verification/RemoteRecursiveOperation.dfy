/** The recursive operation as an object whose stacks change with every reply. */
module RemoteRecursiveOperation {
  import opened Options
  import opened ServerPath
  import opened RecursiveOperation
  import opened RecursionTermination

  class Operation {
    const cfg: Config
    var mode: Mode
    var roots: seq<Root>
    var log: seq<Effect>

    function State(): Op
      reads this
    {
      Op(mode, roots, log)
    }

    /** Either nothing is going on, or one listing has been asked for. */
    ghost predicate Valid()
      reads this
    {
      mode == Inactive || Waiting(State())
    }

    constructor (cfg: Config)
      ensures Valid() && mode == Inactive && roots == [] && log == [] && this.cfg == cfg
    {
      this.cfg, mode, roots, log := cfg, Inactive, [], [];
    }

    /** `AddRecursionRoot`. */
    method AddRecursionRoot(root: Root)
      requires Valid()
      modifies this
      ensures Valid() && mode == old(mode) && log == old(log)
      ensures roots == if root.dirs == [] || root.start.NoPath? then old(roots) else old(roots) + [root]
    {
      if root.dirs != [] && root.start.Path? {
        roots := roots + [root];
      }
    }

    /** `start_recursive_operation`; changing permissions needs to be told which. */
    method Start(chosen: Mode, hasChmodData: bool)
      requires Valid()
      modifies this
      ensures Valid()
      ensures State() == if old(mode) != Inactive || (chosen == Chmod && !hasChmodData) || old(roots) == [] then old(State())
                         else Next(old(State()).(mode := chosen))
    {
      if mode != Inactive {
        return;
      }
      if chosen == Chmod && !hasChmodData {
        return;
      }
      if roots == [] {
        return;
      }
      mode := chosen;
      var _ := NextOperation();
    }

    /** `NextOperation`. */
    method NextOperation() returns (pending: bool)
      modifies this
      ensures State() == Next(old(State()))
      ensures Valid() && (pending <==> Waiting(State()))
    {
      NextShrinks(State(), {});
      if mode == Inactive {
        return false;
      }
      while roots != []
        invariant mode == old(mode) && Next(State()) == Next(old(State()))
        decreases |roots|
      {
        ghost var count := |roots|;
        while roots[0].dirs != []
          invariant roots != [] && |roots| == count
          invariant mode == old(mode) && Next(State()) == Next(old(State()))
          decreases |roots[0].dirs|
        {
          var root := roots[0];
          var dir := root.dirs[0];
          if mode == Delete && !dir.doVisit {
            log := log + [RemoveDir(dir.parent, dir.subdir)];
            roots := [root.(dirs := root.dirs[1..])] + roots[1..];
          } else {
            log := log + [ListCommand(dir)];
            return true;
          }
        }
        roots := roots[1..];
        log := log + [RootDone];
      }
      mode, log := Inactive, log + [Finished];
      return false;
    }

    /** `process_entries`: the loop runs from the last entry to the first and pushes work to the front. */
    method CollectWork(listing: Listing, dir: Dir) returns (w: Work)
      ensures w == ProcessEntries(mode, cfg, listing, dir)
    {
      var dirs, effects, files := [], [], [];
      for i := |listing.entries| downto 0
        invariant Work(dirs, effects, files) == EntriesWork(mode, cfg, listing.path, dir, listing.entries[i..])
      {
        var entry := EntryWork(mode, cfg, listing.path, dir, listing.entries[i]);
        assert listing.entries[i..][1..] == listing.entries[i + 1..];
        dirs := entry.dirs + dirs;
        effects := effects + entry.effects;
        files := files + entry.files;
      }
      if mode == Delete && files != [] {
        effects := effects + [DeleteFiles(listing.path, files)];
      }
      w := Work(dirs, effects, files);
    }

    /** `ProcessDirectoryListing`; a failed listing is left to `ListingFailed`. */
    method ProcessDirectoryListing(listing: Option<Listing>, failed: bool)
      requires Valid()
      modifies this
      ensures Valid()
      ensures State() ==
              if listing.None? then old(Handled(Stopped))
              else if failed then old(State())
              else old(Handled(Listed(listing.value)))
    {
      if listing.None? {
        Stop();
        return;
      }
      if mode == Inactive || failed {
        return;
      }
      var root, effects := Digest(roots[0], listing.value);
      roots := [root] + roots[1..];
      log := log + effects;
      assert State() == old(Absorb(cfg, State(), Listed(listing.value))) by { hide ReactListed; }
      var _ := NextOperation();
    }

    /** The part of `ProcessDirectoryListing` that works on the front root. */
    method Digest(front: Root, listing: Listing) returns (root: Root, effects: seq<Effect>)
      requires front.dirs != []
      ensures var r := ReactListed(mode, cfg, front, listing);
              root == r.root && effects == r.Effects()
    {
      hide ProcessEntries, Below, Marker;
      effects := [];
      var path := listing.path;
      var v := Below(front, path, front.dirs[0]);
      root := front.(dirs := front.dirs[1..]);
      if v.below {
        if v.target.Some? {
          effects := effects + [LinkTarget(v.target.value)];
        }
        root := root.(dirs := Marker(mode, v.dir) + root.dirs);
        if !(v.dir.link != NoLink && !v.dir.recurse) && path !in root.visited {
          root := root.(visited := root.visited + {path});
          effects := effects + [Enter(path)];
          if listing.entries == [] && mode == Transfer {
            effects := effects + [EmptyDirectory(v.dir.localDir)];
          } else {
            var w := CollectWork(listing, v.dir);
            root := root.(dirs := w.dirs + root.dirs);
            effects := effects + w.effects;
          }
          effects := effects + [ListingEnd];
        }
      }
      assert [] + (Marker(mode, v.dir) + front.dirs[1..]) == Marker(mode, v.dir) + front.dirs[1..];
    }

    /** The state a reply leads to: ignored when nothing is awaited, except that a stop forgets all roots. */
    ghost function Handled(reply: Reply): Op
      reads this
      requires Valid()
    {
      if mode == Inactive then (if reply.Stopped? then Op(Inactive, [], log) else State())
      else Handle(cfg, State(), reply)
    }

    /** `StopRecursiveOperation`. */
    method Stop()
      requires Valid()
      modifies this
      ensures Valid() && State() == Op(Inactive, [], old(log)) && State() == old(Handled(Stopped))
    {
      mode, roots := Inactive, [];
    }

    /** `ListingFailed`. */
    method ListingFailed(canceled: bool, critical: bool)
      requires Valid()
      modifies this
      ensures Valid()
      ensures State() ==
              if old(mode) == Inactive then old(State())
              else if canceled then old(Handled(Stopped))
              else old(Handled(Failed(critical)))
    {
      if mode == Inactive {
        return;
      }
      if canceled {
        Stop();
        return;
      }
      var root := roots[0];
      var dir := root.dirs[0];
      root := root.(dirs := root.dirs[1..]);
      if !critical && !dir.secondTry {
        root := root.(dirs := [dir.(secondTry := true)] + root.dirs);
      } else {
        root := root.(dirs := Marker(mode, dir) + root.dirs);
      }
      roots := [root] + roots[1..];
      assert log + [] == log;
      assert State() == old(Absorb(cfg, State(), Failed(critical)));
      var _ := NextOperation();
    }

    /** `LinkIsNotDir`. */
    method LinkIsNotDir(hasSite: bool)
      requires Valid()
      modifies this
      ensures Valid()
      ensures State() == old(Handled(NotDir(hasSite)))
    {
      if mode == Inactive {
        return;
      }
      var root := roots[0];
      var dir := root.dirs[0];
      roots := [root.(dirs := root.dirs[1..])] + roots[1..];
      if hasSite {
        if mode == Delete {
          if dir.subdir != "" {
            log := log + [DeleteFiles(dir.parent, [dir.subdir])];
          }
        } else if mode != ListOnly {
          var local := if mode == TransferFlatten then dir.localDir else ParentOf(dir.localDir);
          log := log + [InvalidLink(dir.subdir, local, dir.parent)];
        }
      }
      assert log + [] == log;
      assert State() == old(Absorb(cfg, State(), NotDir(hasSite)));
      var _ := NextOperation();
    }
  }
}
