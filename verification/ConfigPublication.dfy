/**
  Publication of one `config.json`: a candidate file is reserved under a random name, its inode is
  recorded, its contents are written through the open descriptor, and then it is renamed into place.

  The rename runs in a helper process that can be killed between its system calls, so its exit status
  proves little. What settles the outcome is whether the destination names the inode of the descriptor
  that is still open, because an installation that wrongly believes it failed erases that inode.
*/
module ConfigPublication {
  import opened Options

  type Inode = nat

  const CONFIG := "config.json"

  datatype Node = File(text: string) | Other

  /** One look at the target directory, as another process may leave it. */
  datatype World = World(names: map<string, Inode>, nodes: map<Inode, Node>)

  /** How a helper process fares: to its end, stopped by the directory check, or killed after some calls. */
  datatype Helper = Completes | WrongDirectory | Killed(calls: nat)

  datatype Status = Zero | Exists | Wrong | Unknown

  datatype Renamed = Done(moved: bool) | Threw

  datatype Outcome = Installed | Untracked | Failed

  /** The durable journal: which name and inode the candidate had, and whether the record is committed. */
  datatype Journal = Journal(candidate: string, ino: Inode, text: string, committed: bool)

  /** Everything an installation does not decide: chance, failures, and other processes. */
  datatype Course = Course(
    names: seq<string>, ino: Inode, commits: bool, beforePublish: Option<World>, stable: bool,
    partial: Option<string>, stillStable: bool, beforeReplace: Option<World>,
    helper: Helper, cleanup: Helper, synced: bool, erases: bool)
  {
    /** The random names of the at most four attempts. */
    function Tries(): seq<string> { if |names| < 4 then names else names[..4] }

    predicate Quiet() { beforePublish.None? && beforeReplace.None? }

    /** While the candidate is being published, another process gives it the published name by itself. */
    predicate Planted(w: World) {
      && commits && beforePublish.Some? && Possible(w, beforePublish.value)
      && Lookup(beforePublish.value.names, CONFIG) == Some(ino)
    }

    /**
      The run ends without having looked at what the published name names: it fails before the rename, or its
      rename does not look.
    */
    predicate Blind(windows: bool, replace: bool, candidate: string) {
      !stable || partial.Some? || !stillStable
      || (beforePublish.Some? && Overlooks(beforePublish.value, windows, replace, candidate))
    }

    /**
      A rename that fails because the published name is taken, whoever took it: every no-replace one on POSIX;
      on Windows it takes a changed directory, or a file of somebody else's at the candidate's name.
    */
    predicate Overlooks(w: World, windows: bool, replace: bool, candidate: string) {
      !replace && (!windows || helper.WrongDirectory? || Stolen(w, candidate, ino, helper))
    }

    /** The rename is reached. */
    predicate Reaches() { commits && stable && partial.None? && stillStable }

    /** What the rename finds, from the disk with the candidate written. */
    function Found(written: World, replace: bool): World {
      if replace && beforeReplace.Some? && Possible(written, beforeReplace.value) then beforeReplace.value else written
    }

    /** The disk with the candidate written. */
    function Written(w: World, text: string): World {
      var planted := if beforePublish.Some? && Possible(w, beforePublish.value) then beforePublish.value else w;
      planted.(nodes := planted.nodes[ino := File(text)])
    }

    /**
      The rename publishes somebody else's entry, which stands at the candidate's name by then, and reports
      success: the exit status of a helper that finishes is believed.
    */
    predicate Believes(found: World, windows: bool, replace: bool, candidate: string) {
      && helper.Completes? && candidate in found.names && found.names[candidate] != ino
      && (replace || CONFIG !in found.names)
      && (windows && !replace ==> Holds(found, candidate, found.names[candidate]))
    }

    predicate Misled(w: World, windows: bool, replace: bool, text: string, candidate: string) {
      Reaches() && Believes(Found(Written(w, text), replace), windows, replace, candidate)
    }

    /** The disk once a candidate is reserved. */
    function Reserved(w: World, candidate: string): World {
      World(w.names[candidate := ino], w.nodes[ino := File("")])
    }

    predicate Misleads(w: World, windows: bool, replace: bool, text: string) {
      var candidate := FirstFree(Tries(), w.names);
      && (replace || CONFIG !in w.names) && candidate.Some?
      && Misled(Reserved(w, candidate.value), windows, replace, text, candidate.value)
    }

    /** What stands at the candidate's name when the rename comes. */
    function Renamed(w: World, replace: bool, text: string): Option<Inode> {
      var candidate := FirstFree(Tries(), w.names);
      if candidate.None? then None
      else Lookup(Found(Written(Reserved(w, candidate.value), text), replace).names, candidate.value)
    }

    /** It takes both, on a disk where the run gets as far as a candidate. */
    predicate Exposes(w: World, windows: bool, replace: bool) {
      var candidate := FirstFree(Tries(), w.names);
      && (replace || CONFIG !in w.names) && candidate.Some?
      && Planted(Reserved(w, candidate.value))
      && Blind(windows, replace, candidate.value)
    }
  }

  /** The first of these names that is not taken. */
  function FirstFree(tries: seq<string>, taken: map<string, Inode>): (r: Option<string>)
    ensures r.None? <==> forall n | n in tries :: n in taken
    ensures r.Some? ==> r.value in tries && r.value !in taken
  {
    if tries == [] then None else if tries[0] !in taken then Some(tries[0]) else FirstFree(tries[1..], taken)
  }

  /** The Windows helper: link the source to the destination, then unlink the source. */
  function LinkThenUnlink(w: World, src: string, dst: string, h: Helper): (r: (map<string, Inode>, Status))
    ensures r.1.Zero? ==>
      src in w.names && dst !in w.names && Holds(w, src, w.names[src]) && r.0 == w.names[dst := w.names[src]] - {src}
    ensures r.1.Exists? ==> dst in w.names && r.0 == w.names
    ensures r.0 != w.names ==> src in w.names && dst !in w.names
    ensures r.0 != w.names ==> r.0 == w.names[dst := w.names[src]] || r.0 == w.names[dst := w.names[src]] - {src}
  {
    if h.WrongDirectory? then (w.names, Wrong)
    else if h == Killed(0) || src !in w.names then (w.names, Unknown)
    else if w.names[src] !in w.nodes || w.nodes[w.names[src]].Other? then (w.names, Unknown)
    else if dst in w.names then (w.names, if h.Completes? then Exists else Unknown)
    else
      var linked := w.names[dst := w.names[src]];
      if h == Killed(1) then (linked, Unknown) else (linked - {src}, if h.Completes? then Zero else Unknown)
  }

  /** The cleanup helper: unlink the candidate name if it is one of two names of the published inode. */
  function Tidied(w: World, candidate: string, published: string, expected: Inode, h: Helper): map<string, Inode> {
    if h.Completes? || (h.Killed? && h.calls > 0) then
      if Tidy(w, candidate, published, expected) then w.names - {candidate} else w.names
    else w.names
  }

  predicate Tidy(w: World, candidate: string, published: string, expected: Inode) {
    && Holds(w, published, expected) && Holds(w, candidate, expected)
    && exists other | other in w.names :: other != candidate && w.names[other] == expected
  }

  /** The name belongs to this inode, and it is a regular file. */
  predicate Holds(w: World, name: string, i: Inode) {
    name in w.names && w.names[name] == i && i in w.nodes && w.nodes[i].File?
  }

  /** What another process may leave behind: it cannot take an open inode away or change its kind. */
  predicate Possible(before: World, after: World) {
    && after.names.Values <= after.nodes.Keys
    && forall i | i in before.nodes :: i in after.nodes && after.nodes[i].File? == before.nodes[i].File?
  }

  /** The helper finished, but another process had put a file of its own at the source name. */
  predicate Stolen(w: World, src: string, fd: Inode, h: Helper) {
    h.Completes? && src in w.names && w.names[src] != fd && Holds(w, src, w.names[src])
  }

  /**
    An input where it happens: a user hard-links the candidate to `config.json` before it is written. On POSIX
    the rename finds the name taken, and the file is erased; Windows, and a replacing rename, look first.
  */
  lemma LinkedTooEarly(w: World, linked: World, c: Course)
    requires w == World(map[], map[]) && linked == World(map[CONFIG := 7], map[7 := File("")])
    requires c == Course(["candidate"], 7, true, Some(linked), true, None, true, None, Completes, Completes, true, true)
    ensures c.Exposes(w, false, false) && !c.Exposes(w, true, false) && !c.Exposes(w, false, true)
  {
    assert c.Tries() == ["candidate"];
    assert w.names["candidate" := 7] == map["candidate" := 7];
    assert linked.names[CONFIG] == 7;
    assert Possible(World(w.names["candidate" := 7], w.nodes[7 := File("")]), linked);
  }

  /**
    An input where the run is misled: a user's file takes the candidate's name right before a replacing rename.
    The helper that finishes publishes that file, and the installation is reported; a killed one is not believed.
  */
  lemma CandidateTaken(w: World, theirs: World, c: Course, windows: bool)
    requires w == World(map[CONFIG := 5], map[5 := File("old")])
    requires theirs == World(
      map[CONFIG := 5, "candidate" := 8], map[5 := File("old"), 7 := File("new"), 8 := File("theirs")])
    requires c == Course(["candidate"], 7, true, None, true, None, true, Some(theirs), Completes, Completes, true, true)
    ensures c.Misleads(w, windows, true, "new") && c.Renamed(w, true, "new") == Some(8)
    ensures !c.(helper := Killed(1)).Misleads(w, windows, true, "new")
  {
    assert c.Tries() == ["candidate"] && c.(helper := Killed(1)).Tries() == ["candidate"];
    assert w.names[CONFIG] == 5;
    var written := c.Written(c.Reserved(w, "candidate"), "new");
    assert Possible(written, theirs);
    assert c.Found(written, true) == theirs && theirs.names["candidate"] == 8;
  }

  /**
    An input where start-up erases the published file: on Windows a helper killed between its two calls left
    both names, and the user edited the file.
  */
  method EditedConfigErased(d: Directory)
    requires d.world == World(map[CONFIG := 7, "candidate" := 7], map[7 := File("edited")])
    requires d.journal == Some(Journal("candidate", 7, "text", false)) && d.erased == {} && !d.crashed
    modifies d
    ensures !d.crashed ==>
      Lookup(d.world.names, CONFIG) == Some(7) && Lookup(d.world.nodes, 7) == Some(File("")) && d.journal.None?
  {
    assert d.world.names[CONFIG] == 7 && d.world.names["candidate"] == 7;
    var settled := d.Reconcile(true, None, Completes, true, true);
  }

  /** One later life: the steps it completes, its cleanup helper, and whether erasing and saving work. */
  datatype Life = Life(steps: nat, cleanup: Helper, erases: bool, saves: bool) {
    predicate Benign(windows: bool) { erases && saves && (windows ==> cleanup.Completes?) }
  }

  class Directory {
    var world: World
    var journal: Option<Journal>
    var fuel: nat
    var crashed: bool
    /** Inodes this process has written to or truncated. */
    ghost var touched: set<Inode>
    ghost var erased: set<Inode>

    ghost predicate Valid()
      reads this
    {
      world.names.Values <= world.nodes.Keys
    }

    method Tick()
      modifies this`fuel, this`crashed
      ensures crashed == (old(crashed) || old(fuel) == 0)
    {
      if fuel == 0 {
        crashed := true;
      } else {
        fuel := fuel - 1;
      }
    }

    method Restart(steps: nat)
      requires Valid()
      modifies this`fuel, this`crashed
      ensures Valid() && fuel == steps && !crashed
    {
      fuel, crashed := steps, false;
    }

    /** Other processes rename, link, unlink, create and edit; open inodes survive and keep their kind. */
    method Meddle(w: Option<World>)
      requires Valid()
      modifies this`world
      ensures Valid() && (crashed || w.None? ==> world == old(world))
      ensures world == if w.Some? && !crashed && Possible(old(world), w.value) then w.value else old(world)
      ensures forall i | i in old(world).nodes :: i in world.nodes && world.nodes[i].File? == old(world).nodes[i].File?
    {
      if w.Some? && !crashed && Possible(world, w.value) {
        world := w.value;
      }
    }

    /** Write through the open descriptor. */
    method Put(fd: Inode, text: string)
      requires Valid() && fd in world.nodes
      modifies this`world, this`fuel, this`crashed, this`touched
      ensures Valid() && crashed == (old(crashed) || old(fuel) == 0)
      ensures world == if crashed then old(world) else old(world).(nodes := old(world).nodes[fd := File(text)])
      ensures touched <= old(touched) + {fd}
    {
      Tick();
      if !crashed {
        world := world.(nodes := world.nodes[fd := File(text)]);
        touched := touched + {fd};
      }
    }

    /**
      Rename without replacing. `fd` is the open candidate. Native on POSIX; on Windows a helper whose
      death is settled by looking at what the destination names.
    */
    method RenameNoReplace(windows: bool, src: string, dst: string, fd: Inode, h: Helper, cleanup: Helper)
      returns (r: Renamed)
      requires Valid() && src != dst
      modifies this`world, this`fuel, this`crashed
      ensures Valid() && world.nodes == old(world).nodes && (old(crashed) ==> crashed && world == old(world))
      ensures !old(crashed) && windows && !h.WrongDirectory? && !Stolen(old(world), src, fd, h) ==>
        (r == Done(true) <==> Holds(world, dst, fd))
      ensures !old(crashed) && windows && Stolen(old(world), src, fd, h) ==>
        (r == Done(true) <==> dst !in old(world).names)
      ensures windows && h.WrongDirectory? ==> r == Threw && world == old(world)
      ensures !crashed && !windows ==>
        (r == Done(true) <==> src in old(world).names && dst !in old(world).names && h.Completes?)
      ensures !old(crashed) && !windows && r != Done(true) ==> world == old(world)
      ensures dst in old(world).names ==> Lookup(world.names, dst) == Lookup(old(world).names, dst)
      ensures dst in world.names && dst !in old(world).names ==>
        src in old(world).names && world.names[dst] == old(world).names[src]
      ensures forall n | n != src && n != dst :: Lookup(world.names, n) == Lookup(old(world).names, n)
      ensures src in old(world).names && src !in world.names ==>
        dst in world.names && world.names[dst] == old(world).names[src]
      ensures src in world.names ==> Lookup(world.names, src) == Lookup(old(world).names, src)
      ensures !old(crashed) && r == Done(false) ==> dst in old(world).names
      ensures !crashed && r == Done(true) ==> dst in world.names
      ensures !crashed && Holds(old(world), src, fd) && dst !in old(world).names ==>
        (Lookup(world.names, dst) == Some(fd) <==> h.Completes? || (windows && h.Killed? && h.calls > 0))
      ensures !crashed && r == Done(true) && (windows ==> cleanup.Completes?) && Holds(old(world), src, fd) ==>
        src !in world.names
    {
      if crashed {
        return Threw;
      }
      if !windows {
        Tick();
        if crashed || !h.Completes? || src !in world.names {
          return Threw;
        }
        if dst in world.names {
          return Done(false);
        }
        world := world.(names := world.names[dst := world.names[src]] - {src});
        return Done(true);
      }
      var ran := LinkThenUnlink(world, src, dst, h);
      world := world.(names := ran.0);
      Tick();
      if ran.1.Zero? {
        return Done(true);
      }
      if ran.1.Wrong? {
        return Threw;
      }
      if Holds(world, src, fd) && Holds(world, dst, fd) {
        if !crashed {
          world := world.(names := Tidied(world, src, dst, fd, cleanup));
        }
        return Done(true);
      }
      if ran.1.Exists? {
        return Done(false);
      }
      return if Holds(world, dst, fd) then Done(true) else Threw;
    }

    /**
      Rename over the destination, in a helper on every platform; returns normally or throws. A helper that
      finishes is believed, whatever it found at the source; after any other ending the destination decides.
    */
    method RenameReplace(src: string, dst: string, fd: Inode, h: Helper) returns (ok: bool)
      requires Valid() && src != dst && fd in world.nodes && world.nodes[fd].File?
      modifies this`world, this`fuel, this`crashed
      ensures Valid() && world.nodes == old(world).nodes && (old(crashed) ==> crashed && world == old(world))
      ensures !old(crashed) ==>
        ((ok <==> Holds(world, dst, fd)) <==>
          !(h.Completes? && src in old(world).names && old(world).names[src] != fd))
      ensures !old(crashed) && h.Completes? && src in old(world).names ==>
        ok && Lookup(world.names, dst) == Some(old(world).names[src])
      ensures
        || Lookup(world.names, dst) == Lookup(old(world).names, dst)
        || Lookup(world.names, dst) == Lookup(old(world).names, src)
      ensures !old(crashed) && !ok ==> !Holds(world, dst, fd)
      ensures forall n | n != src && n != dst :: Lookup(world.names, n) == Lookup(old(world).names, n)
      ensures src in old(world).names && src !in world.names ==>
        dst in world.names && world.names[dst] == old(world).names[src]
      ensures src in world.names ==> Lookup(world.names, src) == Lookup(old(world).names, src)
      ensures !old(crashed) && Lookup(old(world).names, src) == Some(fd) != Lookup(old(world).names, dst) ==>
        (Lookup(world.names, dst) == Some(fd) <==> h.Completes? || (h.Killed? && h.calls > 0))
      ensures Lookup(world.names, dst) == Some(fd) != Lookup(old(world).names, dst) ==> src !in world.names
    {
      if crashed {
        return false;
      }
      var moves := src in world.names && (h.Completes? || (h.Killed? && h.calls > 0));
      if moves && Lookup(world.names, dst) != Lookup(world.names, src) {
        world := world.(names := world.names[dst := world.names[src]] - {src});
      }
      Tick();
      ok := (moves && h.Completes?) || Holds(world, dst, fd);
    }

    /** Create an empty candidate under one of at most four random names. */
    method Reserve(c: Course) returns (candidate: Option<string>)
      requires Valid() && c.ino !in world.nodes && CONFIG !in c.names
      modifies this`world, this`fuel, this`crashed
      ensures Valid() && (old(crashed) ==> crashed && world == old(world))
      ensures candidate.None? || crashed ==> world == old(world)
      ensures candidate == FirstFree(c.Tries(), old(world).names)
      ensures candidate.None? <==> forall n | n in c.Tries() :: n in old(world).names
      ensures candidate.Some? ==> candidate.value != CONFIG
      ensures candidate.Some? && !crashed ==>
        && candidate.value !in old(world).names
        && world == World(old(world).names[candidate.value := c.ino], old(world).nodes[c.ino := File("")])
    {
      var tries := c.Tries();
      var i := 0;
      while i < |tries|
        invariant world == old(world) && Valid() && (old(crashed) ==> crashed)
        invariant 0 <= i <= |tries| && FirstFree(tries, world.names) == FirstFree(tries[i..], world.names)
      {
        if tries[i] !in world.names {
          Tick();
          if !crashed {
            world := World(world.names[tries[i] := c.ino], world.nodes[c.ino := File("")]);
          }
          return Some(tries[i]);
        }
        i := i + 1;
      }
      return None;
    }

    /** Save the lockfile; a failed save leaves the old one. */
    method Save(j: Option<Journal>, ok: bool)
      modifies this`journal, this`fuel, this`crashed
      ensures crashed == (old(crashed) || old(fuel) == 0)
      ensures journal == if ok && !crashed then j else old(journal)
    {
      Tick();
      if ok && !crashed {
        journal := j;
      }
    }

    /** The published name is as it was, or it names the complete candidate; no other file was touched. */
    ghost predicate Sound(before: World, ino: Inode, text: string)
      reads this
    {
      && (Lookup(world.names, CONFIG) == Lookup(before.names, CONFIG)
          || (Holds(world, CONFIG, ino) && world.nodes[ino] == File(text)))
      && forall i | i in before.nodes && i != ino :: i in world.nodes && world.nodes[i] == before.nodes[i]
    }

    /** The published file is the journaled candidate, and it is complete. */
    predicate Intact(j: Journal)
      reads this
    {
      Holds(world, CONFIG, j.ino) && world.nodes[j.ino] == File(j.text)
    }

    /** An undisturbed first publication: its journal, if it was saved, names a file that can still be told. */
    ghost predicate Journaled(ino: Inode, text: string)
      reads this
    {
      && (Lookup(world.names, CONFIG) == Some(ino) ==> journal.Some? && Intact(journal.value) && ino !in erased)
      && (journal.Some? ==>
            && journal.value.candidate != CONFIG && !journal.value.committed
            && journal.value.ino == ino && journal.value.text == text
            && (Lookup(world.names, journal.value.candidate) == Some(ino)
                || (Intact(journal.value) && journal.value.candidate !in world.names)))
    }

    /** A first publication, on its way or at one of its two ends: committed and complete, or nothing at all. */
    ghost predicate Accounted(ino: Inode, text: string)
      reads this
    {
      if journal.Some? && journal.value.committed then
        journal.value.ino == ino && journal.value.text == text && Intact(journal.value) && ino !in erased
      else
        Journaled(ino, text)
    }

    /** The rename, after what other processes do right before a replacing one. */
    method Expose(windows: bool, replace: bool, candidate: string, c: Course) returns (r: Renamed)
      requires Valid() && candidate != CONFIG && c.ino in world.nodes && world.nodes[c.ino].File?
      modifies this`world, this`fuel, this`crashed
      ensures Valid() && c.ino in world.nodes && world.nodes[c.ino].File?
      ensures old(crashed) ==> crashed && world == old(world)
      ensures !crashed ==>
        var found := c.Found(old(world), replace);
        var misled := c.Believes(found, windows, replace, candidate);
        var published := Lookup(world.names, CONFIG) == Some(c.ino);
        var overlooked := Lookup(found.names, CONFIG) == Some(c.ino) && c.Overlooks(found, windows, replace, candidate);
        && (r == Done(true) <==> misled || (published && !overlooked))
        && (r != Done(true) ==> (published <==> overlooked))
        && (misled ==> Lookup(world.names, CONFIG) == Lookup(found.names, candidate) != Some(c.ino))
      ensures !old(crashed) ==> world.nodes == c.Found(old(world), replace).nodes
      ensures c.Quiet() ==>
        && (r == Done(true) && !crashed && Lookup(old(world).names, candidate) == Some(c.ino) ==>
              Holds(world, CONFIG, c.ino))
        && (Lookup(world.names, CONFIG) == Lookup(old(world).names, CONFIG)
            || Lookup(world.names, CONFIG) == Lookup(old(world).names, candidate))
        && (candidate in world.names ==> Lookup(world.names, candidate) == Lookup(old(world).names, candidate))
        && (candidate in old(world).names && candidate !in world.names ==>
              Lookup(world.names, CONFIG) == Lookup(old(world).names, candidate))
      ensures
        var was, published := Lookup(old(world).names, candidate), Lookup(old(world).names, CONFIG);
        c.Quiet() && !crashed && was == Some(c.ino) != published ==>
        (Lookup(world.names, CONFIG) == Some(c.ino) <==>
          (replace || CONFIG !in old(world).names)
          && (c.helper.Completes? || ((windows || replace) && c.helper.Killed? && c.helper.calls > 0)))
      ensures c.Quiet() ==> forall n | n != CONFIG && n != candidate ::
        Lookup(world.names, n) == Lookup(old(world).names, n)
      ensures
        var was, published := Lookup(old(world).names, candidate), Lookup(old(world).names, CONFIG);
        var tidied := windows && !replace ==> c.cleanup.Completes?;
        var moved := was == Some(c.ino) != published && Lookup(world.names, CONFIG) == Some(c.ino);
        c.Quiet() && !crashed && moved && tidied ==> candidate !in world.names
    {
      if replace {
        Meddle(c.beforeReplace);
        var ok := RenameReplace(candidate, CONFIG, c.ino, c.helper);
        r := if ok then Done(true) else Threw;
      } else {
        r := RenameNoReplace(windows, candidate, CONFIG, c.ino, c.helper, c.cleanup);
      }
    }

    /** The candidate's way to its name. `owned` says whether the caller must erase it. */
    method Publish(windows: bool, replace: bool, text: string, candidate: string, c: Course)
      returns (r: Outcome, owned: bool)
      requires Valid() && candidate != CONFIG && c.ino in world.nodes && world.nodes[c.ino].File?
      requires !crashed ==>
        Lookup(world.names, candidate) == Some(c.ino) && Lookup(world.names, CONFIG) != Some(c.ino)
      modifies this
      ensures Valid() && c.ino in world.nodes && world.nodes[c.ino].File?
      ensures old(crashed) ==> crashed && world == old(world)
      ensures touched <= old(touched) + {c.ino} && erased == old(erased)
      ensures journal == old(journal) || journal == Some(Journal(candidate, c.ino, text, false))
      ensures !crashed ==>
        var blind := c.Planted(old(world)) && c.Blind(windows, replace, candidate);
        var misled := c.Misled(old(world), windows, replace, text, candidate);
        var published := Lookup(world.names, CONFIG) == Some(c.ino);
        && (owned && published <==> blind)
        && (owned <==> blind || (!published && !misled))
        && (misled ==>
              && !published
              && Lookup(world.names, CONFIG) == Lookup(c.Found(c.Written(old(world), text), replace).names, candidate))
      ensures r.Installed? <==> !owned && c.synced
      ensures !owned && !crashed && (replace ==> c.beforeReplace.None?) ==> world.nodes[c.ino] == File(text)
      ensures c.Quiet() ==> Sound(old(world), c.ino, text)
      ensures c.Quiet() && !old(crashed) && old(journal).None? && c.ino !in old(erased) ==> Journaled(c.ino, text)
      ensures c.Quiet() && !crashed ==>
        (owned <==> Lookup(world.names, CONFIG) == Lookup(old(world).names, CONFIG))
      ensures c.Quiet() && !crashed ==>
        (Lookup(world.names, CONFIG) == Some(c.ino) <==>
          c.commits && c.stable && c.partial.None? && c.stillStable && (replace || CONFIG !in old(world).names)
          && (c.helper.Completes? || ((windows || replace) && c.helper.Killed? && c.helper.calls > 0)))
      ensures c.Quiet() ==> forall n | n != CONFIG && n != candidate ::
        Lookup(world.names, n) == Lookup(old(world).names, n)
      ensures
        var tidied := windows && !replace ==> c.cleanup.Completes?;
        c.Quiet() && !crashed && Lookup(world.names, CONFIG) == Some(c.ino) && tidied ==> candidate !in world.names
      ensures c.Quiet() && !old(crashed) && candidate in world.names ==> world.names[candidate] == c.ino
    {
      owned := true;
      Save(Some(Journal(candidate, c.ino, text, false)), c.commits);
      if !c.commits {
        return Failed, owned;
      }
      Meddle(c.beforePublish);
      if !c.stable {
        return Failed, owned;
      }
      Put(c.ino, if c.partial.Some? then c.partial.value else text);
      if c.partial.Some? || !c.stillStable {
        return Failed, owned;
      }
      assert !crashed ==> world == c.Written(old(world), text);
      var moved := Expose(windows, replace, candidate, c);
      if moved != Done(true) {
        return if moved.Done? then Untracked else Failed, owned;
      }
      owned := false;
      return if c.synced then Installed else Failed, owned;
    }

    /** Empty the candidate through its open descriptor. */
    method Erase(fd: Inode, works: bool)
      requires Valid() && fd in world.nodes
      modifies this
      ensures Valid() && journal == old(journal) && crashed == (old(crashed) || old(fuel) == 0)
      ensures world == if crashed || !works then old(world) else old(world).(nodes := old(world).nodes[fd := File("")])
      ensures erased == if crashed || !works then old(erased) else old(erased) + {fd}
      ensures touched <= old(touched) + {fd}
    {
      Tick();
      if !crashed && works {
        world := world.(nodes := world.nodes[fd := File("")]);
        touched, erased := touched + {fd}, erased + {fd};
      }
    }

    /** From the reserved candidate to the end of the run: publish it, and erase it if that did not happen. */
    method PublishOrErase(windows: bool, replace: bool, text: string, candidate: string, c: Course)
      returns (r: Outcome)
      requires Valid() && candidate != CONFIG && c.ino in world.nodes && world.nodes[c.ino].File?
      requires !crashed && c.ino !in erased
      requires Lookup(world.names, candidate) == Some(c.ino) && Lookup(world.names, CONFIG) != Some(c.ino)
      modifies this
      ensures Valid() && touched <= old(touched) + {c.ino} && erased <= old(erased) + {c.ino}
      ensures c.ino in world.nodes && world.nodes[c.ino].File?
      ensures !crashed ==>
        var blind := c.Planted(old(world)) && c.Blind(windows, replace, candidate);
        var misled := c.Misled(old(world), windows, replace, text, candidate);
        var published := Lookup(world.names, CONFIG) == Some(c.ino);
        && (c.ino in erased && published <==> c.erases && blind)
        && (r.Installed? <==> c.synced && (misled || (published && !blind)))
        && (misled ==>
              && !published
              && Lookup(world.names, CONFIG) == Lookup(c.Found(c.Written(old(world), text), replace).names, candidate))
        && (r.Installed? && published && (replace ==> c.beforeReplace.None?) ==> world.nodes[c.ino] == File(text))
      ensures c.Quiet() ==> Sound(old(world), c.ino, text)
      ensures c.Quiet() && !crashed ==> (r.Installed? <==> Lookup(world.names, CONFIG) == Some(c.ino) && c.synced)
      ensures c.Quiet() && old(journal).None? ==> Journaled(c.ino, text)
      ensures c.Quiet() && !crashed ==>
        (Lookup(world.names, CONFIG) == Some(c.ino) <==>
          c.commits && c.stable && c.partial.None? && c.stillStable && (replace || CONFIG !in old(world).names)
          && (c.helper.Completes? || ((windows || replace) && c.helper.Killed? && c.helper.calls > 0)))
      ensures c.Quiet() ==> forall n | n != CONFIG && n != candidate ::
        Lookup(world.names, n) == Lookup(old(world).names, n)
      ensures
        var tidied := windows && !replace ==> c.cleanup.Completes?;
        c.Quiet() && !crashed && Lookup(world.names, CONFIG) == Some(c.ino) && tidied ==> candidate !in world.names
      ensures c.Quiet() && !old(crashed) && candidate in world.names ==> world.names[candidate] == c.ino
    {
      hide Course.Planted, Course.Blind, Course.Misled, Course.Found, Course.Written, Possible;
      var owned;
      r, owned := Publish(windows, replace, text, candidate, c);
      if owned {
        Erase(c.ino, c.erases);
      }
    }

    /**
      Install one config. Only the candidate is ever written to, and whatever kills a helper, a candidate
      that the run published is not erased. One that another process published is, exactly if the run does
      not look at the published name after that. An installation is reported exactly if the candidate is the
      published file and the run looked, or if the run was misled about what it published.
    */
    method Install(windows: bool, replace: bool, text: string, c: Course) returns (r: Outcome)
      requires Valid() && !crashed && c.ino !in world.nodes && c.ino !in erased && CONFIG !in c.names
      modifies this
      ensures Valid() && touched <= old(touched) + {c.ino} && erased <= old(erased) + {c.ino}
      ensures !crashed ==>
        var exposed := c.Exposes(old(world), windows, replace);
        var misled := c.Misleads(old(world), windows, replace, text);
        var published := Lookup(world.names, CONFIG) == Some(c.ino);
        && (c.ino in erased && published <==> c.erases && exposed)
        && (r.Installed? <==> c.synced && (misled || (published && !exposed)))
        && (misled ==> !published && Lookup(world.names, CONFIG) == c.Renamed(old(world), replace, text))
        && (r.Installed? && published && (replace ==> c.beforeReplace.None?) ==> world.nodes[c.ino] == File(text))
      ensures c.Quiet() ==> Sound(old(world), c.ino, text)
      ensures c.Quiet() && !crashed ==> (r.Installed? <==> Lookup(world.names, CONFIG) == Some(c.ino) && c.synced)
      ensures c.Quiet() && old(journal).None? && Lookup(old(world).names, CONFIG) != Some(c.ino) ==>
        Journaled(c.ino, text)
      ensures c.ino in erased ==> c.ino in world.nodes && world.nodes[c.ino].File?
      ensures c.Quiet() && c.ino in world.nodes && c.ino !in old(world).nodes ==> world.nodes[c.ino].File?
      ensures CONFIG in old(world).names && !replace ==>
        r.Untracked? && world == old(world) && journal == old(journal)
      ensures c.Quiet() && !crashed && Lookup(old(world).names, CONFIG) != Some(c.ino) ==>
        (Lookup(world.names, CONFIG) == Some(c.ino) <==>
          FirstFree(c.Tries(), old(world).names).Some?
          && c.commits && c.stable && c.partial.None? && c.stillStable && (replace || CONFIG !in old(world).names)
          && (c.helper.Completes? || ((windows || replace) && c.helper.Killed? && c.helper.calls > 0)))
      ensures
        var tidied := windows && !replace ==> c.cleanup.Completes?;
        c.Quiet() ==> forall n | n != CONFIG ::
          Lookup(world.names, n) == Lookup(old(world).names, n) || (
            && FirstFree(c.Tries(), old(world).names) == Some(n)
            && (n in world.names ==> world.names[n] == c.ino)
            && (!crashed && Lookup(world.names, CONFIG) == Some(c.ino) && tidied ==> n !in world.names))
    {
      hide Course.Planted, Course.Blind, Course.Misled, Course.Found, Course.Written, Possible, FirstFree;
      if !replace && CONFIG in world.names {
        return Untracked;
      }
      var candidate := Reserve(c);
      if candidate.None? {
        return Failed;
      }
      if crashed {
        return Failed;
      }
      r := PublishOrErase(windows, replace, text, candidate.value, c);
    }

    /** The candidate's name has gone to another file. */
    predicate Displaced(j: Journal)
      reads this
    {
      j.candidate in world.names && !Holds(world, j.candidate, j.ino)
    }

    /** The published file has these contents. */
    predicate Reads(text: string)
      reads this
    {
      CONFIG in world.names && Lookup(world.nodes, world.names[CONFIG]) == Some(File(text))
    }

    /** The candidate may be given up: its name still holds it and, in an upgrade, the stable file is in place. */
    predicate Discardable(j: Journal, stable: Option<string>)
      reads this
    {
      Holds(world, j.candidate, j.ino) && (stable.Some? ==> Reads(stable.value))
    }

    /**
      Start-up reconciliation of a first installation or, with the text of the stable file, of an upgrade: keep
      what is wholly published, else erase the candidate and forget it. `false` leaves the journal for another run.
    */
    method Reconcile(windows: bool, stable: Option<string>, cleanup: Helper, erases: bool, saves: bool)
      returns (settled: bool)
      requires Valid() && !crashed && journal.Some? && !journal.value.committed && journal.value.candidate != CONFIG
      modifies this
      ensures Valid() && touched <= old(touched) + {old(journal).value.ino}
      ensures !crashed && settled && saves ==>
        if old(Intact(journal.value)) then
          journal == Some(old(journal).value.(committed := true)) && Intact(old(journal).value)
        else
          journal.None? && Lookup(world.names, old(journal).value.candidate) == Some(old(journal).value.ino)
      ensures !crashed && !old(Intact(journal.value)) && erases ==>
        (settled <==> old(Discardable(journal.value, stable)))
      ensures old(Intact(journal.value)) ==> Intact(old(journal).value) && erased == old(erased)
      ensures !settled || crashed || !saves ==> journal == old(journal) || (settled && saves)
      ensures !crashed && old(Intact(journal.value)) ==>
        (settled <==> !windows || (cleanup.Completes? && !old(Displaced(journal.value))))
      ensures Lookup(world.names, CONFIG) == Lookup(old(world).names, CONFIG)
      ensures journal.Some? && journal.value.committed ==> Intact(journal.value)
      ensures old(Journaled(journal.value.ino, journal.value.text)) ==>
        Accounted(old(journal).value.ino, old(journal).value.text)
      ensures forall i | i in old(world).nodes && i != old(journal).value.ino ::
        i in world.nodes && world.nodes[i] == old(world).nodes[i]
      ensures world.nodes.Keys == old(world).nodes.Keys
      ensures forall i | i in old(world).nodes && old(world).nodes[i].File? :: world.nodes[i].File?
      ensures forall i | i in erased && i !in old(erased) :: i in world.nodes && world.nodes[i] == File("")
      ensures !crashed && old(journal).value.ino !in old(erased) ==>
        (old(journal).value.ino in erased <==>
          !old(Intact(journal.value)) && old(Discardable(journal.value, stable)) && erases)
    {
      var j := journal.value;
      if Intact(j) {
        if windows {
          Tick();
          if !crashed {
            world := world.(names := Tidied(world, j.candidate, CONFIG, j.ino, cleanup));
          }
          if !cleanup.Completes? {
            return false;
          }
        }
        if !windows || j.candidate !in world.names {
          Save(Some(j.(committed := true)), saves);
          return true;
        }
      }
      if !Discardable(j, stable) {
        return false;
      }
      Erase(j.ino, erases);
      if !erases {
        return false;
      }
      Save(None, saves);
      return true;
    }

    /**
      A first installation that dies anywhere, and any number of starts that die anywhere, with helpers killed
      and saves failing at will: the config is committed and complete, or nothing is published and nothing is
      recorded, or the journal waits; and the first start in which nothing fails settles it.
    */
    method InstallAcrossCrashes(windows: bool, text: string, c: Course, lives: seq<Life>)
      requires Valid() && !crashed && c.Quiet() && c.ino !in world.nodes && c.ino !in erased && CONFIG !in c.names
      requires CONFIG !in world.names && journal.None?
      modifies this
      ensures Valid() && touched <= old(touched) + {c.ino}
      ensures CONFIG in world.names ==>
        Holds(world, CONFIG, c.ino) && world.nodes[c.ino] == File(text) && c.ino !in erased
      ensures journal.None? ==> CONFIG !in world.names
      ensures journal.Some? && journal.value.committed ==> Intact(journal.value) && journal.value.ino == c.ino
      ensures |lives| > 0 && !crashed && lives[|lives| - 1].Benign(windows) ==> journal.None? || journal.value.committed
    {
      var r := Install(windows, false, text, c);
      for i := 0 to |lives|
        invariant Valid() && touched <= old(touched) + {c.ino}
        invariant c.ino in world.nodes ==> world.nodes[c.ino].File?
        invariant Accounted(c.ino, text) && (CONFIG in world.names ==> world.names[CONFIG] == c.ino)
        invariant i > 0 && !crashed && lives[i - 1].Benign(windows) ==> journal.None? || journal.value.committed
      {
        Restart(lives[i].steps);
        if journal.Some? && !journal.value.committed {
          var settled := Reconcile(windows, None, lives[i].cleanup, lives[i].erases, lives[i].saves);
        }
      }
    }

    /**
      An upgrade in the same way: at every crash point `config.json` is the complete old file or the complete
      new one, the journal is gone only if it is the old one and committed only if it is the new one, and the
      first start in which nothing fails decides it.
    */
    method UpgradeAcrossCrashes(windows: bool, stable: string, text: string, c: Course, lives: seq<Life>)
      requires Valid() && !crashed && c.Quiet() && c.ino !in world.nodes && c.ino !in erased && CONFIG !in c.names
      requires Reads(stable) && journal.None?
      modifies this
      ensures Valid() && touched <= old(touched) + {c.ino}
      ensures (Reads(stable) && Lookup(world.names, CONFIG) == old(Lookup(world.names, CONFIG)))
        || (Reads(text) && Lookup(world.names, CONFIG) == Some(c.ino) && c.ino !in erased)
      ensures journal.None? ==> Reads(stable) && Lookup(world.names, CONFIG) == old(Lookup(world.names, CONFIG))
      ensures journal.Some? && journal.value.committed ==> Reads(text) && Lookup(world.names, CONFIG) == Some(c.ino)
      ensures |lives| > 0 && !crashed && lives[|lives| - 1].Benign(windows) ==> journal.None? || journal.value.committed
    {
      var r := Install(windows, true, text, c);
      for i := 0 to |lives|
        invariant Valid() && touched <= old(touched) + {c.ino}
        invariant c.ino in world.nodes ==> world.nodes[c.ino].File?
        invariant Accounted(c.ino, text)
        invariant Lookup(world.names, CONFIG) != Some(c.ino) ==>
          Reads(stable) && Lookup(world.names, CONFIG) == old(Lookup(world.names, CONFIG))
        invariant i > 0 && !crashed && lives[i - 1].Benign(windows) ==> journal.None? || journal.value.committed
      {
        Restart(lives[i].steps);
        if journal.Some? && !journal.value.committed {
          var settled := Reconcile(windows, Some(stable), lives[i].cleanup, lives[i].erases, lives[i].saves);
        }
      }
    }
  }
}
