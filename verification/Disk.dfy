/**
  The durable world of the provisioning engine: directory trees named by pathnames, and the lockfile.

  Every filesystem call the engine makes is one atomic step, and the process may die before any step.
  A machine is given the number of steps it still completes: once they are used up it is `crashed`, and
  nothing it does afterwards changes the disk. A postcondition that holds whatever that number is
  therefore holds at every crash point. Other processes of the same user may act between steps; what
  they do is given to a method as data.
*/
module Disk {
  import opened Options

  type Inode = nat

  /** A directory entry below a skills root. The constructors are the name prefixes of the source. */
  datatype Base =
    | Item(name: string)
    | Candidate(id: string)
    | Staging(id: string)
    | Rejected(id: string)
    | Removed(id: string)

  datatype Path = Path(root: string, base: Base)

  /** Contents of one directory tree: file contents by relative name, and relative directories. */
  datatype Tree = Tree(files: map<string, string>, dirs: set<string>)

  /** `names` is the namespace; `trees` also keeps the contents of inodes that have no name left. */
  datatype Fs = Fs(names: map<Path, Inode>, trees: map<Inode, Tree>) {
    ghost predicate Valid() {
      && names.Values <= trees.Keys
      && forall p, q {:trigger names[p], names[q]} :: p in names && q in names && names[p] == names[q] ==> p == q
    }

    predicate Names(p: Path, i: Inode) { p in names && names[p] == i }

    function TreeAt(p: Path): Option<Tree> {
      if p in names && names[p] in trees then Some(trees[names[p]]) else None
    }
  }

  /** One recorded set of owned files. `dirs` is absent in lockfiles older than directory tracking. */
  datatype Snapshot = Snapshot(sha: string, files: map<string, string>, dirs: Option<set<string>>)

  datatype Migration = Migration(installedKey: string, root: string, name: string, recovery: Inode)

  datatype Record = Record(
    snap: Snapshot,
    root: string,
    uncommitted: bool,
    candidate: Option<Inode>,
    marker: Option<string>,
    rejection: Option<string>,
    pending: Option<Snapshot>,
    migration: Option<Migration>,
    removal: Option<string>)

  /** `removals` maps each preclaimed removal recovery to its root; `upgrades` are the other recoveries. */
  datatype Lock = Lock(installed: map<string, Record>, removals: map<string, string>, upgrades: set<string>)

  datatype Durable = Durable(fs: Fs, lock: Lock)

  datatype Renamed = Moved | Occupied | Missing

  /** What another process may do at a seam: rename without replacing, create, or edit in place. */
  datatype Act =
    | Move(src: Path, dst: Path)
    | Make(at: Path, ino: Inode, tree: Tree)
    | Edit(target: Inode, contents: Tree)

  ghost predicate WholeTree(t: Tree, s: Snapshot) {
    s.dirs.Some? && t.files == s.files && t.dirs == s.dirs.value
  }

  function RenameOutcome(fs: Fs, src: Path, dst: Path): Renamed {
    if src !in fs.names then Missing else if dst in fs.names then Occupied else Moved
  }

  function RenameFs(fs: Fs, src: Path, dst: Path): Fs {
    if RenameOutcome(fs, src, dst).Moved? then fs.(names := (fs.names - {src})[dst := fs.names[src]]) else fs
  }

  function ActFs(fs: Fs, a: Act): Fs {
    match a
    case Move(src, dst) => RenameFs(fs, src, dst)
    case Make(p, i, t) =>
      if p in fs.names || i in fs.trees then fs else Fs(fs.names[p := i], fs.trees[i := t])
    case Edit(i, t) => if i in fs.trees then fs.(trees := fs.trees[i := t]) else fs
  }

  function ActsFs(fs: Fs, acts: seq<Act>): Fs
    decreases |acts|
  {
    if acts == [] then fs else ActsFs(ActFs(fs, acts[0]), acts[1..])
  }

  /** Everything named before is named after. */
  ghost predicate Keeps(before: Fs, after: Fs) {
    before.names.Values <= after.names.Values
  }

  lemma RenameKeeps(fs: Fs, src: Path, dst: Path)
    requires fs.Valid()
    ensures RenameFs(fs, src, dst).Valid()
    ensures RenameFs(fs, src, dst).names.Values == fs.names.Values
  {
    var after := RenameFs(fs, src, dst);
    if RenameOutcome(fs, src, dst).Moved? {
      forall i | i in fs.names.Values ensures i in after.names.Values {
        var p :| p in fs.names && fs.names[p] == i;
        assert after.names[if p == src then dst else p] == i;
      }
      forall i | i in after.names.Values ensures i in fs.names.Values {
        var p :| p in after.names && after.names[p] == i;
        assert fs.names[if p == dst then src else p] == i;
      }
    }
  }

  lemma RenamedBack(fs: Fs, src: Path, dst: Path)
    requires RenameOutcome(fs, src, dst).Moved? && src != dst
    ensures RenameFs(RenameFs(fs, src, dst), dst, src) == fs
  {
    assert RenameFs(RenameFs(fs, src, dst), dst, src).names == fs.names;
  }

  lemma ActKeeps(fs: Fs, a: Act)
    requires fs.Valid()
    ensures ActFs(fs, a).Valid() && Keeps(fs, ActFs(fs, a))
  {
    match a
    case Move(src, dst) => RenameKeeps(fs, src, dst);
    case Make(p, i, t) =>
      var after := ActFs(fs, a);
      forall j | j in fs.names.Values ensures j in after.names.Values {
        var q :| q in fs.names && fs.names[q] == j;
        assert after.names == fs.names || after.names[q] == j;
      }
    case Edit(i, t) =>
  }

  lemma {:induction false} ActsKeep(fs: Fs, acts: seq<Act>)
    requires fs.Valid()
    ensures ActsFs(fs, acts).Valid() && Keeps(fs, ActsFs(fs, acts))
    ensures fs.trees.Keys <= ActsFs(fs, acts).trees.Keys
    decreases |acts|
  {
    if acts != [] {
      ActKeeps(fs, acts[0]);
      ActsKeep(ActFs(fs, acts[0]), acts[1..]);
    }
  }

  class Machine {
    var now: Durable
    var fuel: nat
    var crashed: bool
    /** Every inode that has had a name while this machine ran. */
    ghost var seen: set<Inode>
    /** Every inode that the engine itself has renamed to the name of an item, in any life. */
    ghost var shown: set<Inode>

    constructor (initial: Durable, steps: nat)
      requires initial.fs.Valid()
      ensures Valid() && now == initial && fuel == steps && !crashed
      ensures seen == initial.fs.names.Values && shown == {}
    {
      now, fuel, crashed, seen, shown := initial, steps, false, initial.fs.names.Values, {};
    }

    /** Conservation is part of it: whatever the engine has ever published still has a name. */
    ghost predicate Valid()
      reads this
    {
      now.fs.Valid() && shown <= now.fs.names.Values <= seen <= now.fs.trees.Keys
    }

    /** The directories that had a name once and have none now: what conservation is about. */
    ghost function Lost(): set<Inode>
      reads this
    {
      seen - now.fs.names.Values
    }

    /** Boot again on the same disk, to die after `steps` more steps. */
    method Restart(steps: nat)
      requires Valid()
      modifies this
      ensures Valid() && now == old(now) && Lost() == old(Lost()) && shown == old(shown) && fuel == steps && !crashed
    {
      fuel, crashed := steps, false;
    }

    /** One step of the process: `done` unless the process is, or has just become, dead. */
    method Tick() returns (done: bool)
      modifies this`fuel, this`crashed
      ensures crashed == (old(crashed) || old(fuel) == 0) && done == !crashed
      ensures old(fuel) <= fuel + 1 && fuel <= old(fuel)
    {
      if fuel == 0 {
        crashed := true;
      }
      done := !crashed;
      if done {
        fuel := fuel - 1;
      }
    }

    /** No-replace rename of a sibling directory. */
    method Rename(src: Path, dst: Path) returns (r: Renamed)
      requires Valid()
      modifies this
      ensures Valid() && crashed == (old(crashed) || old(fuel) == 0)
      ensures r == RenameOutcome(old(now).fs, src, dst)
      ensures now == if crashed then old(now) else old(now).(fs := RenameFs(old(now).fs, src, dst))
      ensures Lost() == old(Lost())
      ensures shown == old(shown) + if r.Moved? && dst.base.Item? && !crashed then {old(now).fs.names[src]} else {}
    {
      r := RenameOutcome(now.fs, src, dst);
      RenameKeeps(now.fs, src, dst);
      var done := Tick();
      if done {
        if r.Moved? && dst.base.Item? {
          shown := shown + {now.fs.names[src]};
        }
        now := now.(fs := RenameFs(now.fs, src, dst));
      }
    }

    /** Create an empty directory under a fresh name. */
    method Create(p: Path, i: Inode)
      requires Valid() && p !in now.fs.names && i !in now.fs.trees
      modifies this
      ensures Valid() && crashed == (old(crashed) || old(fuel) == 0)
      ensures now == if crashed then old(now) else
        old(now).(fs := Fs(old(now).fs.names[p := i], old(now).fs.trees[i := Tree(map[], {})]))
      ensures Lost() == old(Lost()) && shown == old(shown)
    {
      var done := Tick();
      if done {
        ActKeeps(now.fs, Make(p, i, Tree(map[], {})));
        now := now.(fs := Fs(now.fs.names[p := i], now.fs.trees[i := Tree(map[], {})]));
        assert now.fs.names[p] == i;
        seen := seen + {i};
        assert now.fs.names.Values == old(now).fs.names.Values + {i};
      }
    }

    /** Change the contents of the directory named by `p`, if it is still there. */
    method Write(p: Path, t: Tree)
      requires Valid()
      modifies this
      ensures Valid() && crashed == (old(crashed) || old(fuel) == 0)
      ensures now == if crashed || p !in old(now).fs.names then old(now) else
        old(now).(fs := old(now).fs.(trees := old(now).fs.trees[old(now).fs.names[p] := t]))
      ensures Lost() == old(Lost()) && shown == old(shown)
    {
      var done := Tick();
      if done && p in now.fs.names {
        now := now.(fs := now.fs.(trees := now.fs.trees[now.fs.names[p] := t]));
      }
    }

    /** Recursive removal of the directory named by `p`, which nobody may ask for once it has been published. */
    method Remove(p: Path)
      requires Valid() && p in now.fs.names && (!crashed ==> now.fs.names[p] !in shown)
      modifies this
      ensures Valid() && crashed == (old(crashed) || old(fuel) == 0)
      ensures now == if crashed then old(now) else old(now).(fs := old(now).fs.(names := old(now).fs.names - {p}))
      ensures Lost() == old(Lost()) + if crashed then {} else {old(now).fs.names[p]}
      ensures shown == old(shown)
    {
      var done := Tick();
      if done {
        ghost var before := now.fs;
        now := now.(fs := now.fs.(names := now.fs.names - {p}));
        assert now.fs.names.Values == before.names.Values - {before.names[p]} by {
          forall i | i in before.names.Values && i != before.names[p] ensures i in now.fs.names.Values {
            var q :| q in before.names && before.names[q] == i;
            assert now.fs.names[q] == i;
          }
        }
      }
    }

    /** Replace the lockfile atomically; a failed save leaves the old one. */
    method Save(lock: Lock, ok: bool)
      requires Valid()
      modifies this
      ensures Valid() && crashed == (old(crashed) || old(fuel) == 0)
      ensures now == if ok && !crashed then old(now).(lock := lock) else old(now)
      ensures Lost() == old(Lost()) && shown == old(shown)
    {
      var done := Tick();
      if ok && done {
        now := now.(lock := lock);
      }
    }

    /** Let other processes act. They rename, create and edit, but do not unlink. */
    method Interfere(acts: seq<Act>)
      requires Valid()
      modifies this`now, this`seen
      ensures Valid()
      ensures now == if crashed then old(now) else old(now).(fs := ActsFs(old(now).fs, acts))
      ensures Lost() <= old(Lost()) && Keeps(old(now).fs, now.fs)
      ensures old(now).fs.trees.Keys <= now.fs.trees.Keys
    {
      if !crashed {
        ActsKeep(now.fs, acts);
        now := now.(fs := ActsFs(now.fs, acts));
        seen := seen + now.fs.names.Values;
      }
    }
  }
}
