/**
  Removing an installed skill: its tree is renamed, whole, to a recovery name that the lockfile
  preclaims first. Nothing is ever deleted; a tree whose ownership cannot be shown is left in place.
*/
module SkillRemoval {
  import opened Options
  import opened Disk
  import opened SkillInstaller

  datatype RemovalSeam = AfterRootAudit | AfterRootIsolation | BeforeRestoration

  datatype RemovalOutcome = Retained | LeftAlone | PutBack | Failed

  function RecoveryPath(root: string, id: string): Path { Path(root, Removed(id)) }

  /** The snapshots that own a record's tree: the stable one and, during an upgrade, the pending one. */
  function Owners(record: Record): seq<Snapshot> {
    [record.snap] + if record.pending.Some? then [record.pending.value] else []
  }

  /** A file with contents that one of the owning snapshots recorded for it. */
  ghost predicate Verified(t: Tree, record: Record) {
    exists f, s :: s in Owners(record) && f in t.files && f in s.files && t.files[f] == s.files[f]
  }

  predicate IsVerified(t: Tree, record: Record)
    ensures IsVerified(t, record) <==> Verified(t, record)
  {
    exists f :: f in t.files && exists s :: s in Owners(record) && f in s.files && t.files[f] == s.files[f]
  }

  /** The preclaim: the record and the recovery table both name the recovery before it can exist. */
  function Claimed(lock: Lock, key: string, id: string): Lock
    requires key in lock.installed
  {
    var record := lock.installed[key];
    lock.(
      installed := lock.installed[key := record.(removal := Some(id))],
      removals := lock.removals[id := record.root])
  }

  /** Recovery entries whose directory exists stay; the others are forgotten. */
  function Pruned(s: Durable): Lock {
    s.lock.(removals :=
      map id | id in s.lock.removals && RecoveryPath(s.lock.removals[id], id) in s.fs.names :: s.lock.removals[id])
  }

  /** Rename the tree at `target` aside if it is provably owned, and check that the right one was caught. */
  method IsolateOwned(m: Machine, target: Path, recovery: Path, record: Record, seams: RemovalSeam -> seq<Act>)
    returns (outcome: RemovalOutcome)
    requires m.Valid() && target != recovery
    modifies m
    ensures m.Valid() && m.Lost() <= old(m.Lost()) && (old(m.crashed) ==> m.crashed && m.now == old(m.now))
    ensures m.now.lock == old(m.now).lock
    ensures !recovery.base.Item? ==> forall i | i in m.shown && i !in old(m.shown) :: m.now.fs.Names(target, i)
    ensures !m.crashed && outcome.Retained? && seams(AfterRootIsolation) == [] ==>
      && target in old(m.now).fs.names && m.now.fs.Names(recovery, old(m.now).fs.names[target])
      && Verified(old(m.now).fs.trees[old(m.now).fs.names[target]], record)
    ensures seams(AfterRootAudit) == [] && seams(AfterRootIsolation) == [] ==>
      var t := old(m.now).fs.TreeAt(target);
      var owned := t.Some? && Verified(t.value, record);
      var taken := recovery in old(m.now).fs.names;
      && (!m.crashed ==> outcome == if !owned then LeftAlone else if taken then Failed else Retained)
      && (m.now.fs == old(m.now).fs || (owned && m.now.fs == RenameFs(old(m.now).fs, target, recovery)))
      && (!m.crashed && outcome.Retained? ==> m.now.fs == RenameFs(old(m.now).fs, target, recovery))
    ensures !m.crashed ==>
      var fs := old(m.now).fs;
      var t, met := fs.TreeAt(target), ActsFs(fs, seams(AfterRootAudit));
      if !(t.Some? && Verified(t.value, record)) then
        outcome == LeftAlone && m.now.fs == fs
      else if !RenameOutcome(met, target, recovery).Moved? then
        outcome == Failed && m.now.fs == met
      else if !met.Names(target, fs.names[target]) then
        outcome == PutBack && m.now.fs == met
      else
        outcome == Retained && m.now.fs == ActsFs(RenameFs(met, target, recovery), seams(AfterRootIsolation))
  {
    hide ActFs;
    if target !in m.now.fs.names || !IsVerified(m.now.fs.trees[m.now.fs.names[target]], record) {
      return LeftAlone;
    }
    var audited := m.now.fs.names[target];
    m.Interfere(seams(AfterRootAudit));
    ghost var met := m.now.fs;
    var r := m.Rename(target, recovery);
    if !r.Moved? {
      return Failed;
    }
    if !m.now.fs.Names(recovery, audited) {
      r := m.Rename(recovery, target);
      RenamedBack(met, target, recovery);
      return if r.Moved? then PutBack else Failed;
    }
    m.Interfere(seams(AfterRootIsolation));
    return Retained;
  }

  /**
    What a removal does to the rest of the lockfile, wherever it stops: the other records and the upgrade claims are
    as they were, a recovery whose directory exists stays claimed for its root, and none is claimed but its own.
  */
  ghost predicate OthersKept(before: Lock, after: Durable, key: string, id: string, root: string) {
    && (forall other | other != key :: Lookup(after.lock.installed, other) == Lookup(before.installed, other))
    && after.lock.upgrades == before.upgrades
    && (forall r | r in before.removals && r != id && RecoveryPath(before.removals[r], r) in after.fs.names ::
          Lookup(after.lock.removals, r) == Some(before.removals[r]))
    && (forall r | r in after.lock.removals ::
          || Lookup(before.removals, r) == Some(after.lock.removals[r])
          || (r == id && after.lock.removals[r] == root))
  }

  /** A finished removal leaves exactly the claims whose directory exists, its own among them. */
  ghost predicate ClaimsPruned(before: Lock, after: Durable, id: string, root: string) {
    forall r :: Lookup(after.lock.removals, r) ==
      var claim := if r == id then Some(root) else Lookup(before.removals, r);
      if claim.Some? && RecoveryPath(claim.value, r) in after.fs.names then claim else None
  }

  lemma RemovalKeepsOthers(before: Lock, fs: Fs, key: string, id: string)
    requires key in before.installed
    ensures
      var root, claimed := before.installed[key].root, Claimed(before, key, id);
      var pruned := Pruned(Durable(fs, claimed));
      var removed := pruned.(installed := pruned.installed - {key});
      && OthersKept(before, Durable(fs, before), key, id, root)
      && OthersKept(before, Durable(fs, claimed), key, id, root)
      && OthersKept(before, Durable(fs, pruned), key, id, root) && ClaimsPruned(before, Durable(fs, pruned), id, root)
      && OthersKept(before, Durable(fs, removed), key, id, root) && ClaimsPruned(before, Durable(fs, removed), id, root)
  {
    PruningKeepsClaims(before, fs, key, id);
    hide RecoveryPath, ClaimsPruned;
  }

  lemma PruningKeepsClaims(before: Lock, fs: Fs, key: string, id: string)
    requires key in before.installed
    ensures
      var root, pruned := before.installed[key].root, Pruned(Durable(fs, Claimed(before, key, id)));
      forall installed :: ClaimsPruned(before, Durable(fs, pruned.(installed := installed)), id, root)
  {
  }

  /**
    Remove one skill. At every crash point the tree that was installed is still named: by the target,
    or by a recovery that the lockfile already names. Undisturbed, it is moved there exactly if it is provably
    owned and the recovery is free; its entry goes unless the move failed, and stays with the claim if it did.
  */
  method RemoveSkill(
    m: Machine, key: string, name: string, id: string, seams: RemovalSeam -> seq<Act>, saveClaim: bool, saveEnd: bool)
    returns (outcome: RemovalOutcome)
    requires m.Valid() && key in m.now.lock.installed
    modifies m
    ensures m.Valid() && m.Lost() <= old(m.Lost())
    ensures
      var record := old(m.now).lock.installed[key];
      var target, recovery := TargetOf(record, name), RecoveryPath(record.root, id);
      && (key in m.now.lock.installed ==>
            m.now.lock.installed[key] == record || m.now.lock.installed[key] == record.(removal := Some(id)))
      && OthersKept(old(m.now).lock, m.now, key, id, record.root)
      && (seams(AfterRootAudit) == [] && seams(AfterRootIsolation) == [] && target in old(m.now).fs.names ==>
            var tree := old(m.now).fs.names[target];
            || m.now.fs.Names(target, tree)
            || (m.now.fs.Names(recovery, tree) && id in m.now.lock.removals && m.now.lock.removals[id] == record.root))
    ensures !m.crashed ==>
      var record := old(m.now).lock.installed[key];
      && (!saveClaim ==> outcome == Failed && m.now == old(m.now))
      && (saveClaim && !saveEnd ==>
            Lookup(m.now.lock.installed, key) == Some(record.(removal := Some(id))) && id in m.now.lock.removals)
      && (saveClaim && saveEnd ==>
            && ClaimsPruned(old(m.now).lock, m.now, id, record.root)
            && Lookup(m.now.lock.installed, key) ==
                 if outcome.Failed? then Some(record.(removal := Some(id))) else None)
    ensures !m.crashed && saveClaim && seams(AfterRootAudit) == [] && seams(AfterRootIsolation) == [] ==>
      var fs, record := old(m.now).fs, old(m.now).lock.installed[key];
      var target, recovery := TargetOf(record, name), RecoveryPath(record.root, id);
      if target !in fs.names || !Verified(fs.trees[fs.names[target]], record) then
        outcome == LeftAlone && m.now.fs == fs
      else if recovery in fs.names then
        outcome == Failed && m.now.fs == fs
      else
        outcome == Retained && m.now.fs == RenameFs(fs, target, recovery)
  {
    hide ActsFs, Verified, Owners, OthersKept, ClaimsPruned;
    var record := m.now.lock.installed[key];
    var target, recovery := TargetOf(record, name), RecoveryPath(record.root, id);
    RemovalKeepsOthers(m.now.lock, m.now.fs, key, id);
    m.Save(Claimed(m.now.lock, key, id), saveClaim);
    if !saveClaim {
      return Failed;
    }
    outcome := IsolateOwned(m, target, recovery, record, seams);
    RemovalKeepsOthers(old(m.now).lock, m.now.fs, key, id);
    var lock := Pruned(m.now);
    m.Save(if outcome.Failed? then lock else lock.(installed := lock.installed - {key}), saveEnd);
  }

  /** The expected inode is at exactly one of the two names, and the other name is free. */
  predicate Restorable(fs: Fs, target: Path, recovery: Path, expected: Inode) {
    || (fs.Names(target, expected) && recovery !in fs.names)
    || (fs.Names(recovery, expected) && target !in fs.names)
  }

  /**
    Put one exact preclaimed recovery back, without replacing a pathname. True means that the target
    names the recorded inode; a wrong inode at either name is never taken for it.
  */
  method RestoreRecovery(m: Machine, target: Path, recovery: Path, expected: Inode, acts: seq<Act>)
    returns (restored: bool)
    requires m.Valid() && target != recovery
    modifies m
    ensures m.Valid() && m.Lost() <= old(m.Lost()) && (old(m.crashed) ==> m.crashed && m.now == old(m.now))
    ensures m.now.lock == old(m.now).lock
    ensures forall i | i in m.shown && i !in old(m.shown) :: m.now.fs.Names(target, i) && !old(m.crashed)
    ensures restored && !m.crashed ==> m.now.fs.Names(target, expected)
    ensures acts == [] ==>
      && (!m.crashed ==> restored == Restorable(old(m.now).fs, target, recovery, expected))
      && (|| m.now.fs == old(m.now).fs
          || (old(m.now).fs.Names(recovery, expected) && m.now.fs == RenameFs(old(m.now).fs, recovery, target)))
    ensures !m.crashed ==>
      var fs, met := old(m.now).fs, ActsFs(old(m.now).fs, acts);
      if fs.Names(recovery, expected) && target !in fs.names then
        var free := met.Names(recovery, expected) && target !in met.names;
        restored == free && m.now.fs == if free then RenameFs(met, recovery, target) else met
      else
        restored == (fs.Names(target, expected) && recovery !in fs.names) && m.now.fs == fs
  {
    hide ActFs;
    if m.now.fs.Names(target, expected) && recovery !in m.now.fs.names {
      return true;
    }
    if !m.now.fs.Names(recovery, expected) || target in m.now.fs.names {
      return false;
    }
    m.Interfere(acts);
    if !m.now.fs.Names(recovery, expected) {
      return false;
    }
    var r := m.Rename(recovery, target);
    return r.Moved? && m.now.fs.Names(target, expected);
  }
}
