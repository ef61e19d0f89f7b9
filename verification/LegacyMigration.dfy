/**
  Moving an installed skill from a legacy root to the canonical root. The legacy tree is isolated under
  a preclaimed recovery name only after its replacement has passed the audit, and one lockfile journal
  can lead forward, to the committed replacement, or back, to the exact legacy tree.

  This module is about crashes: no other process acts here.
*/
module LegacyMigration {
  import opened Options
  import opened Disk
  import opened SkillInstaller
  import opened SkillRemoval

  /**
    One migration: the first-install job at the canonical root, the legacy lockfile key and pathname,
    the legacy inode with its tree and record, and the recovery identity it uses.
  */
  datatype Plan = Plan(
    job: Job, legacyKey: string, legacyRoot: string, legacyName: string,
    legacy: Inode, tree: Tree, record: Record, id: string)
  {
    function LegacyTarget(): Path { Path(legacyRoot, Item(legacyName)) }
    function Recovery(): Path { RecoveryPath(legacyRoot, id) }

    /** The journal: a first-install preclaim that also carries everything needed to go back. */
    function Journal(audited: Tree): Record {
      job.Journal(audited).(
        pending := Some(record.snap),
        migration := Some(Migration(legacyKey, legacyRoot, legacyName, legacy)),
        removal := Some(id))
    }

    function Journaled(lock: Lock, audited: Tree): Lock {
      lock.(installed := (lock.installed - {legacyKey})[job.key := Journal(audited)])
    }

    /** The legacy ownership that a restoration writes back. */
    function Restored(): Record {
      Record(record.snap, legacyRoot, false, None, None, None, None, None, None)
    }

    function GoneBack(lock: Lock): Lock {
      lock.(installed := (lock.installed - {job.key})[legacyKey := Restored()])
    }

    /** The roots differ, and the keys differ at most in case. */
    predicate Sound() {
      && legacyRoot != job.root
      && record.(removal := None) == Restored()
      && (record.removal.Some? ==> record.removal.value == id)
      && legacy != job.ino
    }
  }

  /** Which lockfile saves of one migration succeed: the two preclaims, the journal, the commitment, the way back. */
  datatype Saves = Saves(rejection: bool, removal: bool, journal: bool, commit: bool, undo: bool)

  /** How publishing the discovery links ends; what a stranded one left behind could not be rolled back. */
  datatype Fanout = Linked | LinkRefused | LinkStranded

  /** One later life: the steps it completes, and whether its links and its saves succeed. */
  datatype Attempt = Attempt(steps: nat, links: bool, save: bool)

  /** The complete legacy tree is at its old root, and its recovery name is free. */
  ghost predicate AtHome(fs: Fs, p: Plan) {
    fs.Names(p.LegacyTarget(), p.legacy) && p.Recovery() !in fs.names
  }

  /** The complete legacy tree is at its recovery, and its old name is free. */
  ghost predicate Aside(fs: Fs, p: Plan) {
    fs.Names(p.Recovery(), p.legacy) && p.LegacyTarget() !in fs.names
  }

  ghost predicate Preclaims(lock: Lock, p: Plan) {
    p.id in lock.removals && lock.removals[p.id] == p.legacyRoot
  }

  /** The lockfile entry of the legacy skill, with or without the recovery preclaim. */
  ghost predicate LegacyOwned(lock: Lock, p: Plan) {
    && p.legacyKey in lock.installed
    && lock.installed[p.legacyKey].(removal := None) == p.record.(removal := None)
    && (lock.installed[p.legacyKey].removal.Some? ==> lock.installed[p.legacyKey].removal.value == p.id)
    && (p.legacyKey != p.job.key ==> p.job.key !in lock.installed)
  }

  ghost predicate CanonicalOwned(lock: Lock, p: Plan, audited: Tree) {
    && p.job.key in lock.installed
    && var record := lock.installed[p.job.key];
    && (record.marker.Some? ==> record.marker == Some(p.job.marker))
    && record == Record(
         Snapshot(p.job.sha, audited.files, Some(audited.dirs)), p.job.root, false, None, record.marker,
         None, None, None, None)
    && (p.legacyKey != p.job.key ==> p.legacyKey !in lock.installed)
  }

  ghost predicate Journaling(lock: Lock, p: Plan, audited: Tree) {
    && p.job.key in lock.installed
    && lock.installed[p.job.key] == Record(
         Snapshot(p.job.sha, audited.files, Some(audited.dirs)), p.job.root, true, Some(p.job.ino), Some(p.job.marker),
         Some(p.job.rejectionId), Some(p.record.snap),
         Some(Migration(p.legacyKey, p.legacyRoot, p.legacyName, p.legacy)), Some(p.id))
    && (p.legacyKey != p.job.key ==> p.legacyKey !in lock.installed)
  }

  ghost predicate CanonicalLive(fs: Fs, p: Plan, audited: Tree) {
    && fs.Names(p.job.Target(), p.job.ino)
    && (TreeOf(fs, p.job.ino) == Some(p.job.Marked(audited)) || TreeOf(fs, p.job.ino) == Some(audited))
  }

  /** The legacy skill is still the owner. If its tree is aside, the entry names the recovery. */
  ghost predicate Before(s: Durable, p: Plan) {
    && LegacyOwned(s.lock, p) && p.job.Target() !in s.fs.names
    && (|| AtHome(s.fs, p)
        || (Aside(s.fs, p) && Preclaims(s.lock, p) && s.lock.installed[p.legacyKey].removal == Some(p.id)))
  }

  /** The two-way journal is durable, and at most one of the two trees is live. */
  ghost predicate Between(s: Durable, p: Plan, audited: Tree) {
    && Journaling(s.lock, p, audited) && p.job.MarkerFile() !in audited.files
    && (|| (p.job.Target() !in s.fs.names && (AtHome(s.fs, p) || Aside(s.fs, p)))
        || (Aside(s.fs, p) && Exposed(s, p.job, audited)))
    && (Aside(s.fs, p) ==> Preclaims(s.lock, p))
  }

  /** The replacement is committed; its marker is gone by the time its record no longer names one. */
  ghost predicate After(s: Durable, p: Plan, audited: Tree) {
    && CanonicalOwned(s.lock, p, audited) && p.job.MarkerFile() !in audited.files
    && Aside(s.fs, p) && Preclaims(s.lock, p) && CanonicalLive(s.fs, p, audited)
    && (s.lock.installed[p.job.key].marker.None? ==> TreeOf(s.fs, p.job.ino) == Some(audited))
  }

  /**
    Every crash point. The legacy tree is complete, and it is at its old root or at a recovery that the
    lockfile preclaims; and the lockfile is before, inside or after the migration accordingly.
  */
  ghost predicate MigrationSafe(s: Durable, p: Plan, audited: Tree) {
    && TreeOf(s.fs, p.legacy) == Some(p.tree)
    && (Before(s, p) || Between(s, p, audited) || After(s, p, audited))
  }

  /** The two ends of recovery: the legacy skill live and owned, or the replacement live and owned. */
  ghost predicate ExactlyOneLive(s: Durable, p: Plan, audited: Tree) {
    && TreeOf(s.fs, p.legacy) == Some(p.tree)
    && (|| (AtHome(s.fs, p) && LegacyOwned(s.lock, p) && p.job.Target() !in s.fs.names)
        || (&& Aside(s.fs, p) && Preclaims(s.lock, p) && CanonicalOwned(s.lock, p, audited)
            && s.fs.Names(p.job.Target(), p.job.ino) && TreeOf(s.fs, p.job.ino) == Some(audited)))
  }

  /** Where a migration starts: an intact, owned legacy tree and nothing at the canonical name. */
  ghost predicate Ripe(s: Durable, p: Plan) {
    && p.Sound()
    && Untouched(s.fs, p) && WholeTree(p.tree, p.record.snap)
    && LegacyOwned(s.lock, p) && s.lock.installed[p.legacyKey] == p.record
    && p.job.CandidatePath() !in s.fs.names && p.job.ino !in s.fs.trees
  }

  /** The legacy tree is live and the canonical names are free. */
  ghost predicate Untouched(fs: Fs, p: Plan) {
    && AtHome(fs, p) && TreeOf(fs, p.legacy) == Some(p.tree)
    && p.job.Target() !in fs.names && p.job.RejectedPath() !in fs.names
  }

  lemma CandidateLeavesUntouched(before: Fs, after: Fs, p: Plan)
    requires p.Sound() && Untouched(before, p) && Apart(before, after, p.job)
    ensures Untouched(after, p)
  {
    assert Lookup(after.names, p.LegacyTarget()) == Lookup(before.names, p.LegacyTarget());
    assert Lookup(after.names, p.Recovery()) == Lookup(before.names, p.Recovery());
    assert Lookup(after.names, p.job.Target()) == Lookup(before.names, p.job.Target());
    assert Lookup(after.names, p.job.RejectedPath()) == Lookup(before.names, p.job.RejectedPath());
    assert Lookup(after.trees, p.legacy) == Lookup(before.trees, p.legacy);
  }

  /** Only the two names of the legacy tree have changed hands, and no contents have changed. */
  ghost predicate LegacyNames(before: Fs, after: Fs, p: Plan) {
    && after.trees == before.trees
    && forall q | q != p.LegacyTarget() && q != p.Recovery() :: Lookup(after.names, q) == Lookup(before.names, q)
  }

  /** The pathnames of the migration itself. */
  ghost predicate Own(q: Path, p: Plan) {
    || q == p.LegacyTarget() || q == p.Recovery()
    || q == p.job.CandidatePath() || q == p.job.Target() || q == p.job.RejectedPath()
  }

  /** Every other name and the contents of every other directory are as they were. */
  ghost predicate OtherFiles(before: Fs, after: Fs, p: Plan) {
    (forall q | !Own(q, p) :: Lookup(after.names, q) == Lookup(before.names, q)) && OtherTrees(before, after, p.job.ino)
  }

  /** Every other record is as it was, and every other recovery that exists stays claimed; only its own are added. */
  ghost predicate OtherClaims(before: Lock, after: Lock, fs: Fs, p: Plan) {
    && (forall k | k != p.job.key && k != p.legacyKey :: Lookup(after.installed, k) == Lookup(before.installed, k))
    && (forall r | r in before.removals && r != p.id && RecoveryPath(before.removals[r], r) in fs.names ::
          Lookup(after.removals, r) == Some(before.removals[r]))
    && (forall r | r in after.removals && r != p.id :: Lookup(before.removals, r) == Some(after.removals[r]))
    && before.upgrades <= after.upgrades <= before.upgrades + {p.job.rejectionId}
  }

  /** What no migration does, at any crash point: touch the entries, the claims or the files of anything else. */
  ghost predicate Undisturbed(before: Durable, after: Durable, p: Plan) {
    OtherFiles(before.fs, after.fs, p) && OtherClaims(before.lock, after.lock, before.fs, p)
  }

  lemma StillUndisturbed(a: Durable, b: Durable, c: Durable, p: Plan)
    requires Undisturbed(a, b, p) && Undisturbed(b, c, p)
    ensures Undisturbed(a, c, p)
  {
    forall r | r in a.lock.removals && r != p.id && RecoveryPath(a.lock.removals[r], r) in a.fs.names
      ensures Lookup(c.lock.removals, r) == Some(a.lock.removals[r])
    {
      var q := RecoveryPath(a.lock.removals[r], r);
      assert !Own(q, p);
      assert Lookup(b.fs.names, q) == Lookup(a.fs.names, q);
      assert Lookup(b.lock.removals, r) == Some(a.lock.removals[r]);
    }
  }

  lemma FilesUndisturbed(before: Durable, fs: Fs, p: Plan)
    ensures LegacyNames(before.fs, fs, p) ==> Undisturbed(before, before.(fs := fs), p)
    ensures OwnNames(before.fs, fs, p.job) ==> Undisturbed(before, before.(fs := fs), p)
    ensures Apart(before.fs, fs, p.job) ==> Undisturbed(before, before.(fs := fs), p)
    ensures fs == before.fs ==> Undisturbed(before, before.(fs := fs), p)
  {
  }

  /** The lockfiles that a migration writes. */
  lemma SavesUndisturbed(s: Durable, p: Plan, audited: Tree)
    ensures Undisturbed(s, s.(lock := s.lock.(upgrades := s.lock.upgrades + {p.job.rejectionId})), p)
    ensures p.legacyKey in s.lock.installed ==> Undisturbed(s, s.(lock := Claimed(s.lock, p.legacyKey, p.id)), p)
    ensures Undisturbed(s, s.(lock := p.Journaled(s.lock, audited)), p)
    ensures Undisturbed(s, s.(lock := Pruned(s.(lock := p.GoneBack(s.lock)))), p)
  {
  }

  lemma EntryUndisturbed(s: Durable, record: Record, p: Plan)
    ensures Undisturbed(s, s.(lock := s.lock.(installed := s.lock.installed[p.job.key := record])), p)
  {
  }

  lemma GoneBackIsBefore(before: Lock, fs: Fs, p: Plan, audited: Tree)
    requires p.Sound() && AtHome(fs, p) && p.job.Target() !in fs.names
    ensures Before(Durable(fs, Pruned(Durable(fs, p.GoneBack(before)))), p)
  {
  }

  lemma RestoredNames(fs: Fs, p: Plan)
    ensures LegacyNames(fs, fs, p) && LegacyNames(fs, RenameFs(fs, p.Recovery(), p.LegacyTarget()), p)
    ensures LegacyNames(fs, RenameFs(fs, p.LegacyTarget(), p.Recovery()), p)
  {
  }

  /**
    Go back: return the exact legacy tree to its old root, unless it is there already, and give its
    ownership back. `false` is an exception: the lockfile stays as it was.
  */
  method RestoreLegacy(m: Machine, p: Plan, ghost audited: Tree, save: bool) returns (restored: bool)
    requires m.Valid() && p.Sound() && WholeTree(p.tree, p.record.snap)
    requires !m.crashed ==> MigrationSafe(m.now, p, audited) && p.job.Target() !in m.now.fs.names
    modifies m
    ensures m.Valid() && m.Lost() <= old(m.Lost()) && (old(m.crashed) ==> m.crashed && m.now == old(m.now))
    ensures !old(m.crashed) ==> MigrationSafe(m.now, p, audited) && LegacyNames(old(m.now).fs, m.now.fs, p)
    ensures p.job.ino in m.shown ==> p.job.ino in old(m.shown)
    ensures !m.crashed ==> restored == save && AtHome(m.now.fs, p)
    ensures (!m.crashed && restored ==> Before(m.now, p)) && (!restored ==> m.now.lock == old(m.now).lock)
    ensures !m.crashed && restored ==>
      && Lookup(m.now.lock.installed, p.legacyKey) ==
           Some(Record(p.record.snap, p.legacyRoot, false, None, None, None, None, None, None))
      && !Preclaims(m.now.lock, p)
    ensures !old(m.crashed) && Before(old(m.now), p) ==> Before(m.now, p)
    ensures Undisturbed(old(m.now), m.now, p)
  {
    hide Undisturbed;
    FilesUndisturbed(m.now, m.now.fs, p);
    var intact := IsWhole(m.now.fs.TreeAt(p.LegacyTarget()), p.record.snap)
      || IsWhole(m.now.fs.TreeAt(p.Recovery()), p.record.snap);
    if !intact {
      return false;
    }
    restored := RestoreRecovery(m, p.LegacyTarget(), p.Recovery(), p.legacy, []);
    ghost var home := m.now;
    assert m.crashed || home == old(m.now).(fs := home.fs);
    RestoredNames(old(m.now).fs, p);
    FilesUndisturbed(old(m.now), home.fs, p);
    SavesUndisturbed(home, p, audited);
    StillUndisturbed(old(m.now), home, home.(lock := Pruned(home.(lock := p.GoneBack(home.lock)))), p);
    if !restored || !IsWhole(m.now.fs.TreeAt(p.LegacyTarget()), p.record.snap) {
      return false;
    }
    if AtHome(m.now.fs, p) && p.job.Target() !in m.now.fs.names {
      GoneBackIsBefore(m.now.lock, m.now.fs, p, audited);
    }
    m.Save(Pruned(m.now.(lock := p.GoneBack(m.now.lock))), save);
    return save;
  }

  /** Preclaim the recovery, then move the legacy tree there. `false` is an exception before anything was journaled. */
  method IsolateLegacy(m: Machine, p: Plan, save: bool) returns (isolated: bool)
    requires m.Valid() && p.Sound() && Before(m.now, p) && AtHome(m.now.fs, p)
    modifies m
    ensures m.Valid() && m.Lost() <= old(m.Lost()) && (old(m.crashed) ==> m.crashed && m.now == old(m.now))
    ensures Before(m.now, p) && LegacyNames(old(m.now).fs, m.now.fs, p)
    ensures p.job.ino in m.shown ==> p.job.ino in old(m.shown)
    ensures !m.crashed ==> if isolated then Aside(m.now.fs, p) else AtHome(m.now.fs, p)
    ensures !m.crashed && TreeOf(old(m.now).fs, p.legacy) == Some(p.tree) ==>
      isolated == (save && Verified(p.tree, p.record))
    ensures Undisturbed(old(m.now), m.now, p)
  {
    hide Undisturbed;
    FilesUndisturbed(m.now, m.now.fs, p);
    SavesUndisturbed(m.now, p, p.tree);
    var record := m.now.lock.installed[p.legacyKey];
    m.Save(Claimed(m.now.lock, p.legacyKey, p.id), save);
    if !save {
      return false;
    }
    ghost var claimed := m.now;
    var outcome := IsolateOwned(m, p.LegacyTarget(), p.Recovery(), record, _ => []);
    RestoredNames(claimed.fs, p);
    FilesUndisturbed(claimed, m.now.fs, p);
    StillUndisturbed(old(m.now), claimed, m.now, p);
    return outcome.Retained?;
  }

  /**
    Settle a durable migration journal: forward if the exposed candidate is intact and its discovery
    links can be published, otherwise back. A failure of the links leaves the journal for a retry.
  */
  method SettleMigration(m: Machine, p: Plan, ghost audited: Tree, links: bool, save: bool) returns (end: Settlement)
    requires m.Valid() && p.Sound() && WholeTree(p.tree, p.record.snap)
    requires MigrationSafe(m.now, p, audited) && Journaling(m.now.lock, p, audited)
    modifies m
    ensures m.Valid() && m.Lost() <= old(m.Lost()) && MigrationSafe(m.now, p, audited) && (old(m.crashed) ==> m.crashed)
    ensures end.Committed? || end.Dropped? || end.Stuck?
    ensures !m.crashed && end.Committed? ==> CanonicalOwned(m.now.lock, p, audited)
    ensures !m.crashed && end.Dropped? ==> LegacyOwned(m.now.lock, p) && AtHome(m.now.fs, p)
    ensures !m.crashed ==>
      && (end.Committed? <==> Exposed(old(m.now), p.job, audited) && links && save)
      && (end.Dropped? <==> !Exposed(old(m.now), p.job, audited) && save)
      && (end.Stuck? ==> m.now.lock == old(m.now).lock)
    ensures Exposed(old(m.now), p.job, audited) && end.Stuck? ==> m.now == old(m.now)
    ensures m.now.fs.Names(p.job.Target(), p.job.ino) <==> old(m.now).fs.Names(p.job.Target(), p.job.ino)
    ensures Undisturbed(old(m.now), m.now, p)
  {
    hide Undisturbed;
    FilesUndisturbed(m.now, m.now.fs, p);
    EntryUndisturbed(m.now, p.job.Committed(audited), p);
    var record := m.now.lock.installed[p.job.key];
    if m.now.fs.Names(p.job.Target(), p.job.ino) && IsWhole(TreeOf(m.now.fs, p.job.ino), Vouched(record)) {
      if !links || !save {
        return Stuck;
      }
      var committed := Record(record.snap, record.root, false, None, record.marker, None, None, None, None);
      m.Save(m.now.lock.(installed := m.now.lock.installed[p.job.key := committed]), save);
      return Committed;
    }
    var restored := RestoreLegacy(m, p, audited, save);
    assert Lookup(m.now.fs.names, p.job.Target()) == Lookup(old(m.now).fs.names, p.job.Target());
    return if restored then Dropped else Stuck;
  }

  /** The second save of a settled journal: the replacement loses its marker, and the record forgets it. */
  method FinishReplacement(m: Machine, p: Plan, ghost audited: Tree, save: bool) returns (done: bool)
    requires m.Valid() && p.Sound() && After(m.now, p, audited) && TreeOf(m.now.fs, p.legacy) == Some(p.tree)
    modifies m
    ensures m.Valid() && m.Lost() <= old(m.Lost())
    ensures After(m.now, p, audited) && TreeOf(m.now.fs, p.legacy) == Some(p.tree)
    ensures !m.crashed && done ==> m.now.lock.installed[p.job.key].marker.None?
    ensures save ==> done
    ensures m.now.fs.names == old(m.now).fs.names && Undisturbed(old(m.now), m.now, p)
  {
    assert p.job.Marked(audited).files - {p.job.MarkerFile()} == audited.files;
    if m.now.lock.installed[p.job.key].marker.Some? {
      RetireMarker(m, p.job.key, p.job.name, save);
      return save;
    }
    return true;
  }

  /** The planning step of a sync: an isolated legacy tree that is still the owner comes home first. */
  method BringHome(m: Machine, p: Plan) returns (done: bool)
    requires m.Valid() && p.Sound() && Before(m.now, p) && TreeOf(m.now.fs, p.legacy) == Some(p.tree)
    modifies m
    ensures m.Valid() && m.Lost() <= old(m.Lost())
    ensures Before(m.now, p) && TreeOf(m.now.fs, p.legacy) == Some(p.tree)
    ensures !m.crashed ==> done && AtHome(m.now.fs, p)
    ensures m.now.lock == old(m.now).lock && Undisturbed(old(m.now), m.now, p)
  {
    hide Undisturbed;
    FilesUndisturbed(m.now, m.now.fs, p);
    done := true;
    if p.LegacyTarget() !in m.now.fs.names {
      done := RestoreRecovery(m, p.LegacyTarget(), p.Recovery(), p.legacy, []);
      RestoredNames(old(m.now).fs, p);
      FilesUndisturbed(old(m.now), m.now.fs, p);
    }
  }

  /** What a restart does before the next attempt: settle, retire the marker, and bring an isolated legacy tree home. */
  method Recover(m: Machine, p: Plan, ghost audited: Tree, links: bool, save: bool) returns (done: bool)
    requires m.Valid() && p.Sound() && WholeTree(p.tree, p.record.snap)
    requires MigrationSafe(m.now, p, audited)
    modifies m
    ensures m.Valid() && m.Lost() <= old(m.Lost()) && MigrationSafe(m.now, p, audited)
    ensures !m.crashed && done ==> ExactlyOneLive(m.now, p, audited)
    ensures !m.crashed && links && save ==> done
    ensures m.now.fs.Names(p.job.Target(), p.job.ino) <==> old(m.now).fs.Names(p.job.Target(), p.job.ino)
    ensures Undisturbed(old(m.now), m.now, p)
  {
    hide Undisturbed;
    FilesUndisturbed(m.now, m.now.fs, p);
    if p.job.key in m.now.lock.installed && m.now.lock.installed[p.job.key].uncommitted {
      var end := SettleMigration(m, p, audited, links, save);
      if end.Stuck? || m.crashed {
        return false;
      }
    }
    ghost var settled := m.now;
    if p.legacyKey in m.now.lock.installed && m.now.lock.installed[p.legacyKey].root == p.legacyRoot {
      done := BringHome(m, p);
    } else {
      done := FinishReplacement(m, p, audited, save);
    }
    StillUndisturbed(old(m.now), settled, m.now, p);
  }

  /** What an undisturbed migration needs in order to go through: verified ownership and an acceptable replacement. */
  ghost predicate Agreeable(p: Plan, extracted: Tree, accept: Tree -> bool) {
    && Verified(p.tree, p.record)
    && extracted.files != map[] && p.job.MarkerFile() !in extracted.files
    && accept(extracted) && accept(p.job.Marked(extracted))
  }

  lemma UntouchedIsSafe(s: Durable, p: Plan, audited: Tree)
    requires Untouched(s.fs, p) && LegacyOwned(s.lock, p)
    ensures MigrationSafe(s, p, audited) && StillLegacy(s, p) && AtHome(s.fs, p)
  {
  }

  lemma CandidateGone(before: Fs, built: Fs, after: Fs, p: Plan)
    requires p.job.CandidatePath() !in before.names
    requires built.names == before.names[p.job.CandidatePath() := p.job.ino]
    ensures
      && p.job.CandidatePath() !in after.names
      && (forall q | q != p.job.CandidatePath() :: Lookup(after.names, q) == Lookup(built.names, q)) ==>
        after.names == before.names
  {
    if p.job.CandidatePath() !in after.names
       && forall q | q != p.job.CandidatePath() :: Lookup(after.names, q) == Lookup(built.names, q)
    {
      SameLookups(after.names, before.names);
    }
  }

  /**
    The migration itself. Whatever the outcome and wherever it dies, the state is one that `Recover`
    understands. If it finishes, it has gone through exactly if its links were published, both sides of it
    were acceptable and the saves on its way held; if it was rolled back, the legacy skill is live and owned.
  */
  method Migrate(m: Machine, p: Plan, extracted: Tree, accept: Tree -> bool, links: Fanout, saves: Saves)
    returns (end: Settlement)
    requires m.Valid() && Ripe(m.now, p)
    modifies m
    ensures m.Valid() && m.Lost() <= old(m.Lost()) + {p.job.ino}
    ensures p.job.ino in m.shown || end.Committed? ==> m.Lost() <= old(m.Lost())
    ensures MigrationSafe(m.now, p, extracted)
    ensures !m.crashed && end.Committed? ==> CanonicalOwned(m.now.lock, p, extracted)
    ensures !m.crashed && end.Dropped? ==> LegacyOwned(m.now.lock, p) && AtHome(m.now.fs, p)
    ensures !m.crashed ==>
      var saved := saves.rejection && saves.removal && saves.journal && saves.commit;
      end.Committed? <==> links.Linked? && Agreeable(p, extracted, accept) && saved
    ensures !m.crashed ==>
      var built := saves.rejection && accept(extracted) && extracted.files != map[];
      var journaled := built && p.job.MarkerFile() !in extracted.files && Verified(p.tree, p.record)
        && saves.removal && saves.journal;
      var sound := accept(p.job.Marked(extracted)) && !links.LinkRefused?;
      && (end.Dropped? <==> !built || (journaled && !sound && saves.undo))
      && (!journaled ==> StillLegacy(m.now, p) && m.now.fs.names == old(m.now).fs.names)
      && (journaled && !sound ==> RolledBack(m.now.fs, p))
      && (journaled && sound ==> Aside(m.now.fs, p) && m.now.fs.Names(p.job.Target(), p.job.ino))
    ensures Undisturbed(old(m.now), m.now, p)
  {
    hide Undisturbed, Between, After, Verified, MigrationSafe, ActFs, Untouched, LegacyOwned, Poised, CanonicalOwned;
    var audited := BuildReplacement(m, p, extracted, accept, saves.rejection);
    if audited.None? || m.crashed {
      UntouchedIsSafe(m.now, p, extracted);
      return Dropped;
    }
    ghost var built := m.now;
    var journaled := JournalMigration(m, p, audited.value, saves);
    ghost var ready := m.now;
    StillUndisturbed(old(m.now), built, ready, p);
    if !journaled || m.crashed {
      CandidateGone(old(m.now).fs, built.fs, m.now.fs, p);
      return Stuck;
    }
    end := PublishMigration(m, p, audited.value, accept, links, saves.commit, saves.undo);
    StillUndisturbed(old(m.now), ready, m.now, p);
  }

  /** Preclaim the rejection recovery and build the audited candidate beside the live legacy skill. */
  method BuildReplacement(m: Machine, p: Plan, extracted: Tree, accept: Tree -> bool, save: bool)
    returns (audited: Option<Tree>)
    requires m.Valid() && Ripe(m.now, p)
    modifies m
    ensures m.Valid() && m.Lost() <= old(m.Lost()) + {p.job.ino}
    ensures Untouched(m.now.fs, p) && LegacyOwned(m.now.lock, p)
    ensures p.job.ino !in m.shown && (audited.Some? ==> m.Lost() <= old(m.Lost()))
    ensures audited.Some? && !m.crashed ==> m.now.fs.Names(p.job.CandidatePath(), p.job.ino)
    ensures !m.crashed ==>
      audited == if save && accept(extracted) && extracted.files != map[] then Some(extracted) else None
    ensures !m.crashed && audited.None? ==> m.now.fs.names == old(m.now).fs.names
    ensures !m.crashed && audited.Some? ==>
      && m.now.fs.names == old(m.now).fs.names[p.job.CandidatePath() := p.job.ino]
      && p.job.rejectionId in m.now.lock.upgrades
    ensures Undisturbed(old(m.now), m.now, p)
  {
    hide Undisturbed;
    FilesUndisturbed(m.now, m.now.fs, p);
    SavesUndisturbed(m.now, p, extracted);
    m.Save(m.now.lock.(upgrades := m.now.lock.upgrades + {p.job.rejectionId}), save);
    if !save {
      return None;
    }
    ghost var claimed := m.now;
    audited := PrepareCandidate(m, p.job, extracted, accept, _ => []);
    CandidateLeavesUntouched(old(m.now).fs, m.now.fs, p);
    FilesUndisturbed(claimed, m.now.fs, p);
    StillUndisturbed(old(m.now), claimed, m.now, p);
  }

  /** A state in which the legacy skill is still the owner of its complete tree. */
  ghost predicate StillLegacy(s: Durable, p: Plan) {
    Before(s, p) && TreeOf(s.fs, p.legacy) == Some(p.tree)
  }

  /** The candidate has its marker and the canonical names are free. */
  ghost predicate Marked(fs: Fs, p: Plan, audited: Tree) {
    Ready(fs, p.job, audited) && p.job.RejectedPath() !in fs.names && p.job.MarkerFile() !in audited.files
  }

  method MarkCandidate(m: Machine, p: Plan, audited: Tree) returns (marked: bool)
    requires m.Valid() && p.Sound() && Untouched(m.now.fs, p) && LegacyOwned(m.now.lock, p)
    requires !m.crashed ==> m.now.fs.Names(p.job.CandidatePath(), p.job.ino)
    modifies m
    ensures m.Valid() && m.Lost() == old(m.Lost()) && m.shown == old(m.shown)
    ensures old(m.crashed) ==> m.crashed && m.now == old(m.now)
    ensures StillLegacy(m.now, p) && AtHome(m.now.fs, p)
    ensures marked == (p.job.MarkerFile() !in audited.files)
    ensures m.now.fs.names == old(m.now).fs.names && Undisturbed(old(m.now), m.now, p)
    ensures !m.crashed && marked ==> Marked(m.now.fs, p, audited)
  {
    marked := p.job.MarkerFile() !in audited.files;
    if marked {
      m.Write(p.job.CandidatePath(), p.job.Marked(audited));
    }
  }

  lemma LegacyMoveKeepsMarked(before: Fs, after: Fs, p: Plan, audited: Tree)
    requires p.Sound() && Marked(before, p, audited) && LegacyNames(before, after, p)
    ensures Marked(after, p, audited)
  {
    assert Lookup(after.names, p.job.CandidatePath()) == Lookup(before.names, p.job.CandidatePath());
    assert Lookup(after.names, p.job.RejectedPath()) == Lookup(before.names, p.job.RejectedPath());
    assert Lookup(after.names, p.job.Target()) == Lookup(before.names, p.job.Target());
  }

  /** Give up before the journal: the candidate goes, and the legacy skill is untouched. */
  method GiveUp(m: Machine, p: Plan)
    requires m.Valid() && p.Sound() && StillLegacy(m.now, p) && p.job.ino !in m.shown
    modifies m
    ensures m.Valid() && m.Lost() <= old(m.Lost()) + {p.job.ino} && StillLegacy(m.now, p)
    ensures m.shown == old(m.shown) && (old(m.crashed) ==> m.crashed && m.now == old(m.now))
    ensures AtHome(old(m.now).fs, p) ==> AtHome(m.now.fs, p)
    ensures !m.crashed && old(m.now).fs.Names(p.job.CandidatePath(), p.job.ino) ==>
      p.job.CandidatePath() !in m.now.fs.names
    ensures forall q | q != p.job.CandidatePath() :: Lookup(m.now.fs.names, q) == Lookup(old(m.now).fs.names, q)
    ensures Undisturbed(old(m.now), m.now, p)
  {
    DiscardCandidate(m, p.job);
  }

  /** A legacy tree that has come home is where it was. */
  lemma HomeAgain(before: Fs, after: Fs, p: Plan)
    ensures AtHome(before, p) && AtHome(after, p) && LegacyNames(before, after, p) ==> after == before
  {
    if AtHome(before, p) && AtHome(after, p) && LegacyNames(before, after, p) {
      forall q ensures Lookup(after.names, q) == Lookup(before.names, q) {
      }
      SameLookups(after.names, before.names);
    }
  }

  lemma SameLookups(a: map<Path, Inode>, b: map<Path, Inode>)
    requires forall q :: Lookup(a, q) == Lookup(b, q)
    ensures a == b
  {
    forall q ensures q in a <==> q in b {
      assert Lookup(a, q) == Lookup(b, q);
    }
    forall q | q in a ensures a[q] == b[q] {
      assert Lookup(a, q) == Lookup(b, q);
    }
  }

  /** Mark the audited candidate, isolate the legacy tree, and make the two-way journal durable. */
  method JournalMigration(m: Machine, p: Plan, audited: Tree, saves: Saves) returns (journaled: bool)
    requires m.Valid() && p.job.ino !in m.shown && p.Sound() && WholeTree(p.tree, p.record.snap)
    requires Untouched(m.now.fs, p) && LegacyOwned(m.now.lock, p)
    requires !m.crashed ==> m.now.fs.Names(p.job.CandidatePath(), p.job.ino)
    modifies m
    ensures m.Valid() && m.Lost() <= old(m.Lost()) + {p.job.ino}
    ensures p.job.ino !in m.shown && (journaled ==> m.Lost() <= old(m.Lost()))
    ensures MigrationSafe(m.now, p, audited)
    ensures !m.crashed && journaled ==> Poised(m.now, p, audited)
    ensures !m.crashed ==>
      journaled == (
        p.job.MarkerFile() !in audited.files && saves.removal && saves.journal && Verified(p.tree, p.record))
    ensures !m.crashed && !journaled ==>
      && StillLegacy(m.now, p) && AtHome(m.now.fs, p) && p.job.CandidatePath() !in m.now.fs.names
      && forall q | q != p.job.CandidatePath() :: Lookup(m.now.fs.names, q) == Lookup(old(m.now).fs.names, q)
    ensures Undisturbed(old(m.now), m.now, p)
  {
    hide Undisturbed;
    var marked := MarkCandidate(m, p, audited);
    ghost var before := m.now;
    if !marked {
      GiveUp(m, p);
      StillUndisturbed(old(m.now), before, m.now, p);
      return false;
    }
    var isolated := IsolateLegacy(m, p, saves.removal);
    ghost var moved := m.now;
    StillUndisturbed(old(m.now), before, moved, p);
    if !isolated {
      HomeAgain(before.fs, moved.fs, p);
      GiveUp(m, p);
      StillUndisturbed(old(m.now), moved, m.now, p);
      return false;
    }
    if !m.crashed {
      LegacyMoveKeepsMarked(before.fs, m.now.fs, p, audited);
    }
    journaled := CommitJournal(m, p, audited, saves.journal, saves.undo);
    ghost var committed := m.now;
    StillUndisturbed(old(m.now), moved, committed, p);
    if !journaled {
      HomeAgain(before.fs, committed.fs, p);
      GiveUp(m, p);
      StillUndisturbed(old(m.now), committed, m.now, p);
    }
  }

  /** The save that hands ownership to the journal; if it fails the legacy tree goes straight back. */
  method CommitJournal(m: Machine, p: Plan, audited: Tree, save: bool, undo: bool) returns (journaled: bool)
    requires m.Valid() && p.Sound() && WholeTree(p.tree, p.record.snap) && p.job.MarkerFile() !in audited.files
    requires Before(m.now, p) && TreeOf(m.now.fs, p.legacy) == Some(p.tree)
    requires !m.crashed ==> Aside(m.now.fs, p)
    modifies m
    ensures m.Valid() && m.Lost() <= old(m.Lost()) && (old(m.crashed) ==> m.crashed && m.now == old(m.now))
    ensures p.job.ino in m.shown ==> p.job.ino in old(m.shown)
    ensures TreeOf(m.now.fs, p.legacy) == Some(p.tree) && LegacyNames(old(m.now).fs, m.now.fs, p)
    ensures Before(m.now, p) || (Between(m.now, p, audited) && m.now.fs == old(m.now).fs && journaled)
    ensures !m.crashed && journaled ==> Between(m.now, p, audited)
    ensures journaled == save
    ensures !m.crashed && !journaled ==> AtHome(m.now.fs, p)
    ensures Undisturbed(old(m.now), m.now, p)
  {
    hide Undisturbed;
    FilesUndisturbed(m.now, m.now.fs, p);
    SavesUndisturbed(m.now, p, audited);
    m.Save(p.Journaled(m.now.lock, audited), save);
    if !save {
      var restored := RestoreLegacy(m, p, audited, undo);
    }
    return save;
  }

  /** The journal is durable, the legacy tree aside, and the marked candidate ready to be exposed. */
  ghost predicate Poised(s: Durable, p: Plan, audited: Tree) {
    && Journaling(s.lock, p, audited) && Ready(s.fs, p.job, audited) && p.job.MarkerFile() !in audited.files
    && Aside(s.fs, p) && Preclaims(s.lock, p) && p.job.RejectedPath() !in s.fs.names
    && TreeOf(s.fs, p.legacy) == Some(p.tree)
  }

  /**
    Back from an exposed replacement whose links were refused: it moves to its preclaimed recovery, and the
    legacy tree comes home.
  */
  method RollBack(m: Machine, p: Plan, ghost audited: Tree, save: bool) returns (restored: bool)
    requires m.Valid() && p.Sound() && WholeTree(p.tree, p.record.snap)
    requires MigrationSafe(m.now, p, audited) && Journaling(m.now.lock, p, audited)
    requires !m.crashed ==> p.job.RejectedPath() !in m.now.fs.names
    modifies m
    ensures m.Valid() && m.Lost() <= old(m.Lost()) && MigrationSafe(m.now, p, audited) && (old(m.crashed) ==> m.crashed)
    ensures !m.crashed ==> restored == save && AtHome(m.now.fs, p) && p.job.Target() !in m.now.fs.names
    ensures !m.crashed && restored ==> Before(m.now, p)
    ensures !m.crashed && old(m.now).fs.Names(p.job.Target(), p.job.ino) ==>
      m.now.fs.Names(p.job.RejectedPath(), p.job.ino)
    ensures Undisturbed(old(m.now), m.now, p)
  {
    hide Undisturbed;
    FilesUndisturbed(m.now, m.now.fs, p);
    if m.now.fs.Names(p.job.Target(), p.job.ino) {
      var isolated := IsolateRejected(m, p.job.Target(), p.job.RejectedPath(), p.job.ino, []);
      FilesUndisturbed(old(m.now), m.now.fs, p);
      assert Between(m.now, p, audited);
      if !isolated {
        return false;
      }
    }
    ghost var isolated := m.now;
    restored := RestoreLegacy(m, p, audited, save);
    assert Lookup(m.now.fs.names, p.job.RejectedPath()) == Lookup(isolated.fs.names, p.job.RejectedPath());
    StillUndisturbed(old(m.now), isolated, m.now, p);
  }

  /** The legacy tree is home, and the rejected replacement is at the recovery preclaimed for it. */
  ghost predicate RolledBack(fs: Fs, p: Plan) {
    AtHome(fs, p) && p.job.Target() !in fs.names && fs.Names(p.job.RejectedPath(), p.job.ino)
  }

  /** With the replacement exposed: hand ownership over, or roll back, or leave the journal for a restart. */
  method SettleExposed(m: Machine, p: Plan, ghost audited: Tree, links: Fanout, save: bool, undo: bool)
    returns (end: Settlement)
    requires m.Valid() && p.Sound() && WholeTree(p.tree, p.record.snap)
    requires MigrationSafe(m.now, p, audited) && Journaling(m.now.lock, p, audited)
    requires !m.crashed ==> Exposed(m.now, p.job, audited) && p.job.RejectedPath() !in m.now.fs.names
    modifies m
    ensures m.Valid() && m.Lost() <= old(m.Lost()) && MigrationSafe(m.now, p, audited) && (old(m.crashed) ==> m.crashed)
    ensures !m.crashed && end.Committed? ==> CanonicalOwned(m.now.lock, p, audited)
    ensures !m.crashed && end.Dropped? ==> LegacyOwned(m.now.lock, p) && AtHome(m.now.fs, p)
    ensures !m.crashed ==>
      && (end.Committed? <==> links.Linked? && save)
      && (end.Dropped? <==> links.LinkRefused? && undo)
      && !end.NothingToDo?
    ensures !m.crashed ==>
      if links.LinkRefused? then RolledBack(m.now.fs, p)
      else Aside(m.now.fs, p) && m.now.fs.Names(p.job.Target(), p.job.ino)
    ensures Undisturbed(old(m.now), m.now, p)
  {
    hide Undisturbed;
    end := SettleMigration(m, p, audited, links.Linked?, save);
    if links.LinkRefused? && !m.crashed {
      ghost var settled := m.now;
      var restored := RollBack(m, p, audited, undo);
      StillUndisturbed(old(m.now), settled, m.now, p);
      return if restored then Dropped else Stuck;
    }
  }

  /**
    Expose the replacement and settle the journal, forward or back. `save` is whether the ownership is saved at
    the settlement or else at the end of the run, and `undo` likewise for a rollback.
  */
  method PublishMigration(
    m: Machine, p: Plan, audited: Tree, accept: Tree -> bool, links: Fanout, save: bool, undo: bool)
    returns (end: Settlement)
    requires m.Valid() && p.Sound() && WholeTree(p.tree, p.record.snap)
    requires Poised(m.now, p, audited)
    modifies m
    ensures m.Valid() && m.Lost() <= old(m.Lost()) && MigrationSafe(m.now, p, audited)
    ensures !m.crashed && end.Committed? ==> CanonicalOwned(m.now.lock, p, audited)
    ensures !m.crashed && end.Dropped? ==> LegacyOwned(m.now.lock, p) && AtHome(m.now.fs, p)
    ensures !m.crashed ==>
      var sound := accept(p.job.Marked(audited));
      && (end.Committed? <==> sound && links.Linked? && save)
      && (end.Dropped? <==> (!sound || links.LinkRefused?) && undo)
      && !end.NothingToDo?
      && if !sound || links.LinkRefused? then RolledBack(m.now.fs, p)
         else Aside(m.now.fs, p) && m.now.fs.Names(p.job.Target(), p.job.ino)
    ensures Undisturbed(old(m.now), m.now, p)
  {
    hide Undisturbed;
    ghost var ready := m.now;
    var exposure, published := ExposeFirst(m, p.job, audited, accept, _ => []);
    assert Lookup(m.now.fs.names, p.LegacyTarget()) == Lookup(old(m.now).fs.names, p.LegacyTarget());
    assert Lookup(m.now.fs.names, p.Recovery()) == Lookup(old(m.now).fs.names, p.Recovery());
    assert Between(m.now, p, audited);
    ghost var exposed := m.now;
    FilesUndisturbed(ready, exposed.fs, p);
    if !exposure.InPlace? {
      var restored := RestoreLegacy(m, p, audited, undo);
      StillUndisturbed(ready, exposed, m.now, p);
      assert Lookup(m.now.fs.names, p.job.RejectedPath()) == Lookup(exposed.fs.names, p.job.RejectedPath());
      return if restored then Dropped else Stuck;
    }
    end := SettleExposed(m, p, audited, links, save, undo);
    StillUndisturbed(ready, exposed, m.now, p);
  }

  /**
    A migration that may die at any step, followed by any number of recoveries that may die at any
    step. The legacy tree is complete and reachable throughout, and the first recovery that finishes
    leaves exactly one of the two trees live and owned: the replacement, if the migration was committed.
    Nothing else in the lockfile or on the disk is ever touched.
  */
  method MigrateAcrossCrashes(
    m: Machine, p: Plan, extracted: Tree, accept: Tree -> bool, links: Fanout, saves: Saves, lives: seq<Attempt>)
    returns (committed: bool, settled: bool)
    requires m.Valid() && Ripe(m.now, p)
    modifies m
    ensures m.Valid() && m.Lost() <= old(m.Lost()) + {p.job.ino} && (p.job.ino in m.shown ==> m.Lost() <= old(m.Lost()))
    ensures MigrationSafe(m.now, p, extracted) && Undisturbed(old(m.now), m.now, p)
    ensures settled ==> ExactlyOneLive(m.now, p, extracted)
    ensures committed ==> m.now.fs.Names(p.job.Target(), p.job.ino)
    ensures committed && settled ==> CanonicalOwned(m.now.lock, p, extracted)
  {
    hide Undisturbed;
    var end := Migrate(m, p, extracted, accept, links, saves);
    committed, settled := !m.crashed && end.Committed?, false;
    for i := 0 to |lives|
      invariant m.Valid() && m.Lost() <= old(m.Lost()) + {p.job.ino}
      invariant p.job.ino in m.shown ==> m.Lost() <= old(m.Lost())
      invariant MigrationSafe(m.now, p, extracted) && Undisturbed(old(m.now), m.now, p)
      invariant settled ==> ExactlyOneLive(m.now, p, extracted)
      invariant committed ==> m.now.fs.Names(p.job.Target(), p.job.ino)
    {
      m.Restart(lives[i].steps);
      ghost var before := m.now;
      var done := Recover(m, p, extracted, lives[i].links, lives[i].save);
      StillUndisturbed(old(m.now), before, m.now, p);
      settled := done && !m.crashed;
    }
  }
}
