/**
  Upgrading an installed skill: the stable tree moves aside to a preclaimed staging name, the audited
  candidate takes its place, and a lockfile journal holding both snapshots covers the gap.
*/
module SkillUpgrade {
  import opened Options
  import opened Disk
  import opened SkillInstaller
  import opened SkillRemoval
  import Paths

  datatype UpgradeSeam =
    | AfterPreviousMove | AfterPreviousAudit | BeforeUpgradeMove | AfterUpgradeExposure
    | BeforeUpgradeIsolation | AfterPreviousRetention

  datatype UpgradeOutcome = Swapped | Declined

  ghost predicate Still(seams: UpgradeSeam -> seq<Act>) { forall s :: seams(s) == [] }

  function StagingPath(job: Job, stagingId: string): Path { Path(job.root, Staging(stagingId)) }

  /** The files that the snapshots of a record own between them, and their directories if all of them track any. */
  function OwnedFiles(record: Record): set<string> {
    record.snap.files.Keys + if record.pending.Some? then record.pending.value.files.Keys else {}
  }

  function OwnedDirs(record: Record): Option<set<string>> {
    if record.pending.None? then record.snap.dirs
    else if record.snap.dirs.Some? && record.pending.value.dirs.Some? then
      Some(record.snap.dirs.value + record.pending.value.dirs.value)
    else None
  }

  /** The tree has an entry that no snapshot owns; directories count only when every snapshot tracks them. */
  ghost predicate Untracked(t: Tree, record: Record) {
    || (exists f :: f in t.files && forall s | s in Owners(record) :: f !in s.files)
    || ((forall s | s in Owners(record) :: s.dirs.Some?)
        && exists d :: d in t.dirs && forall s | s in Owners(record) :: d !in s.dirs.value)
  }

  predicate HasUntracked(t: Tree, record: Record)
    ensures HasUntracked(t, record) <==> Untracked(t, record)
  {
    !(t.files.Keys <= OwnedFiles(record)) || (OwnedDirs(record).Some? && !(t.dirs <= OwnedDirs(record).value))
  }

  /** The directories that relative paths lie in. */
  function Around(paths: set<string>): set<string> {
    set p, n | p in paths && 0 < n < |Paths.Split(p)| :: Paths.Join(Paths.Split(p)[..n])
  }

  lemma AroundMeans(paths: set<string>, dir: string)
    ensures dir in Around(paths) <==> exists p :: p in paths && Paths.LiesIn(p, dir)
  {
    forall p ensures Paths.LiesIn(p, dir) <==>
        exists n :: 0 < n < |Paths.Split(p)| && Paths.Join(Paths.Split(p)[..n]) == dir
    {
      Paths.LeadingComponents(p, dir);
    }
  }

  /** A directory that the recorded paths require: a recorded one, or one that a recorded path lies in. */
  ghost predicate Required(dir: string, record: Record) {
    var dirs := if OwnedDirs(record).Some? then OwnedDirs(record).value else {};
    dir in dirs || exists p :: p in OwnedFiles(record) + dirs && Paths.LiesIn(p, dir)
  }

  /** Exactly the recorded paths are there, whatever their contents. */
  ghost predicate ExactPaths(t: Tree, record: Record) {
    && (forall f :: f in t.files <==> exists s :: s in Owners(record) && f in s.files)
    && (forall d :: d in t.dirs <==> Required(d, record))
  }

  predicate HasExactPaths(t: Tree, record: Record) {
    var dirs := if OwnedDirs(record).Some? then OwnedDirs(record).value else {};
    t.files.Keys == OwnedFiles(record) && t.dirs == dirs + Around(OwnedFiles(record)) + Around(dirs)
  }

  lemma HasExactPathsMeans(t: Tree, record: Record)
    ensures HasExactPaths(t, record) <==> ExactPaths(t, record)
  {
    var files, dirs := OwnedFiles(record), if OwnedDirs(record).Some? then OwnedDirs(record).value else {};
    forall f ensures f in files <==> exists s :: s in Owners(record) && f in s.files {
      assert f in record.snap.files ==> record.snap in Owners(record);
      assert record.pending.Some? && f in record.pending.value.files ==> record.pending.value in Owners(record);
    }
    forall d ensures d in dirs + Around(files) + Around(dirs) <==> Required(d, record) {
      AroundMeans(files, d);
      AroundMeans(dirs, d);
    }
  }

  /** What lies in a directory of the tree makes it one of the tree's directories, as on any disk. */
  ghost predicate Closed(t: Tree) {
    forall p, d | p in t.files.Keys + t.dirs && Paths.LiesIn(p, d) :: d in t.dirs
  }

  /** An intact tree under a settled record has nothing untracked in it and exactly the recorded paths. */
  lemma WholeIsExact(t: Tree, record: Record)
    requires record.pending.None? && WholeTree(t, record.snap) && Closed(t)
    ensures !Untracked(t, record) && ExactPaths(t, record)
  {
    assert Owners(record) == [record.snap];
  }

  /** Not a tree that the upgrade may replace: something in it is untracked or, where asked for, nothing is verified. */
  ghost predicate Unfit(t: Option<Tree>, record: Record, verify: bool) {
    || (t.Some? && Untracked(t.value, record))
    || (verify && !(t.Some? && Verified(t.value, record)))
  }

  /** The swap journal: the stable record with the candidate's snapshot beside it. */
  function SwapJournal(record: Record, job: Job, audited: Tree): Record {
    Record(record.snap, record.root, false, None, None, None, Some(job.Snap(audited)), None, None)
  }

  /** What a finished upgrade records. */
  function Upgraded(record: Record, job: Job, audited: Tree): Record {
    Record(job.Snap(audited), record.root, false, None, None, None, None, None, None)
  }

  /** The stable side of a journal, without any of its lifecycle fields. */
  function StableOnly(record: Record): Record {
    Record(record.snap, record.root, false, None, None, None, None, None, None)
  }

  /**
    Whichever complete snapshot is on disk becomes stable; if neither is, both stay owned.
    `t` is the tree at the record's target.
  */
  function ReconcileUpgrade(record: Record, t: Option<Tree>): Record {
    if record.pending.None? then record
    else if IsWhole(t, record.pending.value) then StableOnly(record).(snap := record.pending.value)
    else if IsWhole(t, record.snap) then StableOnly(record)
    else record
  }

  /** A record that says where a snapshot lies and nothing else. */
  ghost predicate Plain(record: Record, root: string) {
    record == Record(record.snap, root, false, None, None, None, record.pending, None, None)
  }

  /** The journal goes exactly when one of the two snapshots is wholly on disk, and that one is kept. */
  lemma JournalDroppedExactlyWhenWhole(record: Record, t: Option<Tree>)
    requires record.pending.Some?
    ensures var r := ReconcileUpgrade(record, t);
      && (r.pending.None? <==> t.Some? && (WholeTree(t.value, record.snap) || WholeTree(t.value, record.pending.value)))
      && (r.pending.None? ==> WholeTree(t.value, r.snap) && Plain(r, record.root))
      && (r.pending.None? ==>
            r.snap == if WholeTree(t.value, record.pending.value) then record.pending.value else record.snap)
      && (r.pending.Some? ==> r == record)
  {
  }

  /** An owned tree and its replacement: the installed record, the inode it names on disk, and the staging name. */
  datatype Swap = Swap(job: Job, stagingId: string, record: Record, previous: Inode, stable: Tree)
  {
    function StagingAt(): Path { StagingPath(job, stagingId) }
  }

  /**
    What the swap may leave behind at any crash point when no other process interferes. The target names
    the complete previous tree, nothing, or the complete candidate; the previous tree is never lost, and
    while it is aside the lockfile preclaims its staging name; while the candidate is visible the
    lockfile owns it.
  */
  ghost predicate SwapSafe(s: Durable, w: Swap, audited: Tree) {
    && w.job.key in s.lock.installed
    && var record := s.lock.installed[w.job.key];
    var journal := SwapJournal(w.record, w.job, audited);
    || (&& Unswapped(s.fs, w)
        && (record == w.record || record == journal
            || (WholeTree(w.stable, w.record.snap) && record == StableOnly(w.record))
            || (w.stable == audited && record == Upgraded(w.record, w.job, audited))))
    || (record == journal && MidSwap(s.fs, w) && w.stagingId in s.lock.upgrades)
    || (&& (record == journal || record == Upgraded(w.record, w.job, audited))
        && AfterSwap(s.fs, w, audited) && w.stagingId in s.lock.upgrades)
  }

  /** The three layouts of a swap: previous tree visible, nothing visible, candidate visible. */
  ghost predicate Unswapped(fs: Fs, w: Swap) {
    fs.Names(w.job.Target(), w.previous) && TreeOf(fs, w.previous) == Some(w.stable)
  }

  ghost predicate MidSwap(fs: Fs, w: Swap) {
    w.job.Target() !in fs.names && fs.Names(w.StagingAt(), w.previous) && TreeOf(fs, w.previous) == Some(w.stable)
  }

  ghost predicate AfterSwap(fs: Fs, w: Swap, audited: Tree) {
    && fs.Names(w.job.Target(), w.job.ino) && TreeOf(fs, w.job.ino) == Some(audited)
    && fs.Names(w.StagingAt(), w.previous) && TreeOf(fs, w.previous) == Some(w.stable)
  }

  /** The audited candidate is built and hidden. */
  ghost predicate Hidden(fs: Fs, w: Swap, audited: Tree) {
    fs.Names(w.job.CandidatePath(), w.job.ino) && TreeOf(fs, w.job.ino) == Some(audited)
  }

  /** The candidate is built and nothing has moved yet. */
  ghost predicate Poised(fs: Fs, w: Swap, audited: Tree) {
    Unswapped(fs, w) && w.StagingAt() !in fs.names && Hidden(fs, w, audited)
  }

  /**
    The start of an upgrade: the record, the tree it names, whatever became of that, and a free staging name.
    A journal still in the record is one that the disk does not resolve.
  */
  ghost predicate Installed(s: Durable, w: Swap) {
    && w.job.key in s.lock.installed && s.lock.installed[w.job.key] == w.record && w.record.root == w.job.root
    && Unswapped(s.fs, w) && w.StagingAt() !in s.fs.names
    && ReconcileUpgrade(w.record, Some(w.stable)) == w.record
    && w.previous != w.job.ino
  }

  /** The item is owned as it was, by one of the snapshots it had, by the new one, or by an old and the new one. */
  ghost predicate OwnedBy(record: Record, w: Swap, audited: Tree) {
    var next := Snapshot(w.job.sha, audited.files, Some(audited.dirs));
    || record == w.record
    || (Plain(record, w.record.root)
        && (|| (record.pending.None? && (record.snap in Owners(w.record) || record.snap == next))
            || (record.pending == Some(next) && record.snap == w.record.snap)))
  }

  /** Preclaim the two recovery identities, forgetting those whose directories are gone. */
  function Preclaimed(s: Durable, w: Swap): Lock {
    s.lock.(upgrades := {w.stagingId, w.job.rejectionId} + set id | id in s.lock.upgrades
      && (Path(w.job.root, Staging(id)) in s.fs.names || Path(w.job.root, Rejected(id)) in s.fs.names))
  }

  /** A recovery of this identity exists. */
  ghost predicate HasRecovery(fs: Fs, root: string, id: string) {
    Path(root, Staging(id)) in fs.names || Path(root, Rejected(id)) in fs.names
  }

  /**
    The lockfile changes in the entry of this item and in the claims: of those, the ones whose directory exists
    stay, and none but the two of this upgrade are added.
  */
  ghost predicate OnlyThisItem(before: Durable, after: Lock, w: Swap) {
    && OnlyEntry(before.lock.(upgrades := after.upgrades), after, w.job.key)
    && (forall id | id in before.lock.upgrades && HasRecovery(before.fs, w.job.root, id) :: id in after.upgrades)
    && (forall id | id in after.upgrades :: id in before.lock.upgrades || id == w.stagingId || id == w.job.rejectionId)
  }

  /** Once the claims are saved they are these: the two of this upgrade, and the old ones whose directory exists. */
  ghost predicate ClaimsSaved(before: Durable, after: Lock, w: Swap) {
    forall id :: id in after.upgrades <==>
      || id == w.stagingId || id == w.job.rejectionId
      || (id in before.lock.upgrades && HasRecovery(before.fs, w.job.root, id))
  }

  lemma StillOnlyThis(before: Durable, mid: Lock, after: Lock, w: Swap)
    requires OnlyThisItem(before, mid, w) && OnlyEntry(mid, after, w.job.key)
    ensures OnlyThisItem(before, after, w)
  {
  }

  lemma ClaimingIsOnlyThis(before: Durable, after: Lock, w: Swap)
    ensures after == before.lock ==> OnlyThisItem(before, after, w)
    ensures OnlyEntry(Preclaimed(before, w), after, w.job.key) ==>
      OnlyThisItem(before, after, w) && ClaimsSaved(before, after, w)
  {
  }

  /** The previous tree is aside and the candidate still hidden. */
  ghost predicate MidCandidate(fs: Fs, w: Swap, audited: Tree) { MidSwap(fs, w) && Hidden(fs, w, audited) }

  /**
    Move the previous tree aside, if there is one, and vet it once it is out of reach. `None` means the
    upgrade stops; a tree that fails the vetting is put back when its name is still free.
  */
  method MoveAside(m: Machine, w: Swap, verify: bool, seams: UpgradeSeam -> seq<Act>) returns (had: Option<bool>)
    requires m.Valid()
    modifies m
    ensures m.Valid() && m.Lost() <= old(m.Lost()) && (old(m.crashed) ==> m.crashed && m.now == old(m.now))
    ensures m.now.lock == old(m.now).lock
    ensures had.None? && w.job.ino !in old(m.shown) && w.job.ino in m.shown ==>
      m.now.fs.Names(w.job.Target(), w.job.ino)
    ensures !m.crashed ==>
      var fs, target, staging := old(m.now).fs, w.job.Target(), w.StagingAt();
      var met := ActsFs(RenameFs(fs, target, staging), seams(AfterPreviousMove));
      if target !in fs.names then
        had == Some(false) && m.now.fs == met
      else if staging in fs.names then
        had == None && m.now.fs == fs
      else if Unfit(met.TreeAt(staging), w.record, verify) then
        had == None && m.now.fs == RenameFs(met, staging, target)
      else
        had == Some(true) && m.now.fs == ActsFs(met, seams(AfterPreviousAudit))
    ensures Still(seams) ==>
      m.now.fs == old(m.now).fs || m.now.fs == RenameFs(old(m.now).fs, w.job.Target(), w.StagingAt())
  {
    hide ActFs, OwnedFiles, OwnedDirs, Untracked, Verified;
    var target, staging := w.job.Target(), w.StagingAt();
    var r := m.Rename(target, staging);
    if r.Occupied? {
      return None;
    }
    var moved := r.Moved?;
    m.Interfere(seams(AfterPreviousMove));
    if moved {
      var t := m.now.fs.TreeAt(staging);
      var untracked := t.Some? && HasUntracked(t.value, w.record);
      if untracked || (verify && !(t.Some? && IsVerified(t.value, w.record))) {
        r := m.Rename(staging, target);
        RenamedBack(old(m.now).fs, target, staging);
        return None;
      }
      m.Interfere(seams(AfterPreviousAudit));
    }
    return Some(moved);
  }

  /**
    Expose the audited candidate and check it. `true` means the target was seen to be exactly the audit; a
    candidate that is seen to be anything else is moved to its preclaimed recovery.
  */
  method Exchange(m: Machine, w: Swap, audited: Tree, accept: Tree -> bool, seams: UpgradeSeam -> seq<Act>)
    returns (exchanged: bool, ghost published: Durable)
    requires m.Valid()
    modifies m
    ensures m.Valid() && m.Lost() <= old(m.Lost()) && (old(m.crashed) ==> m.crashed && m.now == old(m.now))
    ensures m.now.lock == old(m.now).lock
    ensures exchanged && !m.crashed ==>
      && published.fs.Names(w.job.Target(), w.job.ino) && published.fs.TreeAt(w.job.Target()) == Some(audited)
      && m.now == published
    ensures !m.crashed ==>
      var met := ActsFs(old(m.now).fs, seams(BeforeUpgradeMove));
      var moved := RenameOutcome(met, w.job.CandidatePath(), w.job.Target()).Moved?;
      var seen := ActsFs(RenameFs(met, w.job.CandidatePath(), w.job.Target()), seams(AfterUpgradeExposure));
      && exchanged == (
        && moved && accept(audited)
        && seen.Names(w.job.Target(), w.job.ino) && seen.TreeAt(w.job.Target()) == Some(audited))
      && (!moved ==> m.now.fs == met) && (exchanged ==> m.now.fs == seen)
      && (moved && !exchanged && seams(BeforeUpgradeIsolation) == [] ==>
            m.now.fs == if seen.Names(w.job.Target(), w.job.ino)
              then RenameFs(seen, w.job.Target(), w.job.RejectedPath()) else seen)
    ensures Still(seams) && accept(audited) && Hidden(old(m.now).fs, w, audited) ==>
      m.now.fs == old(m.now).fs || m.now.fs == RenameFs(old(m.now).fs, w.job.CandidatePath(), w.job.Target())
  {
    hide ActFs;
    published := m.now;
    m.Interfere(seams(BeforeUpgradeMove));
    var r := m.Rename(w.job.CandidatePath(), w.job.Target());
    if !r.Moved? {
      return false, published;
    }
    m.Interfere(seams(AfterUpgradeExposure));
    var found := m.now.fs.TreeAt(w.job.Target());
    if m.now.fs.Names(w.job.Target(), w.job.ino) && found == Some(audited) && accept(audited) {
      return true, m.now;
    }
    var isolated := IsolateRejected(
      m, w.job.Target(), w.job.RejectedPath(), w.job.ino, seams(BeforeUpgradeIsolation));
    return false, published;
  }

  /** The two renames of a swap, in order. */
  ghost function AsideFs(fs: Fs, w: Swap): Fs { RenameFs(fs, w.job.Target(), w.StagingAt()) }

  ghost function SwappedFs(fs: Fs, w: Swap): Fs {
    RenameFs(AsideFs(fs, w), w.job.CandidatePath(), w.job.Target())
  }

  /** The previous tree may be moved, or there is none. */
  ghost predicate Clear(fs: Fs, w: Swap, verify: bool) {
    w.job.Target() in fs.names ==>
      w.StagingAt() !in fs.names && !Unfit(fs.TreeAt(w.job.Target()), w.record, verify)
  }

  /** The previous tree, if there is one, has exactly the recorded paths. */
  ghost predicate PathsExact(fs: Fs, w: Swap) {
    var t := fs.TreeAt(w.job.Target());
    t.Some? ==> ExactPaths(t.value, w.record)
  }

  /** What an undisturbed swap comes to: it goes through unless the previous tree is in its way or not its own. */
  ghost predicate SwapEnds(before: Fs, after: Fs, w: Swap, verify: bool, swapped: bool) {
    if Clear(before, w, verify) then
      && after == SwappedFs(before, w)
      && swapped == PathsExact(before, w)
    else
      after == before.(names := before.names - {w.job.CandidatePath()}) && !swapped
  }

  /** Where an undisturbed swap may be when it dies. */
  ghost predicate SwapStage(before: Fs, after: Fs, w: Swap, verify: bool) {
    || after == before
    || (after == AsideFs(before, w) && w.StagingAt() !in before.names)
    || (after == SwappedFs(before, w) && Clear(before, w, verify))
    || (after == before.(names := before.names - {w.job.CandidatePath()}) && !Clear(before, w, verify))
  }

  /** The renames of a swap, spelled out on the namespace. */
  lemma SwappedNames(fs: Fs, w: Swap, audited: Tree)
    requires fs.Valid() && Hidden(fs, w, audited) && (w.job.Target() in fs.names ==> w.StagingAt() !in fs.names)
    ensures
      var names, target := fs.names - {w.job.CandidatePath()}, w.job.Target();
      SwappedFs(fs, w) == fs.(names :=
        (if target in names then names[w.StagingAt() := names[target]] else names)[target := w.job.ino])
  {
  }

  /** What the layouts of a swap mean for the item. */
  lemma SwapLayouts(fs: Fs, w: Swap, audited: Tree)
    requires fs.Valid() && Poised(fs, w, audited)
    ensures MidCandidate(AsideFs(fs, w), w, audited) && AfterSwap(SwappedFs(fs, w), w, audited)
    ensures Unswapped(fs.(names := fs.names - {w.job.CandidatePath()}), w)
  {
  }

  /**
    The two renames and their checks. A candidate is thrown away only if the previous tree did not get out of
    its way.
  */
  method SwapTrees(
    m: Machine, w: Swap, audited: Tree, accept: Tree -> bool, verify: bool, seams: UpgradeSeam -> seq<Act>)
    returns (swapped: bool)
    requires m.Valid() && (!m.crashed ==> w.job.ino !in m.shown)
    modifies m
    ensures m.Valid() && m.Lost() <= old(m.Lost()) + {w.job.ino}
    ensures old(m.crashed) ==> m.crashed && m.now == old(m.now)
    ensures w.job.ino in m.shown || swapped ==> m.Lost() <= old(m.Lost())
    ensures m.now.lock == old(m.now).lock
    ensures Still(seams) && accept(audited) && Hidden(old(m.now).fs, w, audited) ==>
      && SwapStage(old(m.now).fs, m.now.fs, w, verify)
      && (!m.crashed ==> SwapEnds(old(m.now).fs, m.now.fs, w, verify, swapped))
  {
    hide ActFs, Unfit, OwnedFiles, OwnedDirs, ExactPaths;
    var had := MoveAside(m, w, verify, seams);
    if had.None? {
      DiscardCandidate(m, w.job);
      return false;
    }
    var exchanged, published := Exchange(m, w, audited, accept, seams);
    if !exchanged {
      return false;
    }
    var kept := m.now.fs.TreeAt(w.StagingAt());
    if had.value && kept.Some? {
      m.Interfere(seams(AfterPreviousRetention));
      HasExactPathsMeans(kept.value, w.record);
      return HasExactPaths(kept.value, w.record);
    }
    return true;
  }

  /** The previous tree is in place, the candidate is built, and the staging name is preclaimed and free. */
  ghost predicate Prepared(s: Durable, w: Swap, audited: Tree) {
    && w.record.root == w.job.root && Poised(s.fs, w, audited) && w.stagingId in s.lock.upgrades
    && ReconcileUpgrade(w.record, Some(w.stable)) == w.record
  }

  /** Nothing stops the swap before its journal is durable. */
  ghost predicate Journalable(fs: Fs, w: Swap, save: bool) {
    var t := fs.TreeAt(w.job.Target());
    save && !(t.Some? && Untracked(t.value, w.record))
  }

  lemma JournalIsOwned(w: Swap, audited: Tree, t: Option<Tree>)
    ensures OwnedBy(SwapJournal(w.record, w.job, audited), w, audited)
    ensures OwnedBy(Upgraded(w.record, w.job, audited), w, audited)
    ensures OwnedBy(ReconcileUpgrade(SwapJournal(w.record, w.job, audited), t), w, audited)
    ensures t == Some(audited) ==>
      ReconcileUpgrade(SwapJournal(w.record, w.job, audited), t) == Upgraded(w.record, w.job, audited)
  {
    assert w.record.snap in Owners(w.record);
  }

  /** A journaled swap is safe wherever it stands. */
  lemma StageIsSafe(s: Durable, before: Fs, w: Swap, audited: Tree, verify: bool)
    requires before.Valid() && Poised(before, w, audited) && SwapStage(before, s.fs, w, verify)
    requires w.job.key in s.lock.installed && s.lock.installed[w.job.key] == SwapJournal(w.record, w.job, audited)
    requires w.stagingId in s.lock.upgrades
    ensures SwapSafe(s, w, audited)
  {
    SwapLayouts(before, w, audited);
  }

  /** Throwing the candidate away leaves the item as it was. */
  lemma UnmovedIsSafe(s: Durable, w: Swap, audited: Tree, verify: bool)
    requires s.fs.Valid() && Poised(s.fs, w, audited)
    requires w.job.key in s.lock.installed && s.lock.installed[w.job.key] == w.record
    ensures SwapSafe(s, w, audited)
    ensures SwapSafe(s.(fs := s.fs.(names := s.fs.names - {w.job.CandidatePath()})), w, audited)
  {
  }

  /** Swap the trees under a durable journal, and record what came of it. */
  method SwapAndConclude(
    m: Machine, w: Swap, audited: Tree, accept: Tree -> bool, verify: bool, seams: UpgradeSeam -> seq<Act>, save: bool)
    returns (swapped: bool)
    requires m.Valid() && (!m.crashed ==> w.job.ino !in m.shown)
    requires w.job.key in m.now.lock.installed
    requires !m.crashed ==> m.now.lock.installed[w.job.key] == SwapJournal(w.record, w.job, audited)
    modifies m
    ensures m.Valid() && m.Lost() <= old(m.Lost()) + {w.job.ino}
    ensures old(m.crashed) ==> m.crashed && m.now == old(m.now)
    ensures w.job.ino in m.shown || swapped ==> m.Lost() <= old(m.Lost())
    ensures OnlyEntry(old(m.now).lock, m.now.lock, w.job.key) && w.job.key in m.now.lock.installed
    ensures !old(m.crashed) ==> OwnedBy(m.now.lock.installed[w.job.key], w, audited)
    ensures !m.crashed && swapped && save ==> m.now.lock.installed[w.job.key] == Upgraded(w.record, w.job, audited)
    ensures Still(seams) && accept(audited) && Hidden(old(m.now).fs, w, audited) ==>
      && SwapStage(old(m.now).fs, m.now.fs, w, verify)
      && (!m.crashed ==> SwapEnds(old(m.now).fs, m.now.fs, w, verify, swapped))
      && (!m.crashed && save && Clear(old(m.now).fs, w, verify) ==>
            m.now.lock.installed[w.job.key] == Upgraded(w.record, w.job, audited))
    ensures Still(seams) && !old(m.crashed) && Prepared(old(m.now), w, audited) && accept(audited) ==>
      SwapSafe(m.now, w, audited)
  {
    hide RenameFs, OwnedBy, ReconcileUpgrade, PathsExact, SwapSafe, SwapStage, SwapJournal, Upgraded, Clear;
    if Hidden(m.now.fs, w, audited) && Clear(m.now.fs, w, verify) {
      SwappedShows(m.now.fs, w, audited, verify);
    }
    swapped := SwapTrees(m, w, audited, accept, verify, seams);
    ghost var there := m.now;
    if Still(seams) && !old(m.crashed) && Prepared(old(m.now), w, audited) && accept(audited) {
      StageIsSafe(there, old(m.now).fs, w, audited, verify);
      ReconcileSettles(there, w, audited);
      if !m.crashed && swapped {
        SwappedIsSafe(there, old(m.now).fs, w, audited, verify);
      }
    }
    JournalIsOwned(w, audited, there.fs.TreeAt(w.job.Target()));
    Conclude(m, w, audited, swapped, save);
  }

  /** With an audited candidate: journal both snapshots, swap the trees, and record what came of it. */
  method ReplaceTree(
    m: Machine, w: Swap, audited: Tree, accept: Tree -> bool, verify: bool, seams: UpgradeSeam -> seq<Act>,
    saveJournal: bool, saveEnd: bool)
    returns (swapped: bool)
    requires m.Valid() && (!m.crashed ==> w.job.ino !in m.shown)
    requires w.job.key in m.now.lock.installed && m.now.lock.installed[w.job.key] == w.record
    modifies m
    ensures m.Valid() && m.Lost() <= old(m.Lost()) + {w.job.ino}
    ensures old(m.crashed) ==> m.crashed && m.now == old(m.now)
    ensures w.job.ino in m.shown || swapped ==> m.Lost() <= old(m.Lost())
    ensures OnlyEntry(old(m.now).lock, m.now.lock, w.job.key)
    ensures w.job.key in m.now.lock.installed && OwnedBy(m.now.lock.installed[w.job.key], w, audited)
    ensures !m.crashed && swapped && saveEnd ==> m.now.lock.installed[w.job.key] == Upgraded(w.record, w.job, audited)
    ensures Still(seams) && accept(audited) && Hidden(old(m.now).fs, w, audited) ==>
      var fs := old(m.now).fs;
      var gone := fs.(names := fs.names - {w.job.CandidatePath()});
      if Journalable(fs, w, saveJournal) then
        && SwapStage(fs, m.now.fs, w, verify)
        && (!m.crashed ==> SwapEnds(fs, m.now.fs, w, verify, swapped))
        && (!m.crashed && saveEnd && Clear(fs, w, verify) ==>
              m.now.lock.installed[w.job.key] == Upgraded(w.record, w.job, audited))
      else
        && m.now.lock == old(m.now).lock && (m.now.fs == fs || m.now.fs == gone)
        && (!m.crashed ==> m.now.fs == gone && !swapped)
    ensures Still(seams) && !old(m.crashed) && Prepared(old(m.now), w, audited) && accept(audited) ==>
      SwapSafe(m.now, w, audited)
  {
    JournalIsOwned(w, audited, None);
    AsBefore(m.now, w, audited);
    if Poised(m.now.fs, w, audited) {
      UnmovedIsSafe(m.now, w, audited, verify);
    }
    assert SwapStage(m.now.fs, m.now.fs, w, verify);
    EntryChanged(m.now.lock, w.job.key, SwapJournal(w.record, w.job, audited));
    hide RenameFs, ActsFs, Untracked, SwapStage, SwapEnds, Clear, SwapSafe, OwnedBy, ReconcileUpgrade, SwapJournal,
      OnlyEntry;
    var t := m.now.fs.TreeAt(w.job.Target());
    if t.Some? && HasUntracked(t.value, w.record) {
      DiscardCandidate(m, w.job);
      return false;
    }
    var journal := SwapJournal(w.record, w.job, audited);
    m.Save(m.now.lock.(installed := m.now.lock.installed[w.job.key := journal]), saveJournal);
    if !saveJournal {
      DiscardCandidate(m, w.job);
      return false;
    }
    if m.crashed {
      return false;
    }
    ghost var journaled := m.now.lock;
    swapped := SwapAndConclude(m, w, audited, accept, verify, seams, saveEnd);
    EntriesChanged(old(m.now).lock, journaled, m.now.lock, w.job.key);
  }

  lemma SwappedShows(fs: Fs, w: Swap, audited: Tree, verify: bool)
    requires fs.Valid() && Hidden(fs, w, audited) && Clear(fs, w, verify)
    ensures SwappedFs(fs, w).TreeAt(w.job.Target()) == Some(audited)
  {
  }

  lemma SwappedIsSafe(s: Durable, before: Fs, w: Swap, audited: Tree, verify: bool)
    requires before.Valid() && Poised(before, w, audited) && SwapEnds(before, s.fs, w, verify, true)
    requires w.stagingId in s.lock.upgrades
    ensures
      var next := Upgraded(w.record, w.job, audited);
      SwapSafe(s.(lock := s.lock.(installed := s.lock.installed[w.job.key := next])), w, audited)
  {
    SwapLayouts(before, w, audited);
  }

  lemma AsBefore(s: Durable, w: Swap, audited: Tree)
    requires w.job.key in s.lock.installed && s.lock.installed[w.job.key] == w.record
    ensures OwnedBy(w.record, w, audited) && (Unswapped(s.fs, w) ==> SwapSafe(s, w, audited))
  {
  }

  /** Building the candidate changes nothing that the swap looks at. */
  lemma CandidateLeavesRest(before: Fs, after: Fs, w: Swap, verify: bool, save: bool)
    requires before.Valid() && w.job.ino !in before.trees
    requires after.names == before.names[w.job.CandidatePath() := w.job.ino] && Apart(before, after, w.job)
    ensures Clear(after, w, verify) == Clear(before, w, verify) && PathsExact(after, w) == PathsExact(before, w)
    ensures Journalable(after, w, save) == Journalable(before, w, save)
  {
    var target := w.job.Target();
    if target in before.names {
      var i := before.names[target];
      assert i in before.names.Values;
      assert Lookup(after.trees, i) == Lookup(before.trees, i);
    }
    assert after.TreeAt(target) == before.TreeAt(target);
  }

  lemma ExchangedOverall(before: Fs, ready: Fs, after: Fs, w: Swap, audited: Tree, verify: bool, swapped: bool)
    requires ready.Valid() && Hidden(ready, w, audited) && Clear(ready, w, verify)
    requires SwapEnds(ready, after, w, verify, swapped)
    requires w.job.CandidatePath() !in before.names
    requires ready.names == before.names[w.job.CandidatePath() := w.job.ino]
    ensures Exchanged(before, after, w, audited) && swapped == PathsExact(ready, w)
  {
    SwappedNames(ready, w, audited);
    AddedAndTaken(before.names, w.job.CandidatePath(), w.job.ino);
  }

  lemma CandidateLeavesInstalled(before: Fs, after: Fs, w: Swap)
    requires Unswapped(before, w) && w.StagingAt() !in before.names
    requires w.previous != w.job.ino && Apart(before, after, w.job)
    ensures Unswapped(after, w) && w.StagingAt() !in after.names
  {
    assert Lookup(after.names, w.job.Target()) == Lookup(before.names, w.job.Target());
    assert Lookup(after.names, w.StagingAt()) == Lookup(before.names, w.StagingAt());
    assert TreeOf(after, w.previous) == TreeOf(before, w.previous);
  }

  /** The candidate is in, the previous tree is at its staging name, and nothing else has another name. */
  ghost predicate Exchanged(before: Fs, after: Fs, w: Swap, audited: Tree) {
    var target := w.job.Target();
    && after.names == (
         if target in before.names then before.names[w.StagingAt() := before.names[target]] else before.names
       )[target := w.job.ino]
    && TreeOf(after, w.job.ino) == Some(audited)
  }

  /** What an undisturbed upgrade needs in order to publish its candidate. */
  ghost predicate Eligible(fs: Fs, w: Swap, extracted: Tree, accept: Tree -> bool, verify: bool, saved: bool) {
    && accept(extracted) && extracted.files != map[]
    && Journalable(fs, w, saved) && Clear(fs, w, verify)
  }

  /**
    The whole upgrade of one installed skill, up to its final lockfile save. Whatever other processes do
    and wherever the process dies, nothing is lost but the job's own candidate, and that only if it was
    never exposed. With no interference every crash point is `SwapSafe`, and a run that finishes has
    published the candidate exactly when it was eligible, however much the installed tree had drifted;
    it reports a swap exactly when the tree it put aside also had the recorded paths.
  */
  method Upgrade(
    m: Machine, w: Swap, extracted: Tree, accept: Tree -> bool, verify: bool,
    prepare: Seam -> seq<Act>, seams: UpgradeSeam -> seq<Act>, saveClaim: bool, saveJournal: bool, saveEnd: bool)
    returns (outcome: UpgradeOutcome, audited: Tree)
    requires m.Valid() && w.job.CandidatePath() !in m.now.fs.names && w.job.ino !in m.now.fs.trees
    requires w.job.key in m.now.lock.installed && m.now.lock.installed[w.job.key] == w.record
    modifies m
    ensures m.Valid() && m.Lost() <= old(m.Lost()) + {w.job.ino}
    ensures w.job.ino in m.shown || outcome.Swapped? ==> m.Lost() <= old(m.Lost())
    ensures w.job.key in m.now.lock.installed && OwnedBy(m.now.lock.installed[w.job.key], w, audited)
    ensures OnlyThisItem(old(m.now), m.now.lock, w)
    ensures !m.crashed && saveClaim ==> ClaimsSaved(old(m.now), m.now.lock, w)
    ensures !m.crashed && outcome.Swapped? && saveEnd ==>
      && w.job.key in m.now.lock.installed && m.now.lock.installed[w.job.key] == Upgraded(w.record, w.job, audited)
      && accept(audited) && audited.files != map[]
    ensures Quiet(prepare) && Still(seams) && Installed(old(m.now), w) ==> SwapSafe(m.now, w, extracted)
    ensures Quiet(prepare) && Still(seams) && !m.crashed ==>
      var fs := old(m.now).fs;
      if Eligible(fs, w, extracted, accept, verify, saveClaim && saveJournal) then
        && audited == extracted && Exchanged(fs, m.now.fs, w, extracted)
        && (outcome.Swapped? <==> PathsExact(fs, w))
        && (saveEnd ==> m.now.lock.installed[w.job.key] == Upgraded(w.record, w.job, extracted))
      else
        outcome.Declined? && m.now.fs.names == fs.names
  {
    assert !saveClaim ==> !Journalable(m.now.fs, w, saveClaim && saveJournal);
    EntryChanged(Preclaimed(m.now, w), w.job.key, w.record);
    ClaimingIsOnlyThis(m.now, m.now.lock, w);
    ClaimingIsOnlyThis(m.now, Preclaimed(m.now, w), w);
    hide ActsFs, RenameFs, OwnedBy, Untracked, PathsExact, Clear, Journalable, ReconcileUpgrade, SwapSafe, SwapStage,
      Exchanged, OnlyThisItem, ClaimsSaved, OnlyEntry, SwapEnds;
    audited := extracted;
    m.Save(Preclaimed(m.now, w), saveClaim);
    AsBefore(m.now, w, audited);
    if !saveClaim {
      return Declined, audited;
    }
    var prepared := PrepareCandidate(m, w.job, extracted, accept, prepare);
    ghost var ready := m.now;
    if Quiet(prepare) && Installed(old(m.now), w) {
      CandidateLeavesInstalled(old(m.now).fs, ready.fs, w);
    }
    AsBefore(ready, w, audited);
    AddedAndTaken(old(m.now).fs.names, w.job.CandidatePath(), w.job.ino);
    if prepared.None? || m.crashed {
      return Declined, audited;
    }
    audited := prepared.value;
    if Quiet(prepare) {
      CandidateLeavesRest(old(m.now).fs, ready.fs, w, verify, saveJournal);
    }
    var swapped := ReplaceTree(m, w, audited, accept, verify, seams, saveJournal, saveEnd);
    ClaimingIsOnlyThis(old(m.now), m.now.lock, w);
    if Quiet(prepare) && Still(seams) && !m.crashed
       && Clear(ready.fs, w, verify) && Journalable(ready.fs, w, saveJournal)
    {
      ExchangedOverall(old(m.now).fs, ready.fs, m.now.fs, w, audited, verify, swapped);
    }
    return if swapped then Swapped else Declined, audited;
  }

  /** Final bookkeeping of the run: record the new tree, or re-read which side of the swap is on disk. */
  method Conclude(m: Machine, w: Swap, audited: Tree, swapped: bool, ok: bool)
    requires m.Valid()
    modifies m
    ensures m.Valid() && m.Lost() == old(m.Lost()) && (old(m.crashed) ==> m.crashed && m.now == old(m.now))
    ensures m.now.fs == old(m.now).fs
    ensures m.now.lock == if ok && !m.crashed
      then old(m.now).lock.(installed := old(m.now).lock.installed[w.job.key :=
             if swapped then Upgraded(w.record, w.job, audited)
             else ReconcileUpgrade(SwapJournal(w.record, w.job, audited), old(m.now).fs.TreeAt(w.job.Target()))])
      else old(m.now).lock
  {
    var journal := SwapJournal(w.record, w.job, audited);
    var record := if swapped then Upgraded(w.record, w.job, audited)
      else ReconcileUpgrade(journal, m.now.fs.TreeAt(w.job.Target()));
    m.Save(m.now.lock.(installed := m.now.lock.installed[w.job.key := record]), ok);
  }

  /** The next sync after a crash: resolve the journal against the disk and save what came of it. */
  method ReconcileSwap(m: Machine, key: string, name: string, ok: bool)
    requires m.Valid() && key in m.now.lock.installed
    modifies m
    ensures m.Valid() && m.Lost() == old(m.Lost()) && m.shown == old(m.shown)
    ensures m.now.fs == old(m.now).fs
    ensures var record := old(m.now).lock.installed[key];
      m.now.lock == if ok && !m.crashed
        then old(m.now).lock.(installed := old(m.now).lock.installed[key :=
               ReconcileUpgrade(record, old(m.now).fs.TreeAt(TargetOf(record, name)))])
        else old(m.now).lock
  {
    var record := m.now.lock.installed[key];
    var next := ReconcileUpgrade(record, m.now.fs.TreeAt(TargetOf(record, name)));
    m.Save(m.now.lock.(installed := m.now.lock.installed[key := next]), ok);
  }

  /**
    After a finished reconcile the item is as it was before the upgrade, or owned as what is on disk; or the
    journal stays, because the swap was caught half-way or the tree in place is neither of the two.
  */
  ghost predicate SwapResolved(s: Durable, w: Swap, audited: Tree) {
    && w.job.key in s.lock.installed
    && var record := s.lock.installed[w.job.key];
    var t := s.fs.TreeAt(w.job.Target());
    || (record == w.record && Unswapped(s.fs, w))
    || (&& record.pending.None? && t.Some? && WholeTree(t.value, record.snap)
        && (Unswapped(s.fs, w) || AfterSwap(s.fs, w, audited)))
    || (&& record == SwapJournal(w.record, w.job, audited)
        && (MidSwap(s.fs, w)
            || (Unswapped(s.fs, w) && w.stable != audited && !WholeTree(w.stable, w.record.snap))))
  }

  function Reconciled(s: Durable, key: string, t: Option<Tree>): Durable
    requires key in s.lock.installed
  {
    s.(lock := s.lock.(installed := s.lock.installed[key := ReconcileUpgrade(s.lock.installed[key], t)]))
  }

  /** Resolving the journal of any crash state keeps it safe and settles it as far as the disk allows. */
  lemma ReconcileSettles(s: Durable, w: Swap, audited: Tree)
    requires SwapSafe(s, w, audited) && ReconcileUpgrade(w.record, Some(w.stable)) == w.record
    ensures var s' := Reconciled(s, w.job.key, s.fs.TreeAt(w.job.Target()));
      SwapSafe(s', w, audited) && SwapResolved(s', w, audited)
  {
    var record := s.lock.installed[w.job.key];
    if record.pending.Some? {
      JournalDroppedExactlyWhenWhole(record, s.fs.TreeAt(w.job.Target()));
    }
  }

  /** One restart, which may die too. */
  method ResumeSwap(m: Machine, w: Swap, steps: nat, save: bool, ghost audited: Tree) returns (settled: bool)
    requires m.Valid() && SwapSafe(m.now, w, audited) && w.record.root == w.job.root && w.previous != w.job.ino
    requires ReconcileUpgrade(w.record, Some(w.stable)) == w.record
    modifies m
    ensures m.Valid() && m.Lost() == old(m.Lost()) && m.shown == old(m.shown)
    ensures m.now.fs == old(m.now).fs && OnlyEntry(old(m.now).lock, m.now.lock, w.job.key)
    ensures SwapSafe(m.now, w, audited) && (settled ==> SwapResolved(m.now, w, audited))
    ensures settled && m.now.fs.Names(w.job.Target(), w.job.ino) ==>
      m.now.lock.installed[w.job.key] == Upgraded(w.record, w.job, audited)
  {
    m.Restart(steps);
    ReconcileSettles(m.now, w, audited);
    EntryChanged(m.now.lock, w.job.key, w.record);
    ReconcileSwap(m, w.job.key, w.job.name, save);
    EntryChanged(old(m.now).lock, w.job.key, m.now.lock.installed[w.job.key]);
    settled := !m.crashed && save;
  }

  /**
    An upgrade that may die at any step, then any number of restarts that may die too. The previous tree
    is never lost, what is visible is always owned, and a restart that finishes resolves the journal as far as
    the disk tells; an upgrade that reported a swap is recorded as the new tree. Nothing else in the lockfile
    changes but the claims on recoveries that do not exist.
  */
  method UpgradeAcrossCrashes(
    m: Machine, w: Swap, extracted: Tree, accept: Tree -> bool, verify: bool, saves: (bool, bool, bool),
    lives: seq<(nat, bool)>)
    returns (swapped: bool, settled: bool)
    requires m.Valid() && w.job.CandidatePath() !in m.now.fs.names && w.job.ino !in m.now.fs.trees
    requires Installed(m.now, w)
    modifies m
    ensures m.Valid() && m.Lost() <= old(m.Lost()) + {w.job.ino} && (w.job.ino in m.shown ==> m.Lost() <= old(m.Lost()))
    ensures SwapSafe(m.now, w, extracted) && OnlyThisItem(old(m.now), m.now.lock, w)
    ensures settled ==> SwapResolved(m.now, w, extracted)
    ensures swapped ==> m.now.fs.Names(w.job.Target(), w.job.ino)
    ensures swapped && settled ==> m.now.lock.installed[w.job.key] == Upgraded(w.record, w.job, extracted)
  {
    var outcome, audited := Upgrade(
      m, w, extracted, accept, verify, _ => [], _ => [], saves.0, saves.1, saves.2);
    hide PathsExact, OwnedBy, SwapResolved, ReconcileUpgrade, OnlyThisItem, OnlyEntry;
    swapped, settled := !m.crashed && outcome.Swapped?, false;
    for i := 0 to |lives|
      invariant m.Valid() && m.Lost() <= old(m.Lost()) + {w.job.ino}
      invariant w.job.ino in m.shown ==> m.Lost() <= old(m.Lost())
      invariant SwapSafe(m.now, w, extracted) && OnlyThisItem(old(m.now), m.now.lock, w)
      invariant settled ==> SwapResolved(m.now, w, extracted)
      invariant swapped ==> m.now.fs.Names(w.job.Target(), w.job.ino)
    {
      ghost var lock := m.now.lock;
      settled := ResumeSwap(m, w, lives[i].0, lives[i].1, extracted);
      StillOnlyThis(old(m.now), lock, m.now.lock, w);
    }
  }

  /** A life among other processes: what they do before it, the steps it completes, and whether its save succeeds. */
  datatype Race = Race(before: seq<Act>, steps: nat, save: bool)

  /** A journal that was dropped left the record whose snapshot was then wholly at the target. */
  ghost predicate RightlyDropped(before: Durable, after: Durable, w: Swap) {
    && w.job.key in before.lock.installed && w.job.key in after.lock.installed
    && (before.lock.installed[w.job.key].pending.Some? && after.lock.installed[w.job.key].pending.None? ==>
          var t := after.fs.TreeAt(w.job.Target());
          t.Some? && WholeTree(t.value, after.lock.installed[w.job.key].snap))
  }

  method RestartAmidRaces(m: Machine, w: Swap, race: Race, ghost audited: Tree)
    requires m.Valid() && w.job.key in m.now.lock.installed && OwnedBy(m.now.lock.installed[w.job.key], w, audited)
    requires w.record.root == w.job.root
    modifies m
    ensures m.Valid() && m.Lost() <= old(m.Lost()) && RightlyDropped(old(m.now), m.now, w)
    ensures w.job.key in m.now.lock.installed && OwnedBy(m.now.lock.installed[w.job.key], w, audited)
    ensures OnlyEntry(old(m.now).lock, m.now.lock, w.job.key)
  {
    m.Restart(race.steps);
    m.Interfere(race.before);
    if m.now.lock.installed[w.job.key].pending.Some? {
      JournalDroppedExactlyWhenWhole(m.now.lock.installed[w.job.key], m.now.fs.TreeAt(w.job.Target()));
    }
    ReconcileSwap(m, w.job.key, w.job.name, race.save);
  }

  /**
    An upgrade and any number of restarts, each of which may die at any step, with other processes acting
    at every seam and before every restart, and saves that fail at will. `ends` are the states in which
    the lives end. No tree is ever lost but a candidate that was never exposed; the item stays owned by
    its old snapshot, its new one or both; and a restart drops one only in favour of what is wholly on disk.
  */
  method UpgradeAmidRaces(
    m: Machine, w: Swap, extracted: Tree, accept: Tree -> bool, verify: bool,
    prepare: Seam -> seq<Act>, seams: UpgradeSeam -> seq<Act>, saves: (bool, bool, bool), races: seq<Race>)
    returns (audited: Tree, ghost ends: seq<Durable>)
    requires m.Valid() && w.job.CandidatePath() !in m.now.fs.names && w.job.ino !in m.now.fs.trees
    requires w.job.key in m.now.lock.installed && m.now.lock.installed[w.job.key] == w.record
    requires w.record.root == w.job.root
    modifies m
    ensures m.Valid() && m.Lost() <= old(m.Lost()) + {w.job.ino} && (w.job.ino in m.shown ==> m.Lost() <= old(m.Lost()))
    ensures |ends| == |races| + 1 && ends[|races|] == m.now
    ensures forall s | s in ends :: w.job.key in s.lock.installed && OwnedBy(s.lock.installed[w.job.key], w, audited)
    ensures forall s | s in ends :: OnlyThisItem(old(m.now), s.lock, w)
    ensures forall i | 0 <= i < |races| :: RightlyDropped(ends[i], ends[i + 1], w)
  {
    var outcome;
    outcome, audited := Upgrade(m, w, extracted, accept, verify, prepare, seams, saves.0, saves.1, saves.2);
    ends := [m.now];
    for i := 0 to |races|
      invariant m.Valid() && m.Lost() <= old(m.Lost()) + {w.job.ino}
      invariant w.job.ino in m.shown ==> m.Lost() <= old(m.Lost())
      invariant |ends| == i + 1 && ends[i] == m.now
      invariant w.job.key in m.now.lock.installed && OwnedBy(m.now.lock.installed[w.job.key], w, audited)
      invariant forall s | s in ends ::
        w.job.key in s.lock.installed && OwnedBy(s.lock.installed[w.job.key], w, audited)
      invariant OnlyThisItem(old(m.now), m.now.lock, w) && forall s | s in ends :: OnlyThisItem(old(m.now), s.lock, w)
      invariant forall j | 0 <= j < i :: RightlyDropped(ends[j], ends[j + 1], w)
    {
      ghost var lock := m.now.lock;
      RestartAmidRaces(m, w, races[i], audited);
      StillOnlyThis(old(m.now), lock, m.now.lock, w);
      ends := ends + [m.now];
    }
  }
}
