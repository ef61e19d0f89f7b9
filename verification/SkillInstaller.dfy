/**
  First installation of a skill: build and audit a candidate, journal it in the lockfile, expose it
  with one no-replace rename, check what was exposed, and settle the journal after a crash.
*/
module SkillInstaller {
  import opened Options
  import opened Disk

  /** Points of the protocol at which other processes may act. */
  datatype Seam =
    | BeforeCandidateAudit | AfterCommit | BeforeCandidateMove | AfterExposure | BeforeIsolation
    | AfterInstallMove | AfterIdentityCheck | AfterAudit

  /** One installation: its lockfile key, pathnames, random identities and the inode of its candidate. */
  datatype Job = Job(
    key: string, root: string, name: string, sha: string,
    candidateId: string, ino: Inode, rejectionId: string, marker: string)
  {
    function Target(): Path { Path(root, Item(name)) }
    function CandidatePath(): Path { Path(root, Candidate(candidateId)) }
    function RejectedPath(): Path { Path(root, Rejected(rejectionId)) }
    function MarkerFile(): string { ".provision-install-" + marker }

    /** The tree that is exposed: the audited contents and the marker file. */
    function Marked(audited: Tree): Tree { audited.(files := audited.files[MarkerFile() := marker]) }

    function Snap(audited: Tree): Snapshot { Snapshot(sha, audited.files, Some(audited.dirs)) }

    /** The ownership preclaim that is durable before the candidate is exposed. */
    function Journal(audited: Tree): Record {
      Record(Snap(audited), root, true, Some(ino), Some(marker), Some(rejectionId), None, None, None)
    }

    /** The committed record, before and after its marker is gone. */
    function Committed(audited: Tree): Record {
      Record(Snap(audited), root, false, None, Some(marker), None, None, None, None)
    }

    function Final(audited: Tree): Record { Committed(audited).(marker := None) }

    function Journaled(lock: Lock, audited: Tree): Lock {
      lock.(installed := lock.installed[key := Journal(audited)])
    }

    function Withdrawn(lock: Lock): Lock { lock.(installed := lock.installed - {key}) }
  }

  datatype FirstOutcome = Refused | Published | Isolated | Unresolved

  ghost predicate Quiet(seams: Seam -> seq<Act>) { forall s :: seams(s) == [] }

  /** The target names the candidate inode, whose tree is the audited one with its marker. */
  ghost predicate Exposed(s: Durable, job: Job, audited: Tree) {
    s.fs.Names(job.Target(), job.ino) && s.fs.TreeAt(job.Target()) == Some(job.Marked(audited))
  }

  /** Throw away an unexposed candidate, only while its pathname still names the inode that was made. */
  method DiscardCandidate(m: Machine, job: Job)
    requires m.Valid() && (!m.crashed && m.now.fs.Names(job.CandidatePath(), job.ino) ==> job.ino !in m.shown)
    modifies m
    ensures m.Valid() && m.shown == old(m.shown) && m.now.lock == old(m.now).lock
    ensures old(m.crashed) ==> m.crashed && m.now == old(m.now)
    ensures m.Lost() <= old(m.Lost()) + {job.ino}
    ensures m.now.fs == if old(m.now).fs.Names(job.CandidatePath(), job.ino) && !m.crashed
      then old(m.now).fs.(names := old(m.now).fs.names - {job.CandidatePath()}) else old(m.now).fs
  {
    if m.now.fs.Names(job.CandidatePath(), job.ino) {
      m.Remove(job.CandidatePath());
    }
  }

  /** Make, fill and audit the candidate. `None` means the attempt failed and nothing was journaled. */
  method PrepareCandidate(m: Machine, job: Job, extracted: Tree, accept: Tree -> bool, seams: Seam -> seq<Act>)
    returns (audited: Option<Tree>)
    requires m.Valid() && job.CandidatePath() !in m.now.fs.names && job.ino !in m.now.fs.trees
    modifies m
    ensures m.Valid() && m.now.lock == old(m.now).lock && (old(m.crashed) ==> m.crashed && m.now == old(m.now))
    ensures m.Lost() <= old(m.Lost()) + {job.ino} && (audited.Some? ==> m.Lost() <= old(m.Lost()))
    ensures m.shown == old(m.shown) && job.ino !in m.shown
    ensures audited.Some? && !m.crashed ==>
      && accept(audited.value) && audited.value.files != map[]
      && m.now.fs.Names(job.CandidatePath(), job.ino)
      && m.now.fs.TreeAt(job.CandidatePath()) == audited
    ensures Quiet(seams) ==> Apart(old(m.now).fs, m.now.fs, job)
    ensures !m.crashed && audited.None? ==> !m.now.fs.Names(job.CandidatePath(), job.ino)
    ensures Quiet(seams) && !m.crashed ==>
      && audited == (if accept(extracted) && extracted.files != map[] then Some(extracted) else None)
      && m.now.fs.names == if audited.None? then old(m.now).fs.names
                           else old(m.now).fs.names[job.CandidatePath() := job.ino]
  {
    hide ActFs;
    audited := None;
    AddedAndTaken(m.now.fs.names, job.CandidatePath(), job.ino);
    var path := job.CandidatePath();
    m.Create(path, job.ino);
    assert Apart(old(m.now).fs, m.now.fs, job);
    m.Write(path, extracted);
    assert Apart(old(m.now).fs, m.now.fs, job);
    m.Interfere(seams(BeforeCandidateAudit));
    var found := m.now.fs.TreeAt(path);
    if found.Some? && accept(found.value) && m.now.fs.Names(path, job.ino) && found.value.files != map[] {
      audited := found;
    } else {
      DiscardCandidate(m, job);
    }
  }

  /** Nothing but the candidate of this job differs between two filesystems. */
  ghost predicate Apart(before: Fs, after: Fs, job: Job) {
    && (forall p | p != job.CandidatePath() :: Lookup(after.names, p) == Lookup(before.names, p))
    && OtherTrees(before, after, job.ino)
  }

  /** The contents of every other directory are as they were. */
  ghost predicate OtherTrees(before: Fs, after: Fs, i: Inode) {
    forall j | j != i :: Lookup(after.trees, j) == Lookup(before.trees, j)
  }

  /** Does the exposed target hold exactly the audited candidate? */
  predicate PublishedIntact(fs: Fs, job: Job, audited: Tree, accept: Tree -> bool) {
    && fs.Names(job.Target(), job.ino)
    && var t := fs.TreeAt(job.Target());
    && t.Some? && accept(t.value)
    && job.MarkerFile() in t.value.files && t.value.files[job.MarkerFile()] == job.marker
    && t.value.files - {job.MarkerFile()} == audited.files && t.value.dirs == audited.dirs
  }

  lemma IntactMeansExposed(s: Durable, job: Job, audited: Tree, accept: Tree -> bool)
    requires job.MarkerFile() !in audited.files
    ensures PublishedIntact(s.fs, job, audited, accept) ==> Exposed(s, job, audited)
    ensures accept(job.Marked(audited)) && Exposed(s, job, audited) ==> PublishedIntact(s.fs, job, audited, accept)
  {
    var t := s.fs.TreeAt(job.Target());
    if t.Some? && job.MarkerFile() in t.value.files {
      var rest := t.value.files - {job.MarkerFile()};
      assert rest[job.MarkerFile() := t.value.files[job.MarkerFile()]] == t.value.files;
    }
    assert job.Marked(audited).files - {job.MarkerFile()} == audited.files;
  }

  /**
    Move a rejected target to its preclaimed recovery. True exactly when the recovery ends up naming
    the expected inode; otherwise the namespace entry that was caught is put back when possible.
  */
  method IsolateRejected(m: Machine, target: Path, recovery: Path, expected: Inode, acts: seq<Act>)
    returns (isolated: bool)
    requires m.Valid() && target != recovery
    modifies m
    ensures m.Valid() && m.now.lock == old(m.now).lock && (old(m.crashed) ==> m.crashed && m.now == old(m.now))
    ensures m.Lost() <= old(m.Lost())
    ensures isolated && !m.crashed ==> m.now.fs.Names(recovery, expected) && !m.now.fs.Names(target, expected)
    ensures !old(m.now).fs.Names(target, expected) ==> m.now == old(m.now) && !isolated
    ensures old(m.now).fs.Names(target, expected) ==>
      var met := ActsFs(old(m.now).fs, acts);
      && (!m.crashed ==> isolated == (met.Names(target, expected) && recovery !in met.names))
      && (!m.crashed ==> m.now.fs == if isolated then RenameFs(met, target, recovery) else met)
    ensures acts == [] ==>
      && (!m.crashed ==> isolated == (old(m.now).fs.Names(target, expected) && recovery !in old(m.now).fs.names))
      && (m.now.fs == old(m.now).fs
          || (old(m.now).fs.Names(target, expected) && m.now.fs == RenameFs(old(m.now).fs, target, recovery)))
  {
    if !m.now.fs.Names(target, expected) {
      return false;
    }
    m.Interfere(acts);
    ghost var met := m.now.fs;
    var r := m.Rename(target, recovery);
    if !r.Moved? {
      return false;
    }
    if !m.now.fs.Names(recovery, expected) {
      r := m.Rename(recovery, target);
      RenamedBack(met, target, recovery);
      return false;
    }
    return true;
  }

  /** What becomes of a journaled candidate when nobody interferes; `names` is the namespace without it. */
  ghost predicate Reached(
    names: map<Path, Inode>, fs: Fs, job: Job, audited: Tree, accept: Tree -> bool, undo: bool, outcome: FirstOutcome)
  {
    && Lookup(fs.trees, job.ino) == Some(job.Marked(audited))
    && if accept(job.Marked(audited)) then
         outcome.Published? && fs.names == names[job.Target() := job.ino]
       else if job.RejectedPath() in names then
         outcome.Unresolved? && fs.names == names[job.Target() := job.ino]
       else
         fs.names == names[job.RejectedPath() := job.ino] && outcome == if undo then Isolated else Unresolved
  }

  lemma WithoutRecord(s: Durable, job: Job, audited: Tree)
    ensures job.key !in s.lock.installed && job.Target() !in s.fs.names ==> Recoverable(s, job, audited)
  {
  }

  lemma WithJournal(s: Durable, lock: Lock, job: Job, audited: Tree)
    requires job.MarkerFile() !in audited.files && (job.Target() !in s.fs.names || Exposed(s, job, audited))
    ensures s.lock == job.Journaled(lock, audited) ==> Recoverable(s, job, audited)
  {
  }

  lemma ExposedIsVindicated(s: Durable, job: Job, audited: Tree)
    ensures Exposed(s, job, audited) ==> Vindicated(s.fs, job.Journal(audited), job.name)
  {
  }

  lemma AddedAndTaken(names: map<Path, Inode>, p: Path, i: Inode)
    requires p !in names
    ensures names[p := i] - {p} == names
  {
  }

  lemma ExposedNames(fs: Fs, job: Job)
    requires fs.Names(job.CandidatePath(), job.ino) && job.Target() !in fs.names
    ensures var exposed, names := RenameFs(fs, job.CandidatePath(), job.Target()), fs.names - {job.CandidatePath()};
      && exposed == fs.(names := names[job.Target() := job.ino])
      && (job.RejectedPath() !in names ==>
            RenameFs(exposed, job.Target(), job.RejectedPath()) == fs.(names := names[job.RejectedPath() := job.ino]))
  {
    var names := fs.names - {job.CandidatePath()};
    assert names[job.Target() := job.ino] - {job.Target()} == names;
  }

  /** Expose a journaled candidate, and withdraw the journal of one that was not published. `lock` is without it. */
  method ExposeOrWithdraw(
    m: Machine, job: Job, audited: Tree, accept: Tree -> bool, seams: Seam -> seq<Act>, save: bool, ghost lock: Lock)
    returns (outcome: FirstOutcome, ghost published: Durable)
    requires m.Valid() && job.MarkerFile() !in audited.files && (!m.crashed ==> job.ino !in m.shown)
    requires job.key !in lock.installed && m.now.lock == job.Journaled(lock, audited)
    modifies m
    ensures m.Valid() && m.Lost() <= old(m.Lost()) + {job.ino} && (old(m.crashed) ==> m.crashed && m.now == old(m.now))
    ensures job.ino in m.shown || outcome.Published? || outcome.Isolated? ==> m.Lost() <= old(m.Lost())
    ensures m.now.lock == lock || m.now.lock == job.Journaled(lock, audited)
    ensures OnlyEntry(lock, m.now.lock, job.key)
    ensures !m.crashed ==>
      && (outcome.Refused? || outcome.Isolated? ==> m.now.lock == lock)
      && (outcome.Published? || outcome.Unresolved? ==> m.now.lock == job.Journaled(lock, audited))
    ensures !m.crashed && outcome.Published? ==>
      && Exposed(published, job, audited)
      && m.now == published.(fs := ActsFs(published.fs, seams(AfterInstallMove)))
      && job.ino in m.now.fs.names.Values
    ensures !m.crashed && outcome.Isolated? ==>
      m.now.fs.Names(job.RejectedPath(), job.ino) && !m.now.fs.Names(job.Target(), job.ino)
    ensures !m.crashed && job.Target() in ActsFs(old(m.now).fs, seams(AfterCommit)).names ==>
      !m.now.fs.Names(job.CandidatePath(), job.ino) && outcome == if save then Refused else Unresolved
    ensures Quiet(seams) && Ready(old(m.now).fs, job, audited) ==>
      && Recoverable(m.now, job, audited) && m.now.fs.trees == old(m.now).fs.trees
      && (!m.crashed ==>
            && !outcome.Refused?
            && Reached(old(m.now).fs.names - {job.CandidatePath()}, m.now.fs, job, audited, accept, save, outcome))
  {
    WithdrawnJournal(lock, job, audited);
    EntryChanged(lock, job.key, job.Journal(audited));
    hide Recoverable, RenameFs, ActFs, Reached, OnlyEntry;
    if Ready(m.now.fs, job, audited) {
      ExposedReaches(m.now.fs, job, audited, accept, save);
    }
    var exposure;
    exposure, published := ExposeFirst(m, job, audited, accept, seams);
    if job.Target() !in m.now.fs.names || Exposed(m.now, job, audited) {
      WithJournal(m.now, lock, job, audited);
    }
    if exposure.InPlace? {
      return Published, published;
    }
    if exposure.Stranded? {
      return Unresolved, published;
    }
    m.Save(job.Withdrawn(m.now.lock), save);
    WithoutRecord(m.now, job, audited);
    if exposure.TargetTaken? {
      DiscardCandidate(m, job);
    }
    outcome := if !save then Unresolved else if exposure.SetAside? then Isolated else Refused;
  }

  lemma ExposedReaches(fs: Fs, job: Job, audited: Tree, accept: Tree -> bool, undo: bool)
    requires Ready(fs, job, audited)
    ensures var exposed, names := RenameFs(fs, job.CandidatePath(), job.Target()), fs.names - {job.CandidatePath()};
      && (accept(job.Marked(audited)) ==> Reached(names, exposed, job, audited, accept, undo, Published))
      && (!accept(job.Marked(audited)) && job.RejectedPath() in fs.names ==>
            Reached(names, exposed, job, audited, accept, undo, Unresolved))
      && (!accept(job.Marked(audited)) && job.RejectedPath() !in fs.names ==>
            Reached(names, RenameFs(exposed, job.Target(), job.RejectedPath()), job, audited, accept, undo,
              if undo then Isolated else Unresolved))
  {
    ExposedNames(fs, job);
  }

  /** Journal the audited candidate and expose it. */
  method CommitFirst(
    m: Machine, job: Job, audited: Tree, accept: Tree -> bool, seams: Seam -> seq<Act>,
    saveCommit: bool, saveUndo: bool)
    returns (outcome: FirstOutcome, ghost published: Durable)
    requires m.Valid() && job.key !in m.now.lock.installed
    requires !m.crashed ==> m.now.fs.Names(job.CandidatePath(), job.ino) && job.ino !in m.shown
    modifies m
    ensures m.Valid() && m.Lost() <= old(m.Lost()) + {job.ino} && (old(m.crashed) ==> m.crashed && m.now == old(m.now))
    ensures job.ino in m.shown || outcome.Published? || outcome.Isolated? ==> m.Lost() <= old(m.Lost())
    ensures m.now.lock == old(m.now).lock || m.now.lock == job.Journaled(old(m.now).lock, audited)
    ensures OnlyEntry(old(m.now).lock, m.now.lock, job.key)
    ensures !m.crashed ==>
      && (outcome.Refused? || outcome.Isolated? ==> m.now.lock == old(m.now).lock)
      && (outcome.Published? || outcome.Unresolved? ==> m.now.lock == job.Journaled(old(m.now).lock, audited))
    ensures !m.crashed && outcome.Published? ==>
      && Exposed(published, job, audited)
      && m.now == published.(fs := ActsFs(published.fs, seams(AfterInstallMove)))
      && job.ino in m.now.fs.names.Values
    ensures !m.crashed && outcome.Isolated? ==>
      m.now.fs.Names(job.RejectedPath(), job.ino) && !m.now.fs.Names(job.Target(), job.ino)
    ensures Quiet(seams) && job.Target() !in old(m.now).fs.names ==> Recoverable(m.now, job, audited)
    ensures Quiet(seams) ==> OtherTrees(old(m.now).fs, m.now.fs, job.ino)
    ensures Quiet(seams) && !m.crashed ==>
      var names := old(m.now).fs.names - {job.CandidatePath()};
      var exposable := job.Target() !in names && job.MarkerFile() !in audited.files && saveCommit;
      && (outcome.Refused? <==> !exposable)
      && if exposable then Reached(names, m.now.fs, job, audited, accept, saveUndo, outcome)
         else m.now.fs.names == names
  {
    EntryChanged(m.now.lock, job.key, job.Journal(audited));
    hide Recoverable, ActsFs, RenameFs, Reached, Exposed, OnlyEntry;
    published := m.now;
    var journaled := JournalCandidate(m, job, audited, saveCommit);
    WithoutRecord(m.now, job, audited);
    if !journaled || m.crashed {
      return Refused, published;
    }
    outcome, published := ExposeOrWithdraw(m, job, audited, accept, seams, saveUndo, old(m.now).lock);
  }

  /**
    The whole first installation, which may die at any step. `saves` say which lockfile saves succeed.
    Whatever other processes do, the item is never committed here, and nothing is ever lost but the job's
    own candidate, which is not lost either once it was exposed; `published` is the state in which
    publication was confirmed. With no interference the outcome and the namespace it leaves are fixed.
  */
  method InstallFirst(
    m: Machine, job: Job, extracted: Tree, accept: Tree -> bool, seams: Seam -> seq<Act>,
    saveCommit: bool, saveUndo: bool)
    returns (outcome: FirstOutcome, audited: Tree, ghost published: Durable)
    requires m.Valid() && job.CandidatePath() !in m.now.fs.names && job.ino !in m.now.fs.trees
    requires job.key !in m.now.lock.installed
    modifies m
    ensures m.Valid() && m.Lost() <= old(m.Lost()) + {job.ino}
    ensures job.ino in m.shown || outcome.Published? || outcome.Isolated? ==> m.Lost() <= old(m.Lost())
    ensures m.now.lock == old(m.now).lock || m.now.lock == job.Journaled(old(m.now).lock, audited)
    ensures OnlyEntry(old(m.now).lock, m.now.lock, job.key)
    ensures !m.crashed ==>
      && (outcome.Refused? || outcome.Isolated? ==> m.now.lock == old(m.now).lock)
      && (outcome.Published? || outcome.Unresolved? ==> m.now.lock == job.Journaled(old(m.now).lock, audited))
    ensures !m.crashed && outcome.Published? ==>
      && Exposed(published, job, audited) && accept(audited) && audited.files != map[]
      && job.key in m.now.lock.installed && Vindicated(published.fs, m.now.lock.installed[job.key], job.name)
      && m.now == published.(fs := ActsFs(published.fs, seams(AfterInstallMove)))
      && job.ino in m.now.fs.names.Values
    ensures !m.crashed && outcome.Isolated? ==>
      m.now.fs.Names(job.RejectedPath(), job.ino) && !m.now.fs.Names(job.Target(), job.ino)
    ensures Quiet(seams) && job.Target() !in old(m.now).fs.names ==> Recoverable(m.now, job, extracted)
    ensures Quiet(seams) ==> OtherTrees(old(m.now).fs, m.now.fs, job.ino)
    ensures Quiet(seams) && !m.crashed ==>
      var names := old(m.now).fs.names;
      var exposable := accept(extracted) && extracted.files != map[] && job.Target() !in names
        && job.MarkerFile() !in extracted.files && saveCommit;
      && (outcome.Refused? <==> !exposable)
      && (!exposable ==> m.now.fs.names == names)
      && (exposable ==> audited == extracted && Reached(names, m.now.fs, job, extracted, accept, saveUndo, outcome))
  {
    EntryChanged(m.now.lock, job.key, job.Journal(extracted));
    hide Reached, Recoverable, Exposed, ActsFs, Vindicated, OnlyEntry;
    published := m.now;
    AddedAndTaken(m.now.fs.names, job.CandidatePath(), job.ino);
    var prepared := PrepareCandidate(m, job, extracted, accept, seams);
    assert Quiet(seams) ==> Lookup(m.now.fs.names, job.Target()) == Lookup(old(m.now).fs.names, job.Target());
    if prepared.None? {
      WithoutRecord(m.now, job, extracted);
      return Refused, extracted, published;
    }
    audited := prepared.value;
    outcome, published := CommitFirst(m, job, audited, accept, seams, saveCommit, saveUndo);
    WithoutRecord(m.now, job, extracted);
    ExposedIsVindicated(published, job, audited);
  }

  /** Mark the candidate and make the ownership preclaim durable before anything is exposed. */
  method JournalCandidate(m: Machine, job: Job, audited: Tree, ok: bool) returns (journaled: bool)
    requires m.Valid() && job.key !in m.now.lock.installed
    requires !m.crashed ==> m.now.fs.Names(job.CandidatePath(), job.ino) && job.ino !in m.shown
    modifies m
    ensures m.Valid() && m.Lost() <= old(m.Lost()) + {job.ino} && (old(m.crashed) ==> m.crashed && m.now == old(m.now))
    ensures m.shown == old(m.shown) && (journaled ==> m.Lost() <= old(m.Lost()))
    ensures m.now.lock == if journaled && !m.crashed then job.Journaled(old(m.now).lock, audited) else old(m.now).lock
    ensures m.now.fs.names ==
      if journaled || m.crashed then old(m.now).fs.names else old(m.now).fs.names - {job.CandidatePath()}
    ensures OtherTrees(old(m.now).fs, m.now.fs, job.ino)
    ensures journaled ==> job.MarkerFile() !in audited.files
    ensures !m.crashed ==>
      journaled == (job.Target() !in old(m.now).fs.names && job.MarkerFile() !in audited.files && ok)
    ensures journaled && !m.crashed ==>
      && m.now.fs.Names(job.CandidatePath(), job.ino)
      && m.now.fs.TreeAt(job.CandidatePath()) == Some(job.Marked(audited))
  {
    journaled := job.Target() !in m.now.fs.names && job.MarkerFile() !in audited.files;
    if journaled {
      m.Write(job.CandidatePath(), job.Marked(audited));
      m.Save(job.Journaled(m.now.lock, audited), ok);
      journaled := ok;
    }
    if !journaled {
      DiscardCandidate(m, job);
    }
  }

  /** What came of exposing a journaled candidate; `Stranded` means that a rejected one could not be moved away. */
  datatype Exposure = TargetTaken | NotMoved | InPlace | SetAside | Stranded

  /** The three layouts of an undisturbed exposure: hidden, exposed, and set aside. */
  lemma ExposureLayouts(fs: Fs, job: Job, audited: Tree)
    requires Ready(fs, job, audited)
    ensures var exposed := RenameFs(fs, job.CandidatePath(), job.Target());
      var isolated := RenameFs(exposed, job.Target(), job.RejectedPath());
      && RenameOutcome(fs, job.CandidatePath(), job.Target()).Moved?
      && OwnNames(fs, fs, job) && OwnNames(fs, exposed, job) && OwnNames(fs, isolated, job)
      && exposed.Names(job.Target(), job.ino) && exposed.TreeAt(job.Target()) == Some(job.Marked(audited))
      && Lookup(exposed.names, job.RejectedPath()) == Lookup(fs.names, job.RejectedPath())
      && (job.Target() !in isolated.names || isolated == exposed)
  {
  }

  /** From the durable journal to the checked exposure, or to the isolation of what was exposed. */
  method ExposeFirst(m: Machine, job: Job, audited: Tree, accept: Tree -> bool, seams: Seam -> seq<Act>)
    returns (exposure: Exposure, ghost published: Durable)
    requires m.Valid()
    requires job.MarkerFile() !in audited.files
    modifies m
    ensures m.Valid() && m.Lost() <= old(m.Lost()) && (old(m.crashed) ==> m.crashed && m.now == old(m.now))
    ensures m.now.lock == old(m.now).lock && (exposure.TargetTaken? ==> m.shown == old(m.shown))
    ensures !m.crashed ==>
      var met := ActsFs(old(m.now).fs, seams(AfterCommit));
      && (exposure.TargetTaken? <==> job.Target() in met.names)
      && (exposure.TargetTaken? ==> m.now.fs == met)
      && (exposure.NotMoved? ==> m.now.fs == ActsFs(met, seams(BeforeCandidateMove)))
    ensures !m.crashed && exposure.InPlace? ==>
      && Exposed(published, job, audited)
      && m.now == published.(fs := ActsFs(published.fs, seams(AfterInstallMove)))
      && job.ino in m.now.fs.names.Values
    ensures !m.crashed && exposure.SetAside? ==>
      m.now.fs.Names(job.RejectedPath(), job.ino) && !m.now.fs.Names(job.Target(), job.ino)
    ensures Quiet(seams) && Ready(old(m.now).fs, job, audited) ==>
      && OwnNames(old(m.now).fs, m.now.fs, job)
      && (job.Target() !in m.now.fs.names || Exposed(m.now, job, audited))
      && (!m.crashed ==> (exposure.InPlace? <==> accept(job.Marked(audited))))
      && (!m.crashed ==> exposure.InPlace? || exposure.SetAside? || exposure.Stranded?)
      && (!m.crashed && (exposure.InPlace? || exposure.Stranded?) ==>
            && Exposed(m.now, job, audited)
            && Lookup(m.now.fs.names, job.RejectedPath()) == Lookup(old(m.now).fs.names, job.RejectedPath()))
      && (!m.crashed && !exposure.InPlace? ==> (exposure.Stranded? <==> job.RejectedPath() in old(m.now).fs.names))
      && (!m.crashed ==>
            var exposed := RenameFs(old(m.now).fs, job.CandidatePath(), job.Target());
            m.now.fs == if exposure.SetAside? then RenameFs(exposed, job.Target(), job.RejectedPath()) else exposed)
  {
    assert Quiet(seams) ==> seams(AfterCommit) == [] && seams(BeforeCandidateMove) == [];
    assert ActsFs(m.now.fs, []) == m.now.fs;
    hide Quiet, ActsFs, OwnNames, RenameFs;
    published := m.now;
    if Ready(m.now.fs, job, audited) {
      ExposureLayouts(m.now.fs, job, audited);
    }
    m.Interfere(seams(AfterCommit));
    if job.Target() in m.now.fs.names {
      return TargetTaken, published;
    }
    m.Interfere(seams(BeforeCandidateMove));
    var r := m.Rename(job.CandidatePath(), job.Target());
    if !r.Moved? {
      // The candidate, wherever it is now, is preserved for the operator.
      return NotMoved, published;
    }
    exposure, published := CheckExposure(m, job, audited, accept, seams);
  }

  /** Only the three names of this job have changed hands, and no contents have changed. */
  ghost predicate OwnNames(before: Fs, after: Fs, job: Job) {
    && after.trees == before.trees
    && forall p | p != job.CandidatePath() && p != job.Target() && p != job.RejectedPath() ::
         Lookup(after.names, p) == Lookup(before.names, p)
  }

  /** Audit what was exposed; on any difference, isolate it. */
  method CheckExposure(m: Machine, job: Job, audited: Tree, accept: Tree -> bool, seams: Seam -> seq<Act>)
    returns (exposure: Exposure, ghost published: Durable)
    requires m.Valid()
    requires job.MarkerFile() !in audited.files
    modifies m
    ensures m.Valid() && m.Lost() <= old(m.Lost()) && (old(m.crashed) ==> m.crashed && m.now == old(m.now))
    ensures m.now.lock == old(m.now).lock
    ensures exposure.InPlace? || exposure.SetAside? || exposure.Stranded?
    ensures !m.crashed && exposure.InPlace? ==>
      && Exposed(published, job, audited)
      && m.now == published.(fs := ActsFs(published.fs, seams(AfterInstallMove)))
      && job.ino in m.now.fs.names.Values
    ensures !m.crashed && exposure.SetAside? ==>
      m.now.fs.Names(job.RejectedPath(), job.ino) && !m.now.fs.Names(job.Target(), job.ino)
    ensures Quiet(seams) && Exposed(old(m.now), job, audited) ==>
      && (exposure.InPlace? <==> accept(job.Marked(audited)))
      && (m.now == old(m.now) || m.now.fs == RenameFs(old(m.now).fs, job.Target(), job.RejectedPath()))
      && (!m.crashed && !exposure.InPlace? ==> (exposure.Stranded? <==> job.RejectedPath() in old(m.now).fs.names))
      && (!m.crashed ==>
            m.now.fs ==
              if exposure.SetAside? then RenameFs(old(m.now).fs, job.Target(), job.RejectedPath()) else old(m.now).fs)
  {
    published := m.now;
    m.Interfere(seams(AfterExposure));
    IntactMeansExposed(m.now, job, audited, accept);
    if PublishedIntact(m.now.fs, job, audited, accept) {
      published := m.now;
      assert m.now.fs.names[job.Target()] == job.ino;
      m.Interfere(seams(AfterInstallMove));
      return InPlace, published;
    }
    var isolated := IsolateRejected(m, job.Target(), job.RejectedPath(), job.ino, seams(BeforeIsolation));
    return if isolated then SetAside else Stranded, published;
  }

  /** The marked candidate is in place and the target is free. */
  ghost predicate Ready(fs: Fs, job: Job, audited: Tree) {
    && fs.Names(job.CandidatePath(), job.ino)
    && fs.TreeAt(job.CandidatePath()) == Some(job.Marked(audited))
    && job.Target() !in fs.names
  }

  lemma WithdrawnJournal(lock: Lock, job: Job, audited: Tree)
    requires job.key !in lock.installed
    ensures job.Withdrawn(job.Journaled(lock, audited)) == lock
  {
  }

  /**
    What a crash may leave behind when no other process interferes: nothing journaled and nothing
    exposed; a journal whose candidate is still hidden or already exposed; or a committed record whose
    target is the audited tree, with or without the marker that its record still names.
  */
  ghost predicate Recoverable(s: Durable, job: Job, audited: Tree) {
    if job.key !in s.lock.installed then
      job.Target() !in s.fs.names
    else
      var record := s.lock.installed[job.key];
      && job.MarkerFile() !in audited.files
      && if record == job.Journal(audited) then
           job.Target() !in s.fs.names || Exposed(s, job, audited)
         else if record == job.Committed(audited) then
           && s.fs.Names(job.Target(), job.ino)
           && (s.fs.TreeAt(job.Target()) == Some(job.Marked(audited)) || s.fs.TreeAt(job.Target()) == Some(audited))
         else
           && record == job.Final(audited)
           && s.fs.Names(job.Target(), job.ino) && s.fs.TreeAt(job.Target()) == Some(audited)
  }

  /** The two ends of an installation: nothing recorded and nothing exposed, or exactly the audited tree owned. */
  ghost predicate AllOrNothing(s: Durable, job: Job, audited: Tree) {
    || (job.key !in s.lock.installed && job.Target() !in s.fs.names)
    || (&& job.key in s.lock.installed
        && s.lock.installed[job.key] == Record(
             Snapshot(job.sha, audited.files, Some(audited.dirs)), job.root, false, None, None, None, None, None, None)
        && s.fs.Names(job.Target(), job.ino) && s.fs.TreeAt(job.Target()) == Some(audited))
  }

  /** What the restart made of one lockfile entry. `Stuck` is an exception: the journal stays as it was. */
  datatype Settlement = NothingToDo | Dropped | Committed | Stuck

  function MarkerName(marker: string): string { ".provision-install-" + marker }

  function TargetOf(record: Record, name: string): Path { Path(record.root, Item(name)) }

  /** The snapshot a first-install record vouches for on disk: its files and, while named, its marker. */
  function Vouched(record: Record): Snapshot {
    match record.marker
    case None => record.snap
    case Some(marker) => record.snap.(files := record.snap.files[MarkerName(marker) := marker])
  }

  function Promoted(record: Record): Record {
    record.(uncommitted := false, candidate := None, rejection := None)
  }

  /** The tree behind an opened descriptor, which follows the inode and not the pathname. */
  function TreeOf(fs: Fs, i: Inode): Option<Tree> { Lookup(fs.trees, i) }

  /** The inode is the recorded candidate and its whole tree is what the record vouches for. */
  ghost predicate Vindicated(fs: Fs, record: Record, name: string) {
    && record.candidate.Some?
    && fs.Names(TargetOf(record, name), record.candidate.value)
    && var t := TreeOf(fs, record.candidate.value);
    && t.Some? && WholeTree(t.value, Vouched(record))
  }

  predicate IsWhole(t: Option<Tree>, s: Snapshot)
    ensures IsWhole(t, s) <==> t.Some? && WholeTree(t.value, s)
  {
    t.Some? && s.dirs.Some? && t.value.files == s.files && t.value.dirs == s.dirs.value
  }

  /** The recovery that a journal preclaims for a rejected candidate. */
  function RejectionOf(record: Record): Path
    requires record.rejection.Some?
  {
    Path(record.root, Rejected(record.rejection.value))
  }

  /** The recorded candidate is at the target, is not what was recorded, and has a recovery to be moved to. */
  ghost predicate Suspect(fs: Fs, record: Record, name: string) {
    && record.candidate.Some? && record.rejection.Some?
    && fs.Names(TargetOf(record, name), record.candidate.value) && !Vindicated(fs, record, name)
  }

  /** The candidate of a journal that preclaims a recovery for it is not at the target. */
  ghost predicate Released(fs: Fs, record: Record, name: string) {
    record.candidate.Some? && record.rejection.Some? ==> !fs.Names(TargetOf(record, name), record.candidate.value)
  }

  /** What the settlement of a journal may do to the lockfile: promote it, drop it, or nothing. */
  ghost predicate JournalSettled(before: Lock, after: Lock, key: string, end: Settlement, finished: bool)
    requires key in before.installed
  {
    && (after == before || after == before.(installed :=
          if end.Committed? then before.installed[key := Promoted(before.installed[key])]
          else before.installed - {key}))
    && (end.Stuck? ==> after == before)
    && (finished && !end.Stuck? ==> after != before)
    && !end.NothingToDo?
  }

  /**
    An undisturbed settlement, case by case: a vindicated candidate is promoted where it is; a changed one is
    moved to its recovery, and if that is taken nothing happens; otherwise the journal goes and nothing moves.
  */
  ghost predicate Settled(
    before: Durable, after: Durable, key: string, name: string, end: Settlement, save: bool, finished: bool)
    requires key in before.lock.installed
  {
    var fs, record := before.fs, before.lock.installed[key];
    var settled := if save then Dropped else Stuck;
    if Vindicated(fs, record, name) then
      after.fs == fs && end == if save then Committed else Stuck
    else if Suspect(fs, record, name) && RejectionOf(record) in fs.names then
      after == before && (finished ==> end == Stuck)
    else if Suspect(fs, record, name) then
      var isolated := RenameFs(fs, TargetOf(record, name), RejectionOf(record));
      && (after.fs == fs || after.fs == isolated) && (finished ==> after.fs == isolated && end == settled)
    else
      after.fs == fs && end == settled
  }

  lemma SettlingKeepsRecoverable(
    before: Durable, after: Durable, job: Job, audited: Tree, end: Settlement, save: bool, finished: bool)
    requires Recoverable(before, job, audited) && Journaled(before.lock, job.key)
    requires JournalSettled(before.lock, after.lock, job.key, end, finished)
    requires Settled(before, after, job.key, job.name, end, save, finished)
    ensures Recoverable(after, job, audited)
    ensures save ==> !end.Stuck?
    ensures finished && end.Dropped? ==> AllOrNothing(after, job, audited)
    ensures job.Target() in before.fs.names ==> after.fs == before.fs && job.key in after.lock.installed
  {
  }

  /**
    Settle an interrupted first install. The journal is promoted only if the target still names the
    recorded candidate inode and that inode held exactly the recorded tree when it was audited; a
    candidate whose contents differ is moved to the recovery preclaimed for it; anything else is left
    alone and only the journal is dropped.
  */
  method SettleFirstInstall(m: Machine, key: string, name: string, seams: Seam -> seq<Act>, save: bool)
    returns (end: Settlement)
    requires m.Valid() && key in m.now.lock.installed && m.now.lock.installed[key].uncommitted
    requires m.now.lock.installed[key].migration.None?
    modifies m
    ensures m.Valid() && m.Lost() <= old(m.Lost()) && (old(m.crashed) ==> m.crashed && m.now == old(m.now))
    ensures JournalSettled(old(m.now).lock, m.now.lock, key, end, !m.crashed)
    ensures var record := old(m.now).lock.installed[key];
      end.Committed? && m.now.lock != old(m.now).lock ==>
        && record.candidate.Some? && m.now.fs.Names(TargetOf(record, name), record.candidate.value)
        && (seams(AfterAudit) == [] ==> Vindicated(m.now.fs, record, name))
    ensures key !in m.now.lock.installed ==> Released(m.now.fs, old(m.now).lock.installed[key], name)
    ensures Quiet(seams) ==> Settled(old(m.now), m.now, key, name, end, save, !m.crashed)
  {
    var record := m.now.lock.installed[key];
    var target := TargetOf(record, name);
    var whole := false;
    var original := record.candidate.Some? && m.now.fs.Names(target, record.candidate.value);
    if original {
      m.Interfere(seams(AfterIdentityCheck));
      whole := IsWhole(TreeOf(m.now.fs, record.candidate.value), Vouched(record));
      original := m.now.fs.Names(target, record.candidate.value);
    }
    var installed := m.now.lock.installed - {key};
    if original && whole {
      m.Interfere(seams(AfterAudit));
      if m.now.fs.Names(target, record.candidate.value) {
        installed := m.now.lock.installed[key := Promoted(record)];
      }
    } else if original && record.rejection.Some? {
      var isolated := IsolateRejected(
        m, target, RejectionOf(record), record.candidate.value, seams(BeforeIsolation));
      if !isolated {
        return Stuck;
      }
    }
    end := if !save then Stuck else if key in installed then Committed else Dropped;
    m.Save(m.now.lock.(installed := installed), save);
  }

  /** What the marker file of a committed record holds on disk, if it is there. */
  function FoundMarker(s: Durable, key: string, name: string): Option<string>
    requires key in s.lock.installed && s.lock.installed[key].marker.Some?
  {
    var record := s.lock.installed[key];
    var t := s.fs.TreeAt(TargetOf(record, name));
    if t.Some? then Lookup(t.value.files, MarkerName(record.marker.value)) else None
  }

  /** At any crash point of the retirement: the file is unlinked at most, and before the record forgets it. */
  ghost predicate MarkerRetired(before: Durable, after: Durable, key: string, name: string)
    requires key in before.lock.installed && before.lock.installed[key].marker.Some?
  {
    var record := before.lock.installed[key];
    var target, marker := TargetOf(record, name), MarkerName(record.marker.value);
    var t, found := before.fs.TreeAt(target), FoundMarker(before, key, name);
    && after.fs.names == before.fs.names
    && (after.fs == before.fs
        || (found == record.marker && after.fs.trees ==
              before.fs.trees[before.fs.names[target] := t.value.(files := t.value.files - {marker})]))
    && (after.lock == before.lock
        || after.lock == before.lock.(installed := before.lock.installed[key :=
             if found.None? || found == record.marker then record.(marker := None)
             else record.(marker := None, snap := record.snap.(files := record.snap.files[marker := found.value]))]))
    && (after.lock != before.lock && found == record.marker ==> after.fs != before.fs)
  }

  /** And if it finishes, both have happened. */
  ghost predicate MarkerGone(before: Durable, after: Durable, key: string, name: string, save: bool)
    requires key in before.lock.installed && before.lock.installed[key].marker.Some?
  {
    && (save ==> after.lock != before.lock)
    && (FoundMarker(before, key, name) == before.lock.installed[key].marker ==> after.fs != before.fs)
  }

  lemma RetiringKeepsRecoverable(before: Durable, after: Durable, job: Job, audited: Tree, save: bool)
    requires Recoverable(before, job, audited) && job.key in before.lock.installed
    requires !before.lock.installed[job.key].uncommitted && before.lock.installed[job.key].marker.Some?
    requires MarkerRetired(before, after, job.key, job.name)
    ensures Recoverable(after, job, audited)
    ensures save && MarkerGone(before, after, job.key, job.name, save) ==> AllOrNothing(after, job, audited)
  {
    assert job.Marked(audited).files - {job.MarkerFile()} == audited.files;
  }

  lemma RetiringKeepsClaim(before: Durable, after: Durable, key: string, name: string)
    requires key in before.lock.installed && before.lock.installed[key].marker.Some?
    requires MarkerRetired(before, after, key, name)
    ensures after.fs.names == before.fs.names && key in after.lock.installed
    ensures after.lock.installed[key].uncommitted == before.lock.installed[key].uncommitted
    ensures after.lock.installed[key].root == before.lock.installed[key].root
    ensures after.lock.installed[key].migration == before.lock.installed[key].migration
    ensures OnlyEntry(before.lock, after.lock, key)
  {
  }

  lemma RetiringKeepsSanctioned(before: Durable, after: Durable, journal: Record, key: string, name: string, i: Inode)
    requires key in before.lock.installed && before.lock.installed[key] == Promoted(journal) && journal.marker.Some?
    requires before.fs.Names(TargetOf(journal, name), i) && i in before.fs.trees
    requires WholeTree(before.fs.trees[i], Vouched(journal))
    requires MarkerRetired(before, after, key, name)
    ensures Sanctioned(TreeOf(after.fs, i), journal)
  {
  }

  /**
    Retire the marker of a committed record. A marker that still reads as written is unlinked; one
    that somebody changed is adopted as an owned file; a missing one is simply forgotten.
  */
  method RetireMarker(m: Machine, key: string, name: string, save: bool)
    requires m.Valid() && key in m.now.lock.installed
    requires !m.now.lock.installed[key].uncommitted && m.now.lock.installed[key].marker.Some?
    modifies m
    ensures m.Valid() && m.Lost() <= old(m.Lost()) && (old(m.crashed) ==> m.crashed && m.now == old(m.now))
    ensures MarkerRetired(old(m.now), m.now, key, name)
    ensures !m.crashed ==> MarkerGone(old(m.now), m.now, key, name, save)
  {
    var record := m.now.lock.installed[key];
    var target := TargetOf(record, name);
    var marker := MarkerName(record.marker.value);
    var t := m.now.fs.TreeAt(target);
    var next := record.(marker := None);
    if t.Some? && marker in t.value.files {
      if t.value.files[marker] == record.marker.value {
        m.Write(target, t.value.(files := t.value.files - {marker}));
      } else {
        next := next.(snap := next.snap.(files := next.snap.files[marker := t.value.files[marker]]));
      }
    }
    m.Save(m.now.lock.(installed := m.now.lock.installed[key := next]), save);
  }

  /** The recorded tree, with its marker or, once that is retired, without it. */
  ghost predicate Sanctioned(t: Option<Tree>, record: Record) {
    && t.Some? && record.snap.dirs == Some(t.value.dirs)
    && (|| t.value.files == Vouched(record).files
        || (record.marker.Some? && t.value.files == Vouched(record).files - {MarkerName(record.marker.value)}))
  }

  /** A journal that is still one is as it was; a settled one never becomes a journal again, nor moves. */
  ghost predicate SameClaim(record: Record, before: Record) {
    && (record.uncommitted ==> record == before)
    && record.root == before.root && record.migration == before.migration
  }

  /** There is a journal of a first installation under this key. */
  predicate Journaled(lock: Lock, key: string) {
    key in lock.installed && lock.installed[key].uncommitted
  }

  /** Nothing in the lockfile changed but the entry of this key. */
  ghost predicate OnlyEntry(before: Lock, after: Lock, key: string) {
    && after == before.(installed := after.installed)
    && forall k | k != key :: Lookup(after.installed, k) == Lookup(before.installed, k)
  }

  lemma SettlingKeepsEntries(before: Lock, after: Lock, key: string, end: Settlement, finished: bool)
    requires key in before.installed && before.installed[key].uncommitted
    requires JournalSettled(before, after, key, end, finished)
    ensures OnlyEntry(before, after, key)
    ensures key in after.installed ==> SameClaim(after.installed[key], before.installed[key])
    ensures key in after.installed && !after.installed[key].uncommitted ==>
      end.Committed? && after.installed[key] == Promoted(before.installed[key]) && after != before
    ensures key in after.installed && after.installed[key].uncommitted ==> after == before
    ensures end.Stuck? ==> after == before
    ensures finished && !end.Stuck? ==> !Journaled(after, key) && (end.Dropped? ==> key !in after.installed)
  {
  }

  /** Retire the marker of a committed entry that names one. `journal` is what it was promoted from. */
  method FinishMarker(
    m: Machine, key: string, name: string, save: bool,
    ghost journal: Option<Record>, ghost job: Job, ghost audited: Tree)
    returns (retired: bool)
    requires m.Valid() && key == job.key && name == job.name
    modifies m
    ensures m.Valid() && m.Lost() <= old(m.Lost()) && (old(m.crashed) ==> m.crashed && m.now == old(m.now))
    ensures m.now.fs.names == old(m.now).fs.names && OnlyEntry(old(m.now).lock, m.now.lock, key)
    ensures key in m.now.lock.installed <==> key in old(m.now).lock.installed
    ensures key in m.now.lock.installed ==> SameClaim(m.now.lock.installed[key], old(m.now).lock.installed[key])
    ensures key in m.now.lock.installed ==>
      m.now.lock.installed[key].uncommitted == old(m.now).lock.installed[key].uncommitted
    ensures key !in old(m.now).lock.installed || Journaled(old(m.now).lock, key) ==> m.now == old(m.now) && retired
    ensures save ==> retired
    ensures
      && journal.Some? && Vindicated(old(m.now).fs, journal.value, name)
      && key in old(m.now).lock.installed && old(m.now).lock.installed[key] == Promoted(journal.value) ==>
        Sanctioned(TreeOf(m.now.fs, journal.value.candidate.value), journal.value)
    ensures Recoverable(old(m.now), job, audited) ==>
      && Recoverable(m.now, job, audited)
      && (!m.crashed && retired && !Journaled(m.now.lock, key) ==> AllOrNothing(m.now, job, audited))
  {
    hide MarkerRetired, MarkerGone, FoundMarker;
    retired := true;
    if key in m.now.lock.installed && !m.now.lock.installed[key].uncommitted && m.now.lock.installed[key].marker.Some? {
      RetireMarker(m, key, name, save);
      RetiringKeepsClaim(old(m.now), m.now, key, name);
      if Recoverable(old(m.now), job, audited) {
        RetiringKeepsRecoverable(old(m.now), m.now, job, audited, save);
      }
      if journal.Some? && Vindicated(old(m.now).fs, journal.value, name)
         && old(m.now).lock.installed[key] == Promoted(journal.value)
      {
        RetiringKeepsSanctioned(old(m.now), m.now, journal.value, key, name, journal.value.candidate.value);
      }
      retired := save;
    }
  }

  lemma EntryChanged(lock: Lock, key: string, record: Record)
    ensures OnlyEntry(lock, lock.(installed := lock.installed[key := record]), key)
    ensures OnlyEntry(lock, lock.(installed := lock.installed - {key}), key) && OnlyEntry(lock, lock, key)
  {
  }

  lemma EntriesChanged(a: Lock, b: Lock, c: Lock, key: string)
    requires OnlyEntry(a, b, key) && OnlyEntry(b, c, key)
    ensures OnlyEntry(a, c, key)
  {
  }

  /**
    The restart: settle the journal, then retire the marker, each behind its own lockfile save. With no
    interference it keeps every state that an installation can leave recoverable, even if it dies
    itself, and if it finishes the installation is all or nothing.
  */
  method Reconcile(
    m: Machine, key: string, name: string, seams: Seam -> seq<Act>, saveOwner: bool, saveMarker: bool,
    ghost job: Job, ghost audited: Tree)
    returns (end: Settlement)
    requires m.Valid() && key == job.key && name == job.name
    requires key in m.now.lock.installed ==> m.now.lock.installed[key].migration.None?
    modifies m
    ensures m.Valid() && m.Lost() <= old(m.Lost()) && (old(m.crashed) ==> m.crashed && m.now == old(m.now))
    ensures
      && key in old(m.now).lock.installed && old(m.now).lock.installed[key].uncommitted
      && key in m.now.lock.installed && !m.now.lock.installed[key].uncommitted ==>
        var record := old(m.now).lock.installed[key];
        && record.candidate.Some? && m.now.fs.Names(TargetOf(record, name), record.candidate.value)
        && (seams(AfterAudit) == [] ==> Sanctioned(TreeOf(m.now.fs, record.candidate.value), record))
    ensures key in m.now.lock.installed ==>
      && key in old(m.now).lock.installed && SameClaim(m.now.lock.installed[key], old(m.now).lock.installed[key])
    ensures OnlyEntry(old(m.now).lock, m.now.lock, key)
    ensures Journaled(old(m.now).lock, key) && key !in m.now.lock.installed ==>
      Released(m.now.fs, old(m.now).lock.installed[key], name)
    ensures Quiet(seams) && Journaled(old(m.now).lock, key) ==>
      var fs, record := old(m.now).fs, old(m.now).lock.installed[key];
      if !Suspect(fs, record, name) then
        && m.now.fs.names == fs.names
        && (!m.crashed && saveOwner ==> (key in m.now.lock.installed <==> Vindicated(fs, record, name)))
      else if RejectionOf(record) in fs.names then
        m.now == old(m.now) && (!m.crashed ==> end == Stuck)
      else
        var isolated := RenameFs(fs, TargetOf(record, name), RejectionOf(record));
        && (m.now.fs == fs || m.now.fs == isolated)
        && (!m.crashed ==> m.now.fs == isolated && end == if saveOwner then Dropped else Stuck)
    ensures Quiet(seams) && Recoverable(old(m.now), job, audited) ==>
      && Recoverable(m.now, job, audited)
      && (!m.crashed && !end.Stuck? ==> AllOrNothing(m.now, job, audited))
      && (saveOwner && saveMarker ==> !end.Stuck?)
      && (key in old(m.now).lock.installed && job.Target() in old(m.now).fs.names ==>
            key in m.now.lock.installed && job.Target() in m.now.fs.names)
  {
    hide Recoverable, AllOrNothing, JournalSettled, Vindicated, Sanctioned;
    end := NothingToDo;
    if Journaled(m.now.lock, key) {
      end := SettleFirstInstall(m, key, name, seams, saveOwner);
      if Quiet(seams) && Recoverable(old(m.now), job, audited) {
        SettlingKeepsRecoverable(old(m.now), m.now, job, audited, end, saveOwner, !m.crashed);
      }
      SettlingKeepsEntries(old(m.now).lock, m.now.lock, key, end, !m.crashed);
      if end.Stuck? {
        return;
      }
    }
    ghost var journal := Lookup(old(m.now).lock.installed, key);
    var retired := FinishMarker(m, key, name, saveMarker, journal, job, audited);
    if !retired {
      end := Stuck;
    }
  }

  /** One life of the process: the steps it completes, and whether its two lockfile saves succeed. */
  datatype Life = Life(steps: nat, saveOwner: bool, saveMarker: bool)

  /** A life among other processes: what they do before it, and at each seam of it. */
  datatype Race = Race(life: Life, before: seq<Act>, seams: Seam -> seq<Act>)

  ghost predicate CommittedIn(s: Durable, job: Job) {
    job.key in s.lock.installed && !s.lock.installed[job.key].uncommitted
  }

  /** A journal under the key of this job claims the inode that the job made, at its own target. */
  ghost predicate ClaimsOwnCandidate(s: Durable, job: Job) {
    job.key in s.lock.installed ==>
      var record := s.lock.installed[job.key];
      && record.root == job.root && record.migration.None?
      && (record.uncommitted ==>
            && record.candidate == Some(job.ino) && record.rejection == Some(job.rejectionId)
            && record.marker == Some(job.marker))
  }

  /** The state in which the record became a committed one: the target names the inode that the job made. */
  ghost predicate RightlyCommitted(before: Durable, after: Durable, race: Race, job: Job) {
    CommittedIn(after, job) && !CommittedIn(before, job) ==>
      && after.fs.Names(job.Target(), job.ino)
      && job.key in before.lock.installed
      && (race.seams(AfterAudit) == [] ==> Sanctioned(TreeOf(after.fs, job.ino), before.lock.installed[job.key]))
  }

  /** Life `i` made the record a committed one, with the inode of the job at its target. */
  ghost predicate BecameCommitted(ends: seq<Durable>, i: int, job: Job) {
    && 0 <= i < |ends| - 1
    && !CommittedIn(ends[i], job) && CommittedIn(ends[i + 1], job) && ends[i + 1].fs.Names(job.Target(), job.ino)
  }

  method RestartAmidRaces(m: Machine, job: Job, race: Race, ghost audited: Tree)
    requires m.Valid() && ClaimsOwnCandidate(m.now, job)
    modifies m
    ensures m.Valid() && m.Lost() <= old(m.Lost()) && OnlyEntry(old(m.now).lock, m.now.lock, job.key)
    ensures ClaimsOwnCandidate(m.now, job) && RightlyCommitted(old(m.now), m.now, race, job)
  {
    m.Restart(race.life.steps);
    m.Interfere(race.before);
    var end := Reconcile(m, job.key, job.name, race.seams, race.life.saveOwner, race.life.saveMarker, job, audited);
  }

  /**
    An installation and any number of restarts, each of which may die at any step, with other processes
    acting before each life and at every seam of it, and saves that fail at will. `ends` are the states
    in which the lives end. Whatever the others put at the target, a journal claims no inode but the
    one that was made, and a life that turns the journal into ownership ends with that inode at the target.
  */
  method InstallAmidRaces(
    m: Machine, job: Job, extracted: Tree, accept: Tree -> bool, seams: Seam -> seq<Act>, save: bool, undo: bool,
    races: seq<Race>)
    returns (ghost ends: seq<Durable>)
    requires m.Valid() && job.CandidatePath() !in m.now.fs.names && job.ino !in m.now.fs.trees
    requires job.key !in m.now.lock.installed
    modifies m
    ensures m.Valid() && m.Lost() <= old(m.Lost()) + {job.ino} && (job.ino in m.shown ==> m.Lost() <= old(m.Lost()))
    ensures |ends| == |races| + 1 && ends[|races|] == m.now && !CommittedIn(ends[0], job)
    ensures forall s | s in ends :: ClaimsOwnCandidate(s, job) && OnlyEntry(old(m.now).lock, s.lock, job.key)
    ensures forall i | 0 <= i < |races| :: RightlyCommitted(ends[i], ends[i + 1], races[i], job)
    ensures CommittedIn(m.now, job) ==> exists i :: BecameCommitted(ends, i, job)
  {
    var outcome, audited, published := InstallFirst(m, job, extracted, accept, seams, save, undo);
    ends := [m.now];
    for i := 0 to |races|
      invariant m.Valid() && m.Lost() <= old(m.Lost()) + {job.ino} && (job.ino in m.shown ==> m.Lost() <= old(m.Lost()))
      invariant |ends| == i + 1 && ends[i] == m.now && !CommittedIn(ends[0], job)
      invariant ClaimsOwnCandidate(m.now, job) && OnlyEntry(old(m.now).lock, m.now.lock, job.key)
      invariant forall s | s in ends :: ClaimsOwnCandidate(s, job) && OnlyEntry(old(m.now).lock, s.lock, job.key)
      invariant forall j | 0 <= j < i :: RightlyCommitted(ends[j], ends[j + 1], races[j], job)
      invariant CommittedIn(m.now, job) ==> exists j :: BecameCommitted(ends, j, job)
    {
      ghost var before, lock := ends, m.now.lock;
      RestartAmidRaces(m, job, races[i], audited);
      EntriesChanged(old(m.now).lock, lock, m.now.lock, job.key);
      ends := ends + [m.now];
      if CommittedIn(m.now, job) {
        if CommittedIn(before[i], job) {
          var j :| BecameCommitted(before, j, job);
          assert BecameCommitted(ends, j, job);
        } else {
          assert BecameCommitted(ends, i, job);
        }
      }
    }
  }

  /**
    An installation that may die at any step, followed by any number of restarts that may die at any
    step: every intermediate state is recoverable, and the first restart that finishes leaves either
    no record and no exposed candidate, or the final record and exactly the audited tree. The latter if the
    installation was confirmed. No other entry of the lockfile is ever touched.
  */
  method InstallAcrossCrashes(m: Machine, job: Job, extracted: Tree, accept: Tree -> bool, save: bool, lives: seq<Life>)
    returns (confirmed: bool, settled: bool)
    requires m.Valid() && job.CandidatePath() !in m.now.fs.names && job.ino !in m.now.fs.trees
    requires job.key !in m.now.lock.installed && job.Target() !in m.now.fs.names
    modifies m
    ensures m.Valid() && m.Lost() <= old(m.Lost()) + {job.ino} && (job.ino in m.shown ==> m.Lost() <= old(m.Lost()))
    ensures Recoverable(m.now, job, extracted) && OnlyEntry(old(m.now).lock, m.now.lock, job.key)
    ensures settled ==> AllOrNothing(m.now, job, extracted)
    ensures confirmed ==> job.key in m.now.lock.installed && m.now.fs.Names(job.Target(), job.ino)
  {
    var outcome, audited, published := InstallFirst(m, job, extracted, accept, _ => [], save, save);
    confirmed, settled := !m.crashed && outcome.Published?, false;
    for i := 0 to |lives|
      invariant m.Valid() && m.Lost() <= old(m.Lost()) + {job.ino} && (job.ino in m.shown ==> m.Lost() <= old(m.Lost()))
      invariant Recoverable(m.now, job, extracted) && OnlyEntry(old(m.now).lock, m.now.lock, job.key)
      invariant settled ==> AllOrNothing(m.now, job, extracted)
      invariant confirmed ==> job.key in m.now.lock.installed && job.Target() in m.now.fs.names
    {
      m.Restart(lives[i].steps);
      var end := Reconcile(m, job.key, job.name, _ => [], lives[i].saveOwner, lives[i].saveMarker, job, extracted);
      settled := !m.crashed && !end.Stuck?;
    }
  }
}
