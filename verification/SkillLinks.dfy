/**
  Discovery links: symlinks that make a skill visible to other agent CLIs. A link is placed only after
  its intent is durable, and its identity is recorded right after; removal goes through a private name
  so that nothing but the recorded link is ever unlinked.
*/
module SkillLinks {
  import opened Options

  /** A directory entry: its inode and, for a symlink, where it points. */
  datatype Entry = Entry(ino: nat, link: Option<string>)

  /** A discovery pathname, or a random private name next to it. */
  datatype Spot = At(path: string) | Private(id: nat)

  datatype Owned = Owned(path: string, target: string, ino: nat)

  datatype Intent = Intent(path: string, target: string)

  datatype LinkRecord = LinkRecord(links: seq<Owned>, publication: Option<Intent>)

  datatype Disk = Disk(names: map<Spot, Entry>, saved: LinkRecord)

  /** How far the symlink helper process gets before it is killed. */
  datatype HelperFate = Completes | KilledBefore | KilledAfter

  /** How an anchored removal goes: clean, or its rename, its unlink, or both unlink and restore fail. */
  datatype RemovalFate = Clean | RenameFails | UnlinkFails | UnlinkAndRestoreFail

  datatype Placed = Created(link: Owned) | Exists | Nothing | Ambiguous

  /** Why a publication ended. `Unwound` keeps the durable intent because the outcome on disk is not settled. */
  datatype Publication = Published(link: Owned) | Refused | Unwound

  function LinkEntry(l: Owned): Entry { Entry(l.ino, Some(l.target)) }

  predicate SameIdentity(names: map<Spot, Entry>, at: Spot, l: Owned) {
    at in names && names[at] == LinkEntry(l)
  }

  /** The record answers for this entry, by its exact identity or by the intent to publish it. */
  ghost predicate Covers(r: LinkRecord, path: string, e: Entry) {
    e.link.Some? && (Owned(path, e.link.value, e.ino) in r.links || r.publication == Some(Intent(path, e.link.value)))
  }

  /** Every link in `made` that stands at a discovery pathname is answered for. */
  ghost predicate Covered(names: map<Spot, Entry>, r: LinkRecord, made: set<nat>) {
    forall p | At(p) in names && names[At(p)].ino in made :: Covers(r, p, names[At(p)])
  }

  function Without(links: seq<Owned>, path: string): (r: seq<Owned>)
    ensures forall l :: l in r <==> l in links && l.path != path
  {
    if links == [] then []
    else (if links[0].path == path then [] else [links[0]]) + Without(links[1..], path)
  }

  function WithLink(r: LinkRecord, l: Owned): LinkRecord {
    LinkRecord(Without(r.links, l.path) + [l], None)
  }

  /** Two namespaces that differ at most at one discovery pathname, and privately. */
  ghost predicate SameElsewhere(before: map<Spot, Entry>, after: map<Spot, Entry>, path: string) {
    forall p | p != path :: Lookup(after, At(p)) == Lookup(before, At(p))
  }

  /** Private names handed out before are as they were. */
  ghost predicate KeptPrivate(before: map<Spot, Entry>, after: map<Spot, Entry>, limit: nat) {
    forall id: nat | id < limit :: Lookup(after, Private(id)) == Lookup(before, Private(id))
  }

  /** No private name is taken that was not, but for this one. */
  ghost predicate NoLeftover(before: map<Spot, Entry>, after: map<Spot, Entry>, at: Option<Spot>) {
    forall id | Private(id) in after :: Private(id) in before || at == Some(Private(id))
  }

  lemma CoveredElsewhere(
    before: map<Spot, Entry>, after: map<Spot, Entry>, r: LinkRecord, r': LinkRecord, made: set<nat>, made': set<nat>,
    path: string)
    requires Covered(before, r, made) && SameElsewhere(before, after, path)
    requires forall l | l in r.links && l.path != path :: l in r'.links
    requires r.publication.Some? ==> r.publication.value.path == path || r'.publication == r.publication
    requires forall p | p != path && At(p) in after && after[At(p)].ino in made' :: after[At(p)].ino in made
    requires At(path) in after && after[At(path)].ino in made' ==> Covers(r', path, after[At(path)])
    ensures Covered(after, r', made')
  {
    forall p | At(p) in after && after[At(p)].ino in made' ensures Covers(r', p, after[At(p)]) {
      if p != path {
        assert Lookup(after, At(p)) == Lookup(before, At(p));
      }
    }
  }

  /** With the recorded link out of its pathname everything else stays answered for, and so does the link. */
  lemma AnsweredWithout(names: map<Spot, Entry>, saved: LinkRecord, r: LinkRecord, made: set<nat>, l: Owned)
    requires Covered(names, saved, made) && Covered(names, r, made) && SameIdentity(names, At(l.path), l)
    ensures l.ino in made ==> Covers(saved, l.path, LinkEntry(l))
    ensures forall after | SameElsewhere(names, after, l.path) && At(l.path) !in after ::
      Covered(after, saved, made) && Covered(after, r, made)
    ensures forall after |
      SameElsewhere(names, after, l.path) && Lookup(after, At(l.path)) == Lookup(names, At(l.path)) ::
      Covered(after, saved, made) && Covered(after, r, made)
  {
    forall after, p | SameElsewhere(names, after, l.path) && p != l.path ensures
      Lookup(after, At(p)) == Lookup(names, At(p))
    {
    }
  }

  /** A publication that got as far as an identity and then lost both its save and its rollback. */
  predicate Stranding(fate: HelperFate, inspected: bool, saveIntent: bool, saveLink: bool, undo: RemovalFate) {
    && saveIntent && (fate.Completes? || (fate.KilledAfter? && inspected))
    && !saveLink && undo.UnlinkAndRestoreFail?
  }

  /** What a sync run does to one link, with everything that can go wrong on the way. */
  datatype Errand =
    | Publishing(path: string, target: string, fate: HelperFate, inspected: bool,
                 saveIntent: bool, saveLink: bool, undo: RemovalFate)
    | Retargeting(link: Owned, target: string, fate: HelperFate, inspected: bool,
                  saveIntent: bool, saveLink: bool, undo: RemovalFate)
    | Removing(link: Owned)
  {
    predicate Stranded() {
      Retargeting? && Stranding(fate, inspected, saveIntent, saveLink, undo)
    }

    /** It comes to that: the retargeting is of a recorded link that is in place, with no other publication pending. */
    predicate Strands(names: map<Spot, Entry>, r: LinkRecord) {
      && Stranded()
      && r.publication.None? && link in r.links && link.target != target && SameIdentity(names, At(link.path), link)
    }
  }

  datatype LinkRun = LinkRun(
    steps: nat, wanted: bool, fate: HelperFate, inspected: bool, save: bool, errands: seq<Errand>, lastSave: bool)

  /** A symlink to the target stands at the pathname. */
  predicate Live(names: map<Spot, Entry>, path: string, target: string) {
    At(path) in names && names[At(path)].link == Some(target)
  }

  class Links {
    var disk: Disk
    /** The record as the running process holds it; a save writes it to the lockfile. */
    var record: LinkRecord
    var fuel: nat
    var crashed: bool
    var next: nat
    /** Inodes of the symlinks this proxy has made, and of every entry it has unlinked. */
    ghost var made: set<nat>
    ghost var unlinked: set<nat>

    ghost predicate Valid()
      reads this
    {
      && (forall s | s in disk.names :: disk.names[s].ino < next)
      && (forall i | i in made :: i < next)
      && (forall s | s in disk.names && s.Private? :: s.id < next)
    }

    /** The promise that must hold at every crash point. */
    ghost predicate Answered()
      reads this
    {
      Covered(disk.names, disk.saved, made)
    }

    method Tick() returns (done: bool)
      modifies this`fuel, this`crashed
      ensures crashed == (old(crashed) || old(fuel) == 0) && done == !crashed
    {
      if fuel == 0 {
        crashed := true;
      }
      done := !crashed;
      if done {
        fuel := fuel - 1;
      }
    }

    /** Write the lockfile. `false` is a failed save, which leaves the old one. */
    method Persist(ok: bool) returns (saved: bool)
      modifies this`disk, this`fuel, this`crashed
      ensures crashed == (old(crashed) || old(fuel) == 0) && saved == ok
      ensures disk == if ok && !crashed then old(disk).(saved := record) else old(disk)
    {
      var done := Tick();
      if done && ok {
        disk := disk.(saved := record);
      }
      saved := ok;
    }

    /** One rename to a free name; a missing source or an occupied destination changes nothing. */
    method Rename(src: Spot, dst: Spot) returns (moved: bool)
      requires Valid() && (dst.Private? ==> dst.id < next)
      modifies this`disk, this`fuel, this`crashed
      ensures Valid() && crashed == (old(crashed) || old(fuel) == 0)
      ensures moved == (src in old(disk).names && dst !in old(disk).names)
      ensures disk == if moved && !crashed
        then old(disk).(names := (old(disk).names - {src})[dst := old(disk).names[src]]) else old(disk)
    {
      moved := src in disk.names && dst !in disk.names;
      var done := Tick();
      if moved && done {
        disk := disk.(names := (disk.names - {src})[dst := disk.names[src]]);
      }
    }

    method Unlink(at: Spot)
      requires Valid() && at in disk.names
      modifies this`disk, this`fuel, this`crashed, this`unlinked
      ensures Valid() && crashed == (old(crashed) || old(fuel) == 0)
      ensures disk == if crashed then old(disk) else old(disk).(names := old(disk).names - {at})
      ensures unlinked == if crashed then old(unlinked) else old(unlinked) + {old(disk).names[at].ino}
    {
      var done := Tick();
      if done {
        unlinked := unlinked + {disk.names[at].ino};
        disk := disk.(names := disk.names - {at});
      }
    }

    /** A random name nobody has used. */
    method Fresh() returns (id: nat)
      requires Valid()
      modifies this`next
      ensures Valid() && id == old(next) && next == id + 1 && Private(id) !in disk.names
    {
      id := next;
      next := next + 1;
    }

    /**
      Create one symlink through a helper that may be killed; when its report is missing, a second
      helper looks at what is there. `Ambiguous` means that nobody knows.
    */
    method SymlinkAt(path: string, target: string, fate: HelperFate, inspected: bool) returns (r: Placed)
      requires Valid()
      modifies this
      ensures Valid() && record == old(record) && disk.saved == old(disk).saved && unlinked == old(unlinked)
      ensures old(crashed) ==> crashed && disk == old(disk) && made == old(made)
      ensures old(made) <= made <= old(made) + {old(next)} && next == old(next) + 1
      ensures
        || (disk.names == old(disk).names && made == old(made))
        || (&& At(path) !in old(disk).names && made == old(made) + {old(next)}
            && disk.names == old(disk).names[At(path) := Entry(old(next), Some(target))])
      ensures r.Created? ==> r.link.path == path && r.link.target == target
      ensures !crashed ==>
        && (r.Created? ==> SameIdentity(disk.names, At(path), r.link))
        && (r.Nothing? ==> At(path) !in disk.names)
        && (r.Exists? ==> At(path) in old(disk).names && disk == old(disk))
        && (fate.Completes? && At(path) !in old(disk).names ==> r.Created? && disk != old(disk))
        && (inspected && !fate.Completes? ==>
              r == if At(path) !in disk.names then Nothing
                   else if disk.names[At(path)].link == Some(target)
                   then Created(Owned(path, target, disk.names[At(path)].ino)) else Ambiguous)
        && (!inspected && !fate.Completes? ==> r.Ambiguous?)
        && (fate.KilledBefore? ==> disk == old(disk))
        && (fate.KilledAfter? && At(path) !in old(disk).names ==> disk != old(disk))
    {
      var free := At(path) !in disk.names;
      var ino := next;
      next := next + 1;
      var done := Tick();
      if done && free && !fate.KilledBefore? {
        disk := disk.(names := disk.names[At(path) := Entry(ino, Some(target))]);
        made := made + {ino};
      }
      if fate.Completes? {
        return if free then Created(Owned(path, target, ino)) else Exists;
      }
      if !inspected {
        return Ambiguous;
      }
      if At(path) !in disk.names {
        return Nothing;
      }
      return if disk.names[At(path)].link == Some(target)
        then Created(Owned(path, target, disk.names[At(path)].ino)) else Ambiguous;
    }

    /**
      Take a recorded link out of its pathname, under a private name. `Some` names where it is; `None`
      with `ok` means it was not there; without `ok` something else was there, and it is put back.
    */
    method Retain(l: Owned) returns (ok: bool, at: Option<Spot>)
      requires Valid()
      modifies this
      ensures Valid() && record == old(record) && disk.saved == old(disk).saved && made == old(made)
      ensures unlinked == old(unlinked) && (old(crashed) ==> crashed && disk == old(disk)) && next > old(next)
      ensures SameElsewhere(old(disk).names, disk.names, l.path)
      ensures KeptPrivate(old(disk).names, disk.names, old(next))
      ensures At(l.path) !in disk.names || Lookup(disk.names, At(l.path)) == Lookup(old(disk).names, At(l.path))
      ensures at.Some? ==> ok && at.value.Private? && old(next) <= at.value.id < next
      ensures !crashed ==>
        && ok == (At(l.path) !in old(disk).names || SameIdentity(old(disk).names, At(l.path), l))
        && (at.Some? <==> SameIdentity(old(disk).names, At(l.path), l))
        && (at.Some? ==> SameIdentity(disk.names, at.value, l) && At(l.path) !in disk.names)
        && (at.None? ==> Lookup(disk.names, At(l.path)) == Lookup(old(disk).names, At(l.path)))
        && NoLeftover(old(disk).names, disk.names, at)
    {
      var id := Fresh();
      var moved := Rename(At(l.path), Private(id));
      if !moved {
        return true, None;
      }
      if !SameIdentity(disk.names, Private(id), l) {
        moved := Rename(Private(id), At(l.path));
        return false, None;
      }
      return true, Some(Private(id));
    }

    /** Unlink a retained link, after one more look at its identity. `false` is an exception. */
    method Discard(l: Owned, at: Spot) returns (ok: bool)
      requires Valid() && at.Private?
      modifies this`disk, this`fuel, this`crashed, this`unlinked
      ensures Valid() && disk.saved == old(disk).saved && (old(crashed) ==> crashed && disk == old(disk))
      ensures ok == SameIdentity(old(disk).names, at, l)
      ensures unlinked == old(unlinked) || (ok && unlinked == old(unlinked) + {l.ino})
      ensures disk.names == old(disk).names || (ok && disk.names == old(disk).names - {at})
      ensures !crashed && ok ==> at !in disk.names && unlinked == old(unlinked) + {l.ino}
    {
      ok := SameIdentity(disk.names, at, l);
      if ok {
        Unlink(at);
      }
    }

    /**
      Anchored removal of a link just published: rename it to a private name, look at what was caught,
      and unlink it only if it is the recorded link. `true` means it is gone.
    */
    method RemoveAtIdentity(l: Owned, fate: RemovalFate) returns (removed: bool)
      requires Valid()
      modifies this
      ensures Valid() && record == old(record) && disk.saved == old(disk).saved && made == old(made)
      ensures old(crashed) ==> crashed && disk == old(disk)
      ensures old(unlinked) <= unlinked <= old(unlinked) + {l.ino}
      ensures SameElsewhere(old(disk).names, disk.names, l.path)
      ensures KeptPrivate(old(disk).names, disk.names, old(next)) && next >= old(next)
      ensures At(l.path) !in disk.names || Lookup(disk.names, At(l.path)) == Lookup(old(disk).names, At(l.path))
      ensures !crashed && removed ==> At(l.path) !in disk.names
      ensures !crashed && SameIdentity(old(disk).names, At(l.path), l) ==>
        && removed == fate.Clean?
        && (At(l.path) in disk.names <==> fate.RenameFails? || fate.UnlinkFails?)
        && (removed ==> l.ino in unlinked)
      ensures !crashed && !fate.UnlinkAndRestoreFail? ==> NoLeftover(old(disk).names, disk.names, None)
    {
      if fate.RenameFails? {
        return false;
      }
      var ok, at := Retain(l);
      if !ok || at.None? {
        return false;
      }
      if fate.Clean? {
        removed := Discard(l, at.value);
        return;
      }
      if fate.UnlinkFails? {
        var restored := Rename(at.value, At(l.path));
      }
      return false;
    }

    /** Place a link whose intent is in memory and on disk; both then answer for whatever came of it. */
    method Place(path: string, target: string, fate: HelperFate, inspected: bool) returns (r: Placed)
      requires Valid() && record.publication == Some(Intent(path, target))
      requires !crashed ==>
        Answered() && Covered(disk.names, record, made) && disk.saved.publication == record.publication
      modifies this
      ensures Valid() && record == old(record) && unlinked == old(unlinked)
      ensures old(crashed) ==> crashed && disk == old(disk) && made == old(made)
      ensures !old(crashed) ==> Answered() && Covered(disk.names, record, made)
      ensures r.Created? ==> r.link.path == path && r.link.target == target
      ensures !crashed && r.Created? ==> SameIdentity(disk.names, At(path), r.link)
      ensures !crashed && (r.Exists? || r.Nothing?) ==> disk.names == old(disk).names && made == old(made)
      ensures disk.saved == old(disk).saved && KeptPrivate(old(disk).names, disk.names, old(next)) && next >= old(next)
      ensures SameElsewhere(old(disk).names, disk.names, path) && old(made) <= made <= old(made) + {old(next)}
      ensures !crashed && At(path) !in old(disk).names ==>
        && !r.Exists? && r.Created? == (fate.Completes? || (fate.KilledAfter? && inspected))
        && (r.Ambiguous? ==> disk.names == old(disk).names || Live(disk.names, path, target))
        && (r.Created? ==> r.link.ino == old(next))
      ensures NoLeftover(old(disk).names, disk.names, None)
    {
      ghost var before, known := disk.names, made;
      r := SymlinkAt(path, target, fate, inspected);
      if !old(crashed) {
        CoveredElsewhere(before, disk.names, disk.saved, disk.saved, known, made, path);
        CoveredElsewhere(before, disk.names, record, record, known, made, path);
      }
    }

    /**
      Publish one link: durable intent, symlink, durable identity. Whatever fails, and wherever the
      process dies, every link of ours at a discovery pathname stays answered for in the lockfile.
    */
    method Publish(
      path: string, target: string, fate: HelperFate, inspected: bool,
      saveIntent: bool, saveLink: bool, undo: RemovalFate)
      returns (r: Publication)
      requires Valid() && record.publication.None?
      requires !crashed ==> Answered() && Covered(disk.names, record, made)
      modifies this
      ensures Valid() && (old(crashed) ==> crashed && disk == old(disk) && made == old(made))
      ensures !old(crashed) ==> Answered()
      ensures !crashed ==> Covered(disk.names, record, made)
      ensures !crashed && r.Published? ==>
        && record == WithLink(old(record), r.link) && disk.saved == record
        && r.link.path == path && r.link.target == target && SameIdentity(disk.names, At(path), r.link)
      ensures !crashed && r.Refused? ==> record == old(record)
      ensures !crashed && r.Unwound? ==> record.publication == Some(Intent(path, target))
      ensures !crashed && fate.Completes? && saveIntent && saveLink && At(path) !in old(disk).names ==> r.Published?
      ensures !r.Published? ==> disk.saved == old(disk).saved || disk.saved.links == old(record).links
      ensures r.Published? ==> saveLink
      ensures KeptPrivate(old(disk).names, disk.names, old(next))
      ensures next >= old(next) && old(made) <= made <= old(made) + {old(next)}
      ensures !crashed && At(path) !in old(disk).names && !r.Published? ==>
        At(path) !in disk.names || (r.Unwound? && Live(disk.names, path, target))
      ensures !crashed && At(path) !in old(disk).names ==>
        if Stranding(fate, inspected, saveIntent, saveLink, undo) then
          && r.Unwound? && At(path) !in disk.names
          && forall k | k in record.links && k.path == path :: k.target == target
        else
          r.Unwound? ==> record.links == old(record).links || Live(disk.names, path, target)
      ensures SameElsewhere(old(disk).names, disk.names, path)
      ensures !crashed && At(path) !in old(disk).names ==>
        (r.Published? <==> saveIntent && saveLink && (fate.Completes? || (fate.KilledAfter? && inspected)))
      ensures old(unlinked) <= unlinked
      ensures !crashed && At(path) !in old(disk).names ==>
        forall i | i in unlinked && i !in old(unlinked) :: i >= old(next)
      ensures !crashed && (saveLink || !undo.UnlinkAndRestoreFail?) ==> NoLeftover(old(disk).names, disk.names, None)
    {
      var previous := record;
      record := record.(publication := Some(Intent(path, target)));
      var saved := Persist(saveIntent);
      if !saved {
        return Unwound;
      }
      var placed := Place(path, target, fate, inspected);
      if placed.Ambiguous? {
        return Unwound;
      }
      if !placed.Created? {
        record := previous;
        return Refused;
      }
      r := RecordLink(placed.link, previous, saveLink, undo);
    }

    /** The second half of a publication: make the identity of the placed link durable, or take the link back. */
    method RecordLink(l: Owned, previous: LinkRecord, save: bool, undo: RemovalFate) returns (r: Publication)
      requires Valid() && previous.publication.None?
      requires record == previous.(publication := Some(Intent(l.path, l.target)))
      requires !crashed ==> Answered() && Covered(disk.names, record, made) && SameIdentity(disk.names, At(l.path), l)
      modifies this
      ensures Valid() && (old(crashed) ==> crashed && disk == old(disk)) && made == old(made)
      ensures !old(crashed) ==> Answered()
      ensures !crashed ==> Covered(disk.names, record, made)
      ensures !crashed && r.Published? ==>
        && r.link == l && record == WithLink(previous, l) && disk.saved == record
        && SameIdentity(disk.names, At(l.path), l)
      ensures !crashed && r.Refused? ==> record == previous && At(l.path) !in disk.names
      ensures !crashed && r.Unwound? ==> record.publication == Some(Intent(l.path, l.target))
      ensures !crashed ==> r.Published? == save
      ensures !crashed && r.Unwound? ==>
        if undo.UnlinkAndRestoreFail? then At(l.path) !in disk.names && record.links == WithLink(previous, l).links
        else SameIdentity(disk.names, At(l.path), l)
      ensures !crashed && !save ==> r.Refused? == undo.Clean?
      ensures r.Published? == save && (!save ==> disk.saved == old(disk).saved)
      ensures !crashed && (save || !undo.UnlinkAndRestoreFail?) ==> NoLeftover(old(disk).names, disk.names, None)
      ensures old(unlinked) <= unlinked <= old(unlinked) + {l.ino}
      ensures KeptPrivate(old(disk).names, disk.names, old(next)) && next >= old(next)
      ensures SameElsewhere(old(disk).names, disk.names, l.path)
    {
      record := WithLink(record, l);
      if !crashed {
        CoveredElsewhere(disk.names, disk.names, old(record), record, made, made, l.path);
      }
      var saved := Persist(save);
      if saved {
        return Published(l);
      }
      ghost var before := disk.names;
      record := record.(publication := Some(Intent(l.path, l.target)));
      var removed := RemoveAtIdentity(l, undo);
      if !old(crashed) {
        CoveredElsewhere(before, disk.names, disk.saved, disk.saved, made, made, l.path);
      }
      if !removed {
        return Unwound;
      }
      record := previous;
      return Refused;
    }

    /** The process starts over from the lockfile. */
    method Reboot(steps: nat)
      requires Valid()
      modifies this`record, this`fuel, this`crashed
      ensures Valid() && record == disk.saved && fuel == steps && !crashed
    {
      record, fuel, crashed := disk.saved, steps, false;
    }

    /**
      Finish what an interrupted publication left: adopt the link if it is there, publish it if it is
      still wanted, or withdraw an intent that never replaced the recorded link it was meant for.
      `false` is an exception.
    */
    method FinishPublication(wanted: bool, fate: HelperFate, inspected: bool, save: bool) returns (finished: bool)
      requires Valid() && (!crashed ==> Answered() && Covered(disk.names, record, made))
      requires !crashed && record.publication.Some? ==> disk.saved.publication == record.publication
      modifies this
      ensures Valid() && (!old(crashed) ==> Answered())
      ensures !crashed ==> Covered(disk.names, record, made)
      ensures finished ==> record.publication.None?
      ensures !crashed && finished && old(record).publication.Some? ==> disk.saved == record
      ensures unlinked == old(unlinked)
    {
      if record.publication.None? {
        return true;
      }
      var intent := record.publication.value;
      if At(intent.path) in disk.names {
        var e := disk.names[At(intent.path)];
        if exists l :: l in record.links && e == LinkEntry(l) && l.target != intent.target {
          record := record.(publication := None);
          finished := Persist(save);
          return;
        }
        if e.link != Some(intent.target) {
          return false;
        }
        Adopt(Owned(intent.path, intent.target, e.ino));
      } else if wanted {
        var placed := Place(intent.path, intent.target, fate, inspected);
        if !placed.Created? {
          return false;
        }
        Adopt(placed.link);
      } else {
        record := record.(publication := None);
      }
      finished := Persist(save);
    }

    /** Replace the intent in memory by the identity of the link that stands there. */
    method Adopt(l: Owned)
      requires Valid() && record.publication == Some(Intent(l.path, l.target))
      requires !crashed ==> Covered(disk.names, record, made) && SameIdentity(disk.names, At(l.path), l)
      modifies this`record
      ensures record == WithLink(old(record), l) && (!crashed ==> Covered(disk.names, record, made))
    {
      record := WithLink(record, l);
      if !crashed {
        CoveredElsewhere(disk.names, disk.names, old(record), record, made, made, l.path);
      }
    }

    /** Another process rearranges the namespace; an arrangement this disk could not hold is ignored. */
    method Meddle(names: map<Spot, Entry>)
      requires Valid()
      modifies this`disk
      ensures Valid() && disk.saved == old(disk).saved
      ensures disk.names == old(disk).names || disk.names == names
      ensures names == old(disk).names ==> disk == old(disk)
    {
      if forall s | s in names :: names[s].ino < next && (s.Private? ==> s.id < next) {
        disk := disk.(names := names);
      }
    }

    /**
      Remove one recorded link while other processes rearrange names around every step. Whatever they
      do, the only entry that can be unlinked is the recorded one.
    */
    method Isolate(l: Owned, before: map<Spot, Entry>, between: map<Spot, Entry>) returns (ok: bool)
      requires Valid()
      modifies this
      ensures Valid() && record == old(record) && disk.saved == old(disk).saved && made == old(made)
      ensures unlinked <= old(unlinked) + {l.ino}
      ensures !crashed && unlinked != old(unlinked) ==> ok
      ensures before == old(disk).names && At(l.path) in before && !SameIdentity(before, At(l.path), l) && !crashed ==>
        !ok && Lookup(disk.names, At(l.path)) == Lookup(before, At(l.path))
    {
      Meddle(before);
      var at;
      ok, at := Retain(l);
      if ok && at.Some? {
        Meddle(between);
        ok := Discard(l, at.value);
      }
    }

    /** The steady removal, undisturbed: the link goes, or it was not there, and the promise is kept. */
    method RemoveRecorded(l: Owned) returns (ok: bool)
      requires Valid() && (!crashed ==> Answered() && Covered(disk.names, record, made))
      modifies this
      ensures Valid() && record == old(record) && disk.saved == old(disk).saved && made == old(made)
      ensures !old(crashed) ==> Answered()
      ensures !crashed ==> Covered(disk.names, record, made)
      ensures SameElsewhere(old(disk).names, disk.names, l.path)
      ensures !crashed && ok ==> At(l.path) !in disk.names
      ensures !crashed ==> ok == (At(l.path) !in old(disk).names || SameIdentity(old(disk).names, At(l.path), l))
      ensures !crashed ==> NoLeftover(old(disk).names, disk.names, None)
      ensures !crashed && SameIdentity(old(disk).names, At(l.path), l) ==> l.ino in unlinked
    {
      ghost var before := disk.names;
      var at;
      ok, at := Retain(l);
      if ok && at.Some? {
        ok := Discard(l, at.value);
      }
      assert forall p :: Lookup(disk.names, At(p)) == Lookup(before, At(p)) || (p == l.path && At(p) !in disk.names);
    }

    /**
      Retarget one recorded link: put the old link aside, publish the new one, then unlink the old one;
      if the publication fails, put the old one back unless the new one is live after all.

      The lockfile answers for every link at every crash point. The record in memory does too, with
      exactly one exception: a publication whose save, unlink and restore all fail leaves the old link
      back in place and a record that no longer knows it.
    */
    method Retarget(
      l: Owned, target: string, fate: HelperFate, inspected: bool,
      saveIntent: bool, saveLink: bool, undo: RemovalFate)
      returns (ok: bool)
      requires Valid() && record.publication.None? && l in record.links && l.target != target
      requires !crashed ==> Answered() && Covered(disk.names, record, made) && SameIdentity(disk.names, At(l.path), l)
      modifies this
      ensures Valid() && (!old(crashed) ==> Answered()) && old(made) <= made
      ensures forall i | i in made && i < old(next) :: i in old(made)
      ensures !crashed && !Stranding(fate, inspected, saveIntent, saveLink, undo) ==> Covered(disk.names, record, made)
      ensures !crashed && l.ino in old(made) && Stranding(fate, inspected, saveIntent, saveLink, undo) ==>
        !Covered(disk.names, record, made)
      ensures !crashed && ok ==>
        exists l' | l' in record.links ::
          l'.path == l.path && l'.target == target && SameIdentity(disk.names, At(l.path), l')
      ensures ok ==> saveLink
      ensures SameElsewhere(old(disk).names, disk.names, l.path)
      ensures !crashed ==>
        && (ok <==> saveIntent && saveLink && (fate.Completes? || (fate.KilledAfter? && inspected)))
        && (ok ==> l.ino in unlinked)
        && (forall i | i in unlinked && i !in old(unlinked) :: i == l.ino || i >= old(next))
        && (!ok ==>
              if Live(disk.names, l.path, target) then l.ino in unlinked else SameIdentity(disk.names, At(l.path), l))
        && (saveLink || !undo.UnlinkAndRestoreFail? ==> NoLeftover(old(disk).names, disk.names, None))
    {
      hide Covered, Covers, Stranding, Without;
      if !crashed {
        AnsweredWithout(disk.names, disk.saved, record, made, l);
      }
      var found, at := Retain(l);
      if !found || at.None? {
        return false;
      }
      ok := PublishOver(l, at.value, target, fate, inspected, saveIntent, saveLink, undo);
    }

    /** The rest of a retargeting, with the old link under a private name: publish the new link, and settle the old. */
    method PublishOver(
      l: Owned, at: Spot, target: string, fate: HelperFate, inspected: bool,
      saveIntent: bool, saveLink: bool, undo: RemovalFate)
      returns (ok: bool)
      requires Valid() && record.publication.None? && l in record.links && l.target != target
      requires at.Private? && at.id < next
      requires !crashed ==>
        && Answered() && Covered(disk.names, record, made)
        && SameIdentity(disk.names, at, l) && At(l.path) !in disk.names
        && (l.ino in made ==> Covers(disk.saved, l.path, LinkEntry(l)))
      modifies this
      ensures Valid() && (!old(crashed) ==> Answered()) && old(made) <= made && next >= old(next)
      ensures old(crashed) ==> crashed && disk == old(disk) && made == old(made)
      ensures forall i | i in made && i < old(next) :: i in old(made)
      ensures !crashed && !Stranding(fate, inspected, saveIntent, saveLink, undo) ==> Covered(disk.names, record, made)
      ensures !crashed && l.ino in old(made) && Stranding(fate, inspected, saveIntent, saveLink, undo) ==>
        !Covered(disk.names, record, made)
      ensures !crashed && ok ==>
        exists l' | l' in record.links ::
          l'.path == l.path && l'.target == target && SameIdentity(disk.names, At(l.path), l')
      ensures ok ==> saveLink
      ensures SameElsewhere(old(disk).names, disk.names, l.path)
      ensures !crashed ==>
        && (ok <==> saveIntent && saveLink && (fate.Completes? || (fate.KilledAfter? && inspected)))
        && (ok ==> l.ino in unlinked)
        && (forall i | i in unlinked && i !in old(unlinked) :: i == l.ino || i >= old(next))
        && (!ok ==>
              if Live(disk.names, l.path, target) then l.ino in unlinked else SameIdentity(disk.names, At(l.path), l))
        && (saveLink || !undo.UnlinkAndRestoreFail? ==>
              at !in disk.names && NoLeftover(old(disk).names, disk.names, None))
    {
      hide Without, Covers, Stranding;
      var r := Publish(l.path, target, fate, inspected, saveIntent, saveLink, undo);
      if r.Published? {
        assert !crashed ==> r.link in record.links;
        ok := Discard(l, at);
        return;
      }
      SettleOld(l, target, at, r.Unwound?);
      return false;
    }

    /** After a failed retargeting: the old link goes if the new one is live, and comes back if it is not. */
    method SettleOld(l: Owned, target: string, at: Spot, unwound: bool)
      requires Valid() && at.Private? && at.id < next && l.target != target
      requires !crashed ==>
        && Answered() && Covered(disk.names, record, made) && SameIdentity(disk.names, at, l)
        && (At(l.path) !in disk.names || (unwound && Live(disk.names, l.path, target)))
        && (l.ino in made ==> Covers(disk.saved, l.path, LinkEntry(l)))
        && (record.publication.Some? ==> record.publication.value.target == target)
      modifies this`disk, this`fuel, this`crashed, this`unlinked
      ensures Valid() && (old(crashed) ==> crashed && disk == old(disk)) && (!old(crashed) ==> Answered())
      ensures !crashed && ((unwound && Live(old(disk).names, l.path, target)) || l in record.links) ==>
        Covered(disk.names, record, made)
      ensures !crashed && l.ino in made && Covered(disk.names, record, made) ==>
        (unwound && Live(old(disk).names, l.path, target)) || l in record.links
      ensures SameElsewhere(old(disk).names, disk.names, l.path)
      ensures !crashed ==>
        && disk.names.Keys <= old(disk).names.Keys - {at} + {At(l.path)} && unlinked <= old(unlinked) + {l.ino}
        && if unwound && Live(old(disk).names, l.path, target) then
             disk.names == old(disk).names - {at} && l.ino in unlinked
           else SameIdentity(disk.names, At(l.path), l)
    {
      if unwound && Live(disk.names, l.path, target) {
        var gone := Discard(l, at);
      } else {
        ghost var before := disk.names;
        var restored := Rename(at, At(l.path));
        if !old(crashed) && disk.names != before {
          CoveredElsewhere(before, disk.names, disk.saved, disk.saved, made, made, l.path);
          assert forall p | p != l.path :: Lookup(disk.names, At(p)) == Lookup(before, At(p));
          assert At(l.path) in disk.names && disk.names[At(l.path)] == LinkEntry(l);
        }
      }
    }

    /**
      The save that ends a sync run writes whatever the record in memory has become. After a stranded
      retargeting it therefore takes the promise back: the old link stands, and no lockfile knows it.
    */
    method RetargetThenSave(
      l: Owned, target: string, fate: HelperFate, inspected: bool,
      saveIntent: bool, saveLink: bool, undo: RemovalFate)
      requires Valid() && !crashed && record.publication.None? && l in record.links && l.target != target
      requires Answered() && Covered(disk.names, record, made)
      requires SameIdentity(disk.names, At(l.path), l) && l.ino in made
      modifies this
      ensures Valid()
      ensures !crashed ==> (Answered() <==> !Stranding(fate, inspected, saveIntent, saveLink, undo))
      ensures crashed ==> Answered()
    {
      var ok := Retarget(l, target, fate, inspected, saveIntent, saveLink, undo);
      var saved := Persist(true);
    }

    /** Give up the ownership of a link, which is allowed only once its pathname is free. */
    method Forget(l: Owned)
      requires Valid() && (!crashed ==> Answered() && Covered(disk.names, record, made) && At(l.path) !in disk.names)
      modifies this`record
      ensures Valid() && record == old(record).(links := Without(old(record).links, l.path))
      ensures !crashed ==> Covered(disk.names, record, made)
    {
      record := record.(links := Without(record.links, l.path));
      if !crashed {
        CoveredElsewhere(disk.names, disk.names, old(record), record, made, made, l.path);
      }
    }

    /** One link operation of a sync run; `false` is an exception, which ends the run's link work. */
    method Perform(e: Errand) returns (ok: bool, stranded: bool)
      requires Valid() && !crashed && Answered() && Covered(disk.names, record, made)
      modifies this
      ensures Valid() && Answered()
      ensures stranded <==> e.Strands(old(disk).names, old(record))
      ensures !crashed && !stranded ==> Covered(disk.names, record, made)
      ensures !crashed && stranded && e.link.ino in made ==> !Covered(disk.names, record, made)
      ensures ok ==> !stranded
      ensures !crashed && ok && e.Removing? ==>
        At(e.link.path) !in disk.names && record == old(record).(links := Without(old(record).links, e.link.path))
    {
      stranded := false;
      match e
      case Publishing(path, target, fate, inspected, saveIntent, saveLink, undo) =>
        if record.publication.Some? {
          return false, false;
        }
        var r := Publish(path, target, fate, inspected, saveIntent, saveLink, undo);
        ok := r.Published?;
      case Retargeting(l, target, fate, inspected, saveIntent, saveLink, undo) =>
        if record.publication.Some? || l !in record.links || l.target == target
          || !SameIdentity(disk.names, At(l.path), l)
        {
          return false, false;
        }
        stranded := e.Stranded();
        ok := Retarget(l, target, fate, inspected, saveIntent, saveLink, undo);
      case Removing(l) =>
        ok := RemoveRecorded(l);
        if ok {
          Forget(l);
        }
    }

    /**
      One sync run, from its reading of the lockfile to its last save or to its death. Links that are removed
      are forgotten, and the last save makes that durable. `stranded` is the link of the errand that ended the
      run's link work, if that came to strand it. The promise holds afterwards unless such a run, of a link of
      ours, gets to its last save and that save works.
    */
    method Run(run: LinkRun) returns (stranded: Option<Owned>)
      requires Valid() && Answered()
      modifies this
      ensures Valid()
      ensures crashed || !run.lastSave || stranded.None? ==> Answered()
      ensures !crashed && run.lastSave && stranded.Some? && stranded.value.ino in made ==> !Answered()
      ensures stranded.Some? ==> exists e | e in run.errands :: e.Stranded() && e.link == stranded.value
    {
      Reboot(run.steps);
      stranded := None;
      var ok := FinishPublication(run.wanted, run.fate, run.inspected, run.save);
      var i := 0;
      while i < |run.errands| && ok && !crashed
        invariant i <= |run.errands| && Valid() && Answered() && (ok ==> stranded.None?)
        invariant !crashed && stranded.None? ==> Covered(disk.names, record, made)
        invariant !crashed && stranded.Some? && stranded.value.ino in made ==> !Covered(disk.names, record, made)
        invariant stranded.Some? ==> exists e | e in run.errands :: e.Stranded() && e.link == stranded.value
      {
        var e := run.errands[i];
        var strands;
        ok, strands := Perform(e);
        if strands {
          stranded := Some(e.link);
        }
        i := i + 1;
      }
      var saved := Persist(run.lastSave);
    }

    /**
      Any number of runs, each dying anywhere, until one makes a stranded retargeting durable: no link of ours
      stands unanswered for before that. `broken` tells whether there was one; if it was of a link of ours,
      the promise is broken.
    */
    method LinksAcrossCrashes(runs: seq<LinkRun>) returns (broken: bool, ghost stranded: Option<Owned>)
      requires Valid() && Answered()
      modifies this
      ensures Valid() && (!broken ==> Answered())
      ensures broken ==> stranded.Some? && (stranded.value.ino in made ==> !Answered())
      ensures broken ==> exists r, e | r in runs && e in r.errands :: r.lastSave && e.Stranded()
    {
      broken, stranded := false, None;
      var i := 0;
      while i < |runs| && !broken
        invariant i <= |runs| && Valid() && (!broken ==> Answered())
        invariant broken ==> stranded.Some? && (stranded.value.ino in made ==> !Answered())
        invariant broken ==> exists r, e | r in runs && e in r.errands :: r.lastSave && e.Stranded()
      {
        var run := runs[i];
        var link := Run(run);
        broken, stranded := !crashed && run.lastSave && link.Some?, link;
        if broken {
          var e :| e in run.errands && e.Stranded() && e.link == link.value;
          assert run in runs && e in run.errands && run.lastSave && e.Stranded();
        }
        i := i + 1;
      }
    }
  }
}
