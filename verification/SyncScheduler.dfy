/**
  Scheduling of one workspace: a queue of operations run one at a time, and a loop that coalesces sync
  requests over changing manifest registrations. Every stretch of code between two awaits is one method.
*/
module SyncScheduler {
  import opened Options

  type Key = string

  /** What the lockfile says about consent. */
  datatype Consent = Consent(approved: set<Key>, revoked: set<Key>, adopted: set<Key>)

  datatype Op =
    | SyncRun(id: nat, generation: nat)
    | Approval(id: nat, generation: nat, key: Key, adopt: bool)
    | Removal(id: nat, key: Key)

  /** How far the operation at the head of the queue is. */
  datatype Phase = Waiting | Fetching(url: string) | Applying(items: set<Key>, loaded: Consent)

  /** The coalescing loop: not running, awaiting its run, or about to look at how its run went. */
  datatype Loop = Idle | Awaiting(id: nat, generation: nat) | Returned(id: nat, generation: nat, success: bool)

  datatype Mark = Begun(id: nat) | Ended(id: nat)

  datatype Settled = Continues | Resolved | Rejected

  function ApprovedBy(c: Consent, key: Key, adopt: bool): Consent {
    Consent(c.approved + {key}, c.revoked - {key}, if adopt then c.adopted + {key} else c.adopted)
  }

  function RemovedBy(c: Consent, key: Key): Consent {
    Consent(c.approved - {key}, c.revoked + {key}, c.adopted - {key})
  }

  /** The consent a run saves: what it installed is approved, and what nobody asks for any more is forgotten. */
  function AppliedBy(c: Consent, items: set<Key>, installed: set<Key>): Consent {
    Consent(c.approved + installed, c.revoked * items, c.adopted * items)
  }

  /**
    What an edit does to the consent. A valid approval approves its item and revokes it no more, and adopts it if that
    was asked for; a stale one changes nothing; a removal takes the item out and revokes it. No other item is touched.
  */
  ghost predicate TakesEffect(before: Consent, after: Consent, op: Op, valid: bool) {
    match op
    case SyncRun(_, _) => true
    case Approval(_, _, key, adopt) =>
      if valid then
        && after.approved == before.approved + {key} && after.revoked == before.revoked - {key}
        && after.adopted == if adopt then before.adopted + {key} else before.adopted
      else
        after == before
    case Removal(_, key) =>
      && after.approved == before.approved - {key} && after.revoked == before.revoked + {key}
      && after.adopted == before.adopted - {key}
  }

  /** The approval at `i` has been performed, and its item has not been removed since. */
  ghost predicate Standing(performed: seq<Op>, i: nat) {
    && i < |performed| && performed[i].Approval?
    && forall j | i < j < |performed| :: !(performed[j].Removal? && performed[j].key == performed[i].key)
  }

  /** Every standing approval is in the consent. */
  ghost predicate Honours(c: Consent, performed: seq<Op>) {
    forall i: nat | Standing(performed, i) :: performed[i].key in c.approved && performed[i].key !in c.revoked
  }

  lemma HonoursMore(before: Consent, after: Consent, performed: seq<Op>, op: Op)
    requires Honours(before, performed) && !op.SyncRun?
    requires forall key | key != op.key && key in before.approved :: key in after.approved
    requires forall key | key != op.key && key in after.revoked :: key in before.revoked
    requires op.Approval? ==> op.key in after.approved && op.key !in after.revoked
    ensures Honours(after, performed + [op])
  {
    var more := performed + [op];
    forall i: nat | Standing(more, i) ensures more[i].key in after.approved && more[i].key !in after.revoked {
      if i < |performed| {
        assert more[|performed|] == op;
        assert Standing(performed, i) by {
          assert forall j | i < j < |performed| :: more[j] == performed[j];
        }
      }
    }
  }

  /** One operation after the other, in the order they were asked for. */
  ghost predicate Serial(history: seq<Mark>) {
    forall k: nat | k < |history| :: history[k] == if k % 2 == 0 then Begun(k / 2) else Ended(k / 2)
  }

  datatype Event =
    | Registering(url: string)
    | Syncing
    | Approving(key: Key, adopt: bool)
    | Deleting(key: Key)
    | Beginning
    | FetchBack(items: Option<set<Key>>)
    | ApplyBack(installed: set<Key>, ok: bool)
    | LoopBack

  class Workspace {
    var url: Option<string>
    var generation: nat
    var lastManifest: Option<set<Key>>
    var lastManifestGeneration: Option<nat>
    var loop: Loop
    var syncRequested: bool
    var queue: seq<Op>
    var phase: Phase
    var saved: Consent
    var nextId: nat
    /** What began and ended when; the address the manifest in memory came from; the latest edit asked for. */
    ghost var history: seq<Mark>
    ghost var fetchedFrom: Option<string>
    ghost var lastEdit: Option<nat>
    /** The edits that took place: removals, and approvals that were still valid when their turn came. */
    ghost var performed: seq<Op>

    ghost predicate InFlight()
      reads this
    {
      !loop.Idle?
    }

    /** The history is serial, and the queue is what it has not ended yet. */
    ghost predicate Queued()
      reads this
    {
      && Serial(history) && |history| / 2 + |queue| == nextId
      && (phase.Waiting? <==> |history| % 2 == 0) && (!phase.Waiting? ==> |queue| > 0)
      && forall i: nat | i < |queue| :: queue[i].id == |history| / 2 + i
    }

    /** The only runs are the loop's, and it waits for exactly that one. */
    ghost predicate Looping()
      reads this
    {
      && (forall i: nat | i < |queue| && queue[i].SyncRun? :: loop == Awaiting(queue[i].id, queue[i].generation))
      && (loop.Awaiting? ==>
            && |history| / 2 <= loop.id < |history| / 2 + |queue|
            && queue[loop.id - |history| / 2] == SyncRun(loop.id, loop.generation))
      && (loop.Returned? ==> loop.id < |history| / 2)
      && (!phase.Waiting? ==> |queue| > 0 && queue[0].SyncRun?)
      && (!loop.Idle? ==> loop.id < nextId && loop.generation <= generation)
      && (!loop.Idle? && loop.generation != generation ==> syncRequested)
      && (lastEdit.Some? ==> lastEdit.value < nextId)
      && (!loop.Idle? && lastEdit.Some? && lastEdit.value >= loop.id ==> syncRequested)
    }

    /** The operation at the head is a run under the registration in force. */
    ghost predicate HeadIsCurrent()
      reads this
    {
      queue != [] && queue[0].SyncRun? && queue[0].generation == generation
    }

    /** The manifest in memory is the one of the registered address, or there is none. */
    ghost predicate Current()
      reads this
    {
      && (lastManifest.Some? <==> lastManifestGeneration.Some?) && (lastManifest.Some? <==> fetchedFrom.Some?)
      && (lastManifest.Some? ==> lastManifestGeneration == Some(generation) && fetchedFrom == url)
      && (phase.Fetching? && HeadIsCurrent() ==> Some(phase.url) == url)
      && (phase.Applying? ==> phase.loaded == saved)
      && (loop.Returned? && loop.success && loop.generation == generation ==> lastManifest.Some?)
      && (phase.Applying? && HeadIsCurrent() ==> lastManifest == Some(phase.items))
    }

    ghost predicate Valid()
      reads this
    {
      Queued() && Looping() && Current() && Honours(saved, performed)
    }

    constructor (c: Consent)
      ensures Valid() && saved == c && loop.Idle? && queue == [] && history == [] && url.None? && generation == 0
      ensures performed == []
    {
      url, generation, lastManifest, lastManifestGeneration := None, 0, None, None;
      loop, syncRequested, queue, phase, saved, nextId := Idle, false, [], Waiting, c, 0;
      history, fetchedFrom, lastEdit, performed := [], None, None, [];
    }

    /** Register a manifest address. Another one invalidates what was fetched, and asks for one more run. */
    method Register(u: string)
      requires Valid()
      modifies this`url, this`generation, this`lastManifest, this`lastManifestGeneration, this`fetchedFrom,
        this`syncRequested
      ensures Valid() && url == Some(u)
      ensures generation == (if old(url) == Some(u) then old(generation) else old(generation) + 1)
      ensures lastManifest == (if old(url) == Some(u) then old(lastManifest) else None)
      ensures syncRequested == (old(syncRequested) || (old(url) != Some(u) && InFlight()))
    {
      if url != Some(u) {
        url, generation, lastManifest, lastManifestGeneration, fetchedFrom := Some(u), generation + 1, None, None, None;
        if !loop.Idle? {
          syncRequested := true;
        }
      }
    }

    /** Start the loop, or join the one in flight. */
    method SyncNow() returns (joined: bool)
      requires Valid()
      modifies this`loop, this`syncRequested, this`queue, this`nextId
      ensures Valid() && InFlight() && joined == old(InFlight())
      ensures joined ==>
        loop == old(loop) && syncRequested == old(syncRequested) && queue == old(queue) && nextId == old(nextId)
      ensures !joined ==>
        && loop == Awaiting(old(nextId), generation) && !syncRequested
        && queue == old(queue) + [SyncRun(old(nextId), generation)] && nextId == old(nextId) + 1
    {
      joined := !loop.Idle?;
      if !joined {
        Enqueue();
      }
    }

    /** One turn of the loop up to its await. */
    method Enqueue()
      requires Queued() && Current() && Honours(saved, performed) && !loop.Awaiting?
      requires !phase.Waiting? ==> |queue| > 0 && queue[0].SyncRun?
      requires forall i: nat | i < |queue| :: !queue[i].SyncRun?
      requires lastEdit.Some? ==> lastEdit.value < nextId
      modifies this`loop, this`syncRequested, this`queue, this`nextId
      ensures Valid() && loop == Awaiting(old(nextId), generation) && !syncRequested
      ensures queue == old(queue) + [SyncRun(old(nextId), generation)] && nextId == old(nextId) + 1
    {
      syncRequested := false;
      loop := Awaiting(nextId, generation);
      queue := queue + [SyncRun(nextId, generation)];
      nextId := nextId + 1;
    }

    /** Queue a change of consent. A loop in flight is asked for one more run. */
    method Edit(op: Op)
      requires Valid() && op.id == nextId && !op.SyncRun?
      modifies this`syncRequested, this`queue, this`nextId, this`lastEdit
      ensures Valid() && queue == old(queue) + [op] && nextId == old(nextId) + 1 && lastEdit == Some(op.id)
      ensures syncRequested == (old(syncRequested) || InFlight())
    {
      if !loop.Idle? {
        syncRequested := true;
      }
      queue := queue + [op];
      nextId := nextId + 1;
      lastEdit := Some(op.id);
    }

    /** The item is in the manifest fetched for the registration in force. */
    predicate Known(g: nat, key: Key)
      reads this
    {
      lastManifestGeneration == Some(g) && lastManifest.Some? && key in lastManifest.value
    }

    /** Approve an item: only one the current manifest carries, and only if that is still so when its turn comes. */
    method Approve(key: Key, adopt: bool) returns (accepted: bool)
      requires Valid()
      modifies this`syncRequested, this`queue, this`nextId, this`lastEdit
      ensures Valid()
      ensures accepted <==>
        lastManifestGeneration == Some(generation) && lastManifest.Some? && key in lastManifest.value
      ensures accepted ==>
        && queue == old(queue) + [Approval(old(nextId), generation, key, adopt)] && lastEdit == Some(old(nextId))
        && syncRequested == (old(syncRequested) || InFlight())
      ensures !accepted ==> queue == old(queue) && syncRequested == old(syncRequested)
    {
      accepted := Known(generation, key);
      if accepted {
        Edit(Approval(nextId, generation, key, adopt));
      }
    }

    /** Delete an item. */
    method Delete(key: Key)
      requires Valid()
      modifies this`syncRequested, this`queue, this`nextId, this`lastEdit
      ensures Valid() && queue == old(queue) + [Removal(old(nextId), key)] && lastEdit == Some(old(nextId))
      ensures syncRequested == (old(syncRequested) || InFlight())
    {
      Edit(Removal(nextId, key));
    }

    /** The head of the queue is over. */
    method End(success: bool)
      requires Queued() && |queue| > 0 && !phase.Waiting?
      modifies this`queue, this`phase, this`loop, this`history
      ensures Queued() && queue == old(queue)[1..] && phase.Waiting?
      ensures history == old(history) + [Ended(old(queue)[0].id)]
      ensures loop == if old(queue)[0].SyncRun? then Returned(old(queue)[0].id, old(queue)[0].generation, success)
        else old(loop)
    {
      history := history + [Ended(queue[0].id)];
      if queue[0].SyncRun? {
        loop := Returned(queue[0].id, queue[0].generation, success);
      }
      queue, phase := queue[1..], Waiting;
    }

    /** The head of the queue begins. */
    method Start(p: Phase)
      requires Queued() && |queue| > 0 && phase.Waiting? && !p.Waiting?
      modifies this`phase, this`history
      ensures Queued() && phase == p && history == old(history) + [Begun(queue[0].id)]
    {
      history := history + [Begun(queue[0].id)];
      phase := p;
    }

    /** A run at the head of the queue starts to fetch, or fails for want of an address. */
    method BeginRun()
      requires Valid() && |queue| > 0 && phase.Waiting? && queue[0].SyncRun?
      modifies this`queue, this`phase, this`loop, this`history
      ensures Valid() && old(history) <= history
      ensures url.Some? ==> queue == old(queue) && phase == Fetching(url.value) && loop == old(loop)
      ensures url.None? ==>
        queue == old(queue)[1..] && loop == Returned(old(queue)[0].id, old(queue)[0].generation, false)
    {
      if url.Some? {
        Start(Fetching(url.value));
      } else {
        Start(Fetching(""));
        End(false);
      }
    }

    /** An edit at the head of the queue has its turn. */
    method Pass()
      requires Queued() && Looping() && Current() && |queue| > 0 && phase.Waiting? && !queue[0].SyncRun?
      modifies this`queue, this`phase, this`history, this`loop
      ensures Queued() && Looping() && Current()
      ensures queue == old(queue)[1..] && loop == old(loop) && phase.Waiting? && old(history) <= history
    {
      Start(Fetching(""));
      End(false);
    }

    /**
      An edit at the head of the queue takes place. An approval is written exactly when its registration
      is still in force and its manifest, fetched for it, names the item.
    */
    method PerformEdit()
      requires Valid() && |queue| > 0 && phase.Waiting? && !queue[0].SyncRun?
      modifies this`queue, this`phase, this`history, this`saved, this`loop, this`performed
      ensures Valid() && old(history) <= history && queue == old(queue)[1..] && loop == old(loop) && phase.Waiting?
      ensures
        var op, c := old(queue)[0], old(saved);
        var valid := op.Approval? && op.generation == generation && lastManifestGeneration == Some(generation)
          && lastManifest.Some? && op.key in lastManifest.value;
        && performed == (if op.Removal? || valid then old(performed) + [op] else old(performed))
        && TakesEffect(c, saved, op, valid)
    {
      var op, after := queue[0], Edited(saved, queue[0]);
      assert TakesEffect(saved, after, op, op.Approval? && op.generation == generation && Known(generation, op.key));
      ghost var takesPlace := op.Removal? || (op.generation == generation && Known(generation, op.key));
      if takesPlace {
        HonoursMore(saved, after, performed, op);
      }
      hide Honours, Queued, Looping, TakesEffect;
      Pass();
      saved := after;
      if takesPlace {
        performed := performed + [op];
      }
    }

    /** The consent an edit leaves, seen from the manifest in memory. */
    function Edited(c: Consent, op: Op): Consent
      reads this
    {
      match op
      case SyncRun(_, _) => c
      case Approval(_, g, key, adopt) => if g == generation && Known(g, key) then ApprovedBy(c, key, adopt) else c
      case Removal(_, key) => RemovedBy(c, key)
    }

    /** The manifest arrives, or not. A run that was superseded meanwhile fails and leaves no trace. */
    method Fetched(items: Option<set<Key>>)
      requires Valid() && phase.Fetching?
      modifies this`queue, this`phase, this`loop, this`history, this`lastManifest, this`lastManifestGeneration,
        this`fetchedFrom
      ensures Valid() && old(history) <= history && saved == old(saved)
      ensures items.Some? && old(queue)[0].generation == generation ==>
        && phase == Applying(items.value, saved) && queue == old(queue) && loop == old(loop)
        && lastManifest == items && lastManifestGeneration == Some(generation) && fetchedFrom == url
      ensures items.None? || old(queue)[0].generation != generation ==>
        && queue == old(queue)[1..] && loop == Returned(old(queue)[0].id, old(queue)[0].generation, false)
        && lastManifest == old(lastManifest) && lastManifestGeneration == old(lastManifestGeneration)
    {
      if items.None? || queue[0].generation != generation {
        End(false);
        return;
      }
      fetchedFrom := Some(phase.url);
      lastManifest, lastManifestGeneration := items, Some(generation);
      phase := Applying(items.value, saved);
    }

    /** The run is through with its items. It succeeds only if its registration is still in force and the save works. */
    method Applied(installed: set<Key>, ok: bool) returns (success: bool)
      requires Valid() && phase.Applying?
      modifies this`queue, this`phase, this`loop, this`history, this`saved
      ensures Valid() && old(history) <= history && success == (ok && old(queue)[0].generation == generation)
      ensures queue == old(queue)[1..] && loop == Returned(old(queue)[0].id, old(queue)[0].generation, success)
      ensures success ==>
        && saved.approved == old(saved).approved + installed
        && saved.revoked == old(saved).revoked * old(phase).items
        && saved.adopted == old(saved).adopted * old(phase).items
      ensures !success ==> saved == old(saved)
      ensures old(saved).approved <= saved.approved
    {
      success := ok && queue[0].generation == generation;
      var after := if success then AppliedBy(phase.loaded, phase.items, installed) else saved;
      End(success);
      saved := after;
    }

    /**
      The loop looks at how its run went, and goes on, returns, or throws; leaving it and clearing
      `inFlight` is one step. It returns only after a run that succeeded, that started under the
      registration in force, and that began after every edit asked for so far had ended.
    */
    method Resume() returns (r: Settled)
      requires Valid() && loop.Returned?
      modifies this`loop, this`syncRequested, this`queue, this`nextId
      ensures Valid()
      ensures r.Resolved? <==> old(loop).success && !old(syncRequested)
      ensures r.Rejected? <==> !old(loop).success && !old(syncRequested)
      ensures !r.Continues? ==>
        && loop.Idle? && queue == old(queue) && old(loop).generation == generation
        && (lastEdit.Some? ==> lastEdit.value < old(loop).id < |history| / 2)
      ensures r.Resolved? ==> lastManifestGeneration == Some(generation) && fetchedFrom == url
      ensures r.Continues? ==>
        loop == Awaiting(old(nextId), generation) && queue == old(queue) + [SyncRun(old(nextId), generation)]
    {
      if loop.generation == generation && !syncRequested && !loop.success {
        loop := Idle;
        return Rejected;
      }
      if loop.generation != generation {
        syncRequested := true;
      }
      if syncRequested {
        Enqueue();
        return Continues;
      }
      loop := Idle;
      return Resolved;
    }

    /** One thing that happens; what cannot happen in this state does not. */
    method Step(e: Event)
      requires Valid()
      modifies this
      ensures Valid() && old(history) <= history && old(nextId) <= nextId
      ensures forall key | key in old(saved).approved && key !in saved.approved ::
        |old(queue)| > 0 && old(queue)[0].Removal? && old(queue)[0].key == key
      ensures performed == old(performed)
        || (e.Beginning? && |old(queue)| > 0 && performed == old(performed) + [old(queue)[0]])
    {
      hide Looping, Current, Serial;
      match e
      case Registering(u) =>
        Register(u);
      case Syncing =>
        var joined := SyncNow();
      case Approving(key, adopt) =>
        var accepted := Approve(key, adopt);
      case Deleting(key) =>
        Delete(key);
      case Beginning =>
        if |queue| > 0 && phase.Waiting? {
          if queue[0].SyncRun? {
            BeginRun();
          } else {
            PerformEdit();
          }
        }
      case FetchBack(items) =>
        if phase.Fetching? {
          Fetched(items);
        }
      case ApplyBack(installed, ok) =>
        if phase.Applying? {
          var success := Applied(installed, ok);
        }
      case LoopBack =>
        if loop.Returned? {
          var r := Resume();
        }
    }

    /**
      Any interleaving: operations never overlap and run in the order they were asked for. An approval that
      took place stays in the consent until its item is removed, and so a run that has loaded the consent
      since has it.
    */
    method Run(events: seq<Event>)
      requires Valid()
      modifies this
      ensures Serial(history) && old(history) <= history
      ensures lastManifest.Some? ==> lastManifestGeneration == Some(generation) && fetchedFrom == url
      ensures old(performed) <= performed
      ensures forall i: nat | Standing(performed, i) ::
        && performed[i].key in saved.approved && performed[i].key !in saved.revoked
        && (phase.Applying? ==> performed[i].key in phase.loaded.approved && performed[i].key !in phase.loaded.revoked)
    {
      var i := 0;
      while i < |events|
        invariant i <= |events| && Valid() && old(history) <= history && old(performed) <= performed
      {
        Step(events[i]);
        i := i + 1;
      }
    }
  }
}
