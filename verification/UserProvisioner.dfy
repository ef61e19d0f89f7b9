/**
  Provisioning of one OS account per user. Calls for the same user share one operation; every reading
  and rewriting of the user file is a job in one queue, and the awaits in between let everything else
  happen. Any await may fail, and the process may restart at any moment.
*/
module UserProvisioner {
  import opened Options

  datatype Status = Unset | Creating | Ready

  datatype User = User(
    account: string, uid: Option<int>, gid: Option<int>, home: string, createdAt: string, status: Status)
  {
    /** Nothing is left to create; only then is the record never written again. */
    predicate Complete() { !status.Creating? && uid.Some? && gid.Some? }

    /** Ids exactly when the account is ready, where the status says so; older records have none. */
    predicate WellFormed() {
      (status.Creating? ==> uid.None? && gid.None?) && (status.Ready? ==> uid.Some? && gid.Some?)
    }

    /** What this program writes: a record to be completed, without ids, or a ready one with both. */
    predicate Own() { WellFormed() && !status.Unset? }
  }

  type Users = map<string, User>

  /**
    How far the operation for one user is: waiting for its first job, for the OS, for its second job, or for
    systemd.
  */
  datatype Phase = Reserving | Making(user: User) | Saving(user: User) | Checking(user: User) | Starting(user: User)

  datatype Job = Reserve(who: string) | Persist(who: string, user: User)

  predicate HexDigits(s: string) { forall c | c in s :: '0' <= c <= '9' || 'a' <= c <= 'f' }

  predicate AccountName(s: string) { |s| == 24 && s[..4] == "cap_" && HexDigits(s[4..]) }

  /** What a run may do to a record: nothing, or complete an incomplete one under the same name, home and date. */
  ghost predicate Completes(before: User, after: User) {
    after == before ||
    (!before.Complete() && after.status.Ready? && after.Complete()
      && after.account == before.account && after.home == before.home && after.createdAt == before.createdAt)
  }

  /** No record is lost or changed except by being completed; and what is written is this program's own form. */
  ghost predicate Evolves(before: Users, after: Users, limit: nat) {
    && (forall who | who in before :: who in after && Completes(before[who], after[who]))
    && (forall who | who in after :: Lookup(before, who) == Some(after[who]) || after[who].Own())
    && (|after| <= limit || |after| == |before|)
  }

  lemma EvolvesTransitive(a: Users, b: Users, c: Users, limit: nat)
    requires Evolves(a, b, limit) && Evolves(b, c, limit)
    ensures Evolves(a, c, limit)
  {
    forall who | who in a ensures who in c && Completes(a[who], c[who]) {
      assert who in b && Completes(a[who], b[who]) && Completes(b[who], c[who]);
    }
    forall who | who in c ensures Lookup(a, who) == Some(c[who]) || c[who].Own() {
      assert Lookup(b, who) == Some(c[who]) || c[who].Own();
    }
  }

  lemma OneMore(m: Users, who: string, u: User, limit: nat)
    requires who !in m && |m| < limit && u.Own()
    ensures Evolves(m, m[who := u], limit)
  {
  }

  lemma OneCompleted(m: Users, who: string, u: User, limit: nat)
    requires who in m && Completes(m[who], u) && u.Own()
    ensures Evolves(m, m[who := u], limit)
  {
    assert m[who := u].Keys == m.Keys;
    assert |m[who := u]| == |m[who := u].Keys| && |m| == |m.Keys|;
  }

  ghost predicate AllWellFormed(m: Users) {
    forall who | who in m :: m[who].WellFormed()
  }

  /** In particular ids in a well-formed record never change, and its status does not go back. */
  lemma RecordedIdsStay(before: Users, after: Users, limit: nat, who: string)
    requires Evolves(before, after, limit) && who in before && before[who].WellFormed()
    ensures before[who].uid.Some? && before[who].gid.Some? ==> after[who] == before[who]
    ensures !before[who].status.Creating? && before[who].uid.Some? && before[who].gid.Some? ==>
      !after[who].status.Creating?
    ensures after[who].WellFormed()
  {
    assert Completes(before[who], after[who]);
  }

  /**
    And whatever the file held at first, so do ids that this program has written since: over two stretches of
    a run, a record that the first one made or changed keeps its ids over the second.
  */
  lemma WrittenIdsStay(first: Users, before: Users, after: Users, limit: nat, who: string)
    requires Evolves(first, before, limit) && Evolves(before, after, limit)
    requires who in before && Lookup(first, who) != Some(before[who])
    ensures before[who].uid.Some? || before[who].gid.Some? ==> after[who] == before[who]
    ensures before[who].Own() && after[who].Own()
  {
    assert before[who].Own() && (Lookup(before, who) == Some(after[who]) || after[who].Own());
    RecordedIdsStay(before, after, limit, who);
  }

  /**
    A uid on file can change exactly if the record is incomplete, which one with a uid that this program wrote
    never is.
  */
  lemma ForeignIdsMayChange(before: User)
    requires before.uid.Some?
    ensures (exists after :: Completes(before, after) && after.uid != before.uid) <==> !before.Complete()
    ensures before.WellFormed() && !before.Complete() ==> before.status.Unset?
  {
    if !before.Complete() {
      var after := before.(uid := Some(before.uid.value + 1), gid := Some(1), status := Ready);
      assert Completes(before, after) && after.uid != before.uid;
    }
  }

  /** Such a record, left by something else than this program, and the provisioner giving it other ids. */
  method IdsReassigned(dir: string, account: string, createdAt: string) returns (before: User, after: User)
    requires AccountName(account)
    ensures before.status.Creating? && before.uid == Some(1000) && before.gid == Some(1000)
    ensures after.status.Ready? && after.uid == Some(1001) && after.gid == Some(1001)
  {
    before := User(account, Some(1000), Some(1000), dir + "/" + account, createdAt, Creating);
    var p := new Provisioner(dir, 1, Some(map[account := before]));
    p.ProvisionAlone(account, createdAt, 1001, 1001);
    after := p.Stored()[account];
  }

  datatype Event =
    | Asking(who: string)
    | Reading(readable: bool)
    | Writing(createdAt: string, writes: bool)
    | SystemBack(who: string, uid: int, gid: int, ok: bool)
    | Restarting

  class Provisioner {
    const usersDir: string
    const maxUsers: nat
    /** The user file; `None` is a missing one. */
    var file: Option<Users>
    var locks: map<string, Phase>
    var queue: seq<Job>
    /** What the job at the head of the queue has read. */
    var loaded: Option<Users>

    function Stored(): Users
      reads this
    {
      if file.Some? then file.value else map[]
    }

    function Home(account: string): string { usersDir + "/" + account }

    /** The pending-record check of the source. */
    predicate Placed(u: User) { AccountName(u.account) && u.home == Home(u.account) }

    /** The finished-record check of the source. */
    predicate Usable(u: User) {
      Placed(u) && u.uid.Some? && u.uid.value >= 1 && u.gid.Some? && u.gid.value >= 1
    }

    /** The job an operation waits for is its own, and there is no other. */
    ghost predicate Queued()
      reads this
    {
      && (forall i: nat | i < |queue| ::
            Lookup(locks, queue[i].who) == Some(if queue[i].Reserve? then Reserving else Saving(queue[i].user)))
      && (forall i, j | 0 <= i < j < |queue| :: queue[i].who != queue[j].who)
      && (loaded.Some? ==> queue != [] && loaded.value == Stored())
    }

    /** An operation past its first job holds the record of the file, or that record completed. */
    ghost predicate Tracked()
      reads this
    {
      forall who | who in locks && !locks[who].Reserving? ::
        && who in Stored()
        && (match locks[who]
            case Making(u) => Stored()[who] == u && !u.Complete()
            case Saving(u) => Completes(Stored()[who], u) && u.status.Ready? && u.Complete()
            case Checking(u) => Stored()[who] == u && u.Complete()
            case Starting(u) => Stored()[who] == u && Usable(u)
            case Reserving => true)
    }

    ghost predicate Valid()
      reads this
    {
      Queued() && Tracked()
    }

    constructor (dir: string, max: nat, f: Option<Users>)
      requires max >= 1
      ensures Valid() && usersDir == dir && maxUsers == max && file == f && locks == map[] && queue == []
    {
      usersDir, maxUsers, file, locks, queue, loaded := dir, max, f, map[], [], None;
    }

    /** Ask for a worker; calls for a user whose operation is running join it. */
    method EnsureWorker(who: string) returns (joined: bool)
      requires Valid()
      modifies this`locks, this`queue
      ensures Valid() && joined == (who in old(locks))
      ensures joined ==> locks == old(locks) && queue == old(queue)
      ensures !joined ==> locks == old(locks)[who := Reserving] && queue == old(queue) + [Reserve(who)]
    {
      joined := who in locks;
      if !joined {
        locks := locks[who := Reserving];
        queue := queue + [Reserve(who)];
      }
    }

    /** The head of the queue reads the file; an unreadable one ends the job. */
    method Read(readable: bool)
      requires Valid() && queue != [] && loaded.None?
      modifies this`loaded, this`locks, this`queue
      ensures Valid()
      ensures readable ==> loaded == Some(Stored()) && queue == old(queue) && locks == old(locks)
      ensures !readable ==> queue == old(queue)[1..] && locks == old(locks) - {old(queue)[0].who} && loaded.None?
    {
      if readable {
        loaded := Some(Stored());
      } else {
        Fail();
      }
    }

    /** The head job throws, and its operation with it. */
    method Fail()
      requires Valid() && queue != []
      modifies this`loaded, this`locks, this`queue
      ensures Valid() && queue == old(queue)[1..] && locks == old(locks) - {old(queue)[0].who} && loaded.None?
    {
      locks, queue, loaded := locks - {queue[0].who}, queue[1..], None;
    }

    /** An operation throws outside of its jobs. */
    method Abort(who: string)
      requires Valid() && who in locks && !locks[who].Reserving? && !locks[who].Saving?
      modifies this`locks
      ensures Valid() && locks == old(locks) - {who}
    {
      locks := locks - {who};
    }

    /** The job at the head ends well and hands its operation on. */
    method Pass(next: Phase)
      requires Valid() && queue != [] && !next.Saving? && !next.Reserving?
      requires queue[0].who in Stored() && match next
        case Making(u) => Stored()[queue[0].who] == u && !u.Complete()
        case Checking(u) => Stored()[queue[0].who] == u && u.Complete()
        case Starting(u) => Stored()[queue[0].who] == u && Usable(u)
        case _ => true
      modifies this`loaded, this`locks, this`queue
      ensures Valid() && queue == old(queue)[1..] && locks == old(locks)[old(queue)[0].who := next] && loaded.None?
    {
      locks, queue, loaded := locks[queue[0].who := next], queue[1..], None;
    }

    /** Rewrite the file with one record changed, which nobody else has read meanwhile. */
    method Write(u: User)
      requires Valid() && queue != [] && loaded.Some?
      requires u.Own() && (queue[0].who in Stored() ==> Completes(Stored()[queue[0].who], u))
      requires queue[0].who !in Stored() ==> |Stored()| < maxUsers
      modifies this`file, this`loaded
      ensures Stored() == old(Stored())[queue[0].who := u] && Evolves(old(Stored()), Stored(), maxUsers)
      ensures loaded.None? && Queued()
      ensures forall who | who in locks && who != queue[0].who && !locks[who].Reserving? ::
        who in Stored() && Stored()[who] == old(Stored())[who]
    {
      if queue[0].who in Stored() {
        OneCompleted(Stored(), queue[0].who, u, maxUsers);
      } else {
        OneMore(Stored(), queue[0].who, u, maxUsers);
      }
      file := Some(loaded.value[queue[0].who := u]);
      loaded := None;
    }

    /** The head job makes sure its user has a record; a new one waits for its account. */
    method FinishReserve(createdAt: string, writes: bool) returns (ok: bool)
      requires Valid() && queue != [] && loaded.Some? && queue[0].Reserve?
      modifies this`file, this`loaded, this`locks, this`queue
      ensures Valid() && Evolves(old(Stored()), Stored(), maxUsers) && queue == old(queue)[1..] && loaded.None?
      ensures ok <==> old(Reservable(queue[0].who, writes))
      ensures
        var who := old(queue)[0].who;
        var account := "cap_" + if |who| > 20 then who[..20] else who;
        Stored() == if ok && who !in old(Stored())
          then old(Stored())[who := User(account, None, None, usersDir + "/" + account, createdAt, Creating)]
          else old(Stored())
      ensures locks == if ok then old(locks)[old(queue)[0].who := Next(Stored()[old(queue)[0].who])]
        else old(locks) - {old(queue)[0].who}
    {
      var who := queue[0].who;
      ok := true;
      if who !in loaded.value {
        if |loaded.value| >= maxUsers || !AccountName(AccountOf(who)) || !writes {
          Fail();
          return false;
        }
        Write(NewUser(who, createdAt));
      }
      Pass(Next(Stored()[who]));
    }

    /** There is a record, or room for one and a name for its account, and the write works. */
    predicate Reservable(who: string, writes: bool)
      reads this
    {
      who in Stored() || (|Stored()| < maxUsers && AccountName(AccountOf(who)) && writes)
    }

    function AccountOf(who: string): string { "cap_" + if |who| > 20 then who[..20] else who }

    function NewUser(who: string, createdAt: string): User {
      User(AccountOf(who), None, None, Home(AccountOf(who)), createdAt, Creating)
    }

    /** A record that is not finished goes on to its account, a finished one to a check of its ids. */
    function Next(u: User): Phase { if u.Complete() then Checking(u) else Making(u) }

    /** The account exists and its home is secured: ask for the record to be finished. */
    method Made(who: string, uid: int, gid: int, ok: bool)
      requires Valid() && Lookup(locks, who).Some? && locks[who].Making?
      modifies this`locks, this`queue
      ensures Valid()
      ensures ok && Placed(old(locks)[who].user) ==>
        && var u := old(locks)[who].user;
        var done := User(u.account, Some(uid), Some(gid), u.home, u.createdAt, Ready);
        locks == old(locks)[who := Saving(done)] && queue == old(queue) + [Persist(who, done)]
      ensures !ok || !Placed(old(locks)[who].user) ==> locks == old(locks) - {who} && queue == old(queue)
    {
      var u := locks[who].user;
      if !ok || !Placed(u) {
        Abort(who);
        return;
      }
      var done := Finished(u, uid, gid);
      locks := locks[who := Saving(done)];
      queue := queue + [Persist(who, done)];
    }

    function Finished(u: User, uid: int, gid: int): User { u.(uid := Some(uid), gid := Some(gid), status := Ready) }

    /**
      The head job finishes its record. That the record was replaced in between, which it checks for,
      cannot happen: it fails only on ids that are not positive, or on the write.
    */
    method FinishPersist(writes: bool) returns (ok: bool)
      requires Valid() && queue != [] && loaded.Some? && queue[0].Persist?
      modifies this`file, this`loaded, this`locks, this`queue
      ensures Valid() && Evolves(old(Stored()), Stored(), maxUsers) && queue == old(queue)[1..]
      ensures ok <==> Usable(old(queue)[0].user) && writes
      ensures Stored() == if ok then old(Stored())[old(queue)[0].who := old(queue)[0].user] else old(Stored())
      ensures locks == if ok then old(locks)[old(queue)[0].who := Starting(old(queue)[0].user)]
        else old(locks) - {old(queue)[0].who}
    {
      var who, u := queue[0].who, queue[0].user;
      assert Lookup(locks, who) == Some(Saving(u));
      var changed := true;
      if who in loaded.value {
        var reserved := loaded.value[who];
        changed :=
          reserved.account != u.account || reserved.home != u.home || reserved.createdAt != u.createdAt
          || !Placed(reserved);
      }
      if !Usable(u) || changed || !writes {
        Fail();
        return false;
      }
      Write(u);
      Pass(Starting(u));
      return true;
    }

    /** The ids of an existing account are looked up again. */
    method Checked(who: string, uid: int, gid: int, ok: bool)
      requires Valid() && Lookup(locks, who).Some? && locks[who].Checking?
      modifies this`locks
      ensures Valid()
      ensures var u := old(locks)[who].user;
        locks == if ok && Usable(u) && u.uid == Some(uid) && u.gid == Some(gid)
          then old(locks)[who := Starting(u)] else old(locks) - {who}
    {
      var u := locks[who].user;
      if !Usable(u) || !ok || uid != u.uid.value || gid != u.gid.value {
        Abort(who);
        return;
      }
      locks := locks[who := Starting(u)];
    }

    /** The socket is up: the caller gets the account that is on file. */
    method Started(who: string, ok: bool) returns (target: Option<User>)
      requires Valid() && Lookup(locks, who).Some? && locks[who].Starting?
      modifies this`locks
      ensures Valid() && locks == old(locks) - {who} && target.Some? == ok
      ensures target.Some? ==> Lookup(Stored(), who) == target && Usable(target.value)
    {
      var u := locks[who].user;
      locks := locks - {who};
      return if ok then Some(u) else None;
    }

    /** A restart keeps the file and nothing else. */
    method Restart()
      requires Valid()
      modifies this`locks, this`queue, this`loaded
      ensures Valid() && locks == map[] && queue == [] && loaded.None?
    {
      locks, queue, loaded := map[], [], None;
    }

    /** One thing that happens; what cannot happen in this state does not. */
    method Step(e: Event)
      requires Valid()
      modifies this`file, this`loaded, this`locks, this`queue
      ensures Valid() && Evolves(old(Stored()), Stored(), maxUsers)
    {
      match e
      case Asking(who) =>
        var joined := EnsureWorker(who);
      case Reading(readable) =>
        if queue != [] && loaded.None? {
          Read(readable);
        }
      case Writing(createdAt, writes) =>
        if queue != [] && loaded.Some? {
          var ok;
          if queue[0].Reserve? {
            ok := FinishReserve(createdAt, writes);
          } else {
            ok := FinishPersist(writes);
          }
        }
      case SystemBack(who, uid, gid, ok) =>
        if who in locks {
          if locks[who].Making? {
            Made(who, uid, gid, ok);
          } else if locks[who].Checking? {
            Checked(who, uid, gid, ok);
          } else if locks[who].Starting? {
            var target := Started(who, ok);
          }
        }
      case Restarting =>
        Restart();
    }

    /**
      One undisturbed operation. A user not on file is entered if there is room and the name fits; and ids are written
      exactly if the record is incomplete and in its place, and the system reports positive ones.
    */
    method ProvisionAlone(who: string, createdAt: string, uid: int, gid: int)
      requires Valid() && locks == map[] && queue == []
      modifies this`file, this`loaded, this`locks, this`queue
      ensures Valid()
      ensures
        var users, account := old(Stored()), "cap_" + if |who| > 20 then who[..20] else who;
        var u := if who in users then users[who]
          else User(account, None, None, usersDir + "/" + account, createdAt, Creating);
        var placed := |u.account| == 24 && u.account[..4] == "cap_" && HexDigits(u.account[4..])
          && u.home == usersDir + "/" + u.account;
        Stored() ==
          if who !in users && (|users| >= maxUsers || !placed) then users
          else if (u.status.Creating? || u.uid.None? || u.gid.None?) && placed && uid >= 1 && gid >= 1 then
            users[who := User(u.account, Some(uid), Some(gid), u.home, u.createdAt, Ready)]
          else users[who := u]
    {
      hide HexDigits, Evolves;
      var joined := EnsureWorker(who);
      Read(true);
      var ok := FinishReserve(createdAt, true);
      if ok {
        FinishAlone(who, uid, gid);
      }
    }

    /** The rest of an undisturbed operation, from the record on file. */
    method FinishAlone(who: string, uid: int, gid: int)
      requires Valid() && queue == [] && loaded.None?
      requires who in Stored() && Lookup(locks, who) == Some(Next(Stored()[who]))
      modifies this`file, this`loaded, this`locks, this`queue
      ensures Valid()
      ensures
        var u := old(Stored())[who];
        Stored() == if !u.Complete() && Placed(u) && uid >= 1 && gid >= 1
          then old(Stored())[who := User(u.account, Some(uid), Some(gid), u.home, u.createdAt, Ready)]
          else old(Stored())
    {
      if locks[who].Making? {
        Made(who, uid, gid, true);
        if queue != [] {
          Read(true);
          var ok := FinishPersist(true);
        }
      }
    }

    /**
      Any interleaving of calls, failures and restarts: no user is lost, there are never more than the
      limit unless there were before, a record is at most completed once, under the same name, and
      every record that is made or completed has this program's own form, so that its ids stay.
    */
    method Run(events: seq<Event>)
      requires Valid()
      modifies this`file, this`loaded, this`locks, this`queue
      ensures Valid() && Evolves(old(Stored()), Stored(), maxUsers)
      ensures old(AllWellFormed(Stored())) ==> AllWellFormed(Stored())
    {
      var i := 0;
      while i < |events|
        invariant i <= |events| && Valid() && Evolves(old(Stored()), Stored(), maxUsers)
      {
        ghost var before := Stored();
        Step(events[i]);
        EvolvesTransitive(old(Stored()), before, Stored(), maxUsers);
        i := i + 1;
      }
    }
  }
}
