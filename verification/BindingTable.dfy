/**
  The gateway's table of issued provisioning generations: which account, engine and session each one
  was given to, in memory and in two files that survive restarts. A save may fail, and the process may
  die before or after one. Generations are numbers here; `Generations` relates them to their text.
*/
module BindingTable {
  import opened Options
  import opened Generations

  type Generation = g: nat | g < SPACE

  const MAX_BINDINGS: nat := 512
  const MAX_BYTES: nat := 1024 * 1024
  const NAME_LIMIT: nat := 256
  /** The part of a full file that one binding may take; 512 of them and what is around them fit in 1 MiB. */
  const SHARE: nat := 2046

  /** Bytes of a character in a JSON string of a UTF-8 file. */
  function CharBytes(c: char): (n: nat)
    ensures 1 <= n <= 6
  {
    var code := c as int;
    if c == '"' || c == '\\' || code == 8 || code == 9 || code == 10 || code == 12 || code == 13 then 2
    else if code < 0x20 then 6
    else if code < 0x80 then 1
    else if code < 0x800 then 2
    else if code < 0x10000 then 3
    else 4
  }

  function StringBytes(s: string): (n: nat)
    ensures |s| <= n <= 6 * |s|
  {
    if s == [] then 0 else CharBytes(s[0]) + StringBytes(s[1..])
  }

  function NumberBytes(n: int): nat
    decreases if n < 0 then 1 - n else n
  {
    if n < 0 then 1 + NumberBytes(-n) else if n < 10 then 1 else 1 + NumberBytes(n / 10)
  }

  datatype Binding = Binding(
    generation: Generation, urlHash: nat, account: string, engine: string, expiresAt: int,
    session: Option<string>, workspace: Option<string>)
  {
    /** What the loader insists on. */
    predicate WellFormed() {
      && 0 < |account| <= NAME_LIMIT && 0 < |engine| <= NAME_LIMIT
      && (session.Some? ==> ValidSession(session.value))
    }

    /** Bytes of the saved entry: its field names, a generation of 36, a hash of 64, and the rest as it is. */
    function Weight(): nat {
      172 + StringBytes(account) + StringBytes(engine) + NumberBytes(expiresAt)
      + (if session.Some? then 15 + StringBytes(session.value) else 0)
      + if workspace.Some? then 17 + StringBytes(workspace.value) else 0
    }

    /** Names the loader accepts, in an entry that leaves room for 511 more like it. */
    predicate Fits() { WellFormed() && Weight() <= SHARE }
  }

  predicate ValidSession(s: string) { 0 < |s| <= NAME_LIMIT && '/' !in s }

  /** The issued-state file: nothing readable, the bare generation of older versions, or entries. */
  datatype Issued =
    | Unreadable
    | Legacy(generation: Generation)
    | Entries(latest: Option<Generation>, entries: seq<Binding>)

  datatype Files = Files(notified: Option<Generation>, issued: Issued)

  type Table = map<Generation, Binding>

  /** How one save goes. Dying drops everything in memory. */
  datatype Fate = Saves | Fails | DiesBefore | DiesAfter

  datatype Issue = Granted(binding: Binding) | Refused

  /** What the worker answered with when it confirmed a session. */
  datatype Answer = Answer(session: string, expiresAt: int)

  /** A notification passed on, and when. */
  datatype Callback = Callback(
    generation: Generation, urlHash: nat, account: string, engine: string, session: string, at: int)

  /** A session that a worker confirmed for a generation, and until when. */
  datatype Confirmation = Confirmation(generation: Generation, session: string, expiresAt: int)

  /** Bytes of the entries with the commas between them. */
  function ListBytes(entries: seq<Binding>): nat {
    if |entries| == 0 then 0
    else if |entries| == 1 then entries[0].Weight()
    else ListBytes(entries[..|entries| - 1]) + 1 + entries[|entries| - 1].Weight()
  }

  /** Bytes of the file that a save writes. */
  function Size(latest: Option<Generation>, entries: seq<Binding>): nat {
    (if latest.Some? then 86 else 28) + ListBytes(entries)
  }

  function Latest(a: Option<Generation>, b: Option<Generation>): (r: Option<Generation>)
    ensures r == a || r == b
    ensures a.Some? ==> r.Some? && a.value <= r.value
    ensures b.Some? ==> r.Some? && b.value <= r.value
  {
    if a.Some? && (b.None? || a.value > b.value) then a else b
  }

  /** The entries of a file that are kept: well formed and not expired at `now`; later ones win. */
  function Kept(entries: seq<Binding>, now: int): (m: Table)
    ensures forall g | g in m :: m[g].generation == g && m[g] in entries && m[g].WellFormed() && m[g].expiresAt > now
    ensures |m| <= |entries|
  {
    if entries == [] then map[] else
      var rest, b := Kept(entries[..|entries| - 1], now), entries[|entries| - 1];
      if b.WellFormed() && b.expiresAt > now then rest[b.generation := b] else rest
  }

  function LatestOf(entries: seq<Binding>, now: int, latest: Option<Generation>): (r: Option<Generation>)
    ensures latest.Some? ==> r.Some? && latest.value <= r.value
    ensures forall g | g in Kept(entries, now) :: r.Some? && g <= r.value
    ensures r == latest || (r.Some? && exists b :: b in entries && b.generation == r.value)
  {
    if entries == [] then latest else
      var rest, b := LatestOf(entries[..|entries| - 1], now, latest), entries[|entries| - 1];
      if b.WellFormed() && b.expiresAt > now then Latest(Some(b.generation), rest) else rest
  }

  function LastOnes(entries: seq<Binding>): (r: seq<Binding>)
    ensures |r| <= MAX_BINDINGS && forall b :: b in r ==> b in entries
    ensures |entries| <= MAX_BINDINGS ==> r == entries
  {
    if |entries| <= MAX_BINDINGS then entries else entries[|entries| - MAX_BINDINGS..]
  }

  /** What a start makes of the issued-state file: the table and the latest generation. */
  function Loaded(f: Issued, now: int): (r: (Table, Option<Generation>))
    ensures |r.0| <= MAX_BINDINGS
    ensures forall g | g in r.0 :: r.0[g].generation == g && r.1.Some? && g <= r.1.value
  {
    match f
    case Unreadable => (map[], None)
    case Legacy(g) => (map[], Some(g))
    case Entries(latest, entries) =>
      if Size(latest, entries) > MAX_BYTES then (map[], None)
      else (Kept(LastOnes(entries), now), LatestOf(LastOnes(entries), now, latest))
  }

  /** `entries` lists the table, each binding once. */
  ghost predicate Lists(entries: seq<Binding>, m: Table) {
    && |entries| == |m|
    && (forall b | b in entries :: b.generation in m && m[b.generation] == b)
    && (forall g | g in m :: m[g] in entries)
  }

  ghost predicate Keyed(m: Table) {
    forall g | g in m :: m[g].generation == g
  }

  function Unexpired(m: Table, now: int): (r: Table)
    ensures r.Keys <= m.Keys && |r| <= |m|
  {
    var r := map g | g in m && m[g].expiresAt > now :: m[g];
    SubmapIsSmaller(r, m);
    r
  }

  lemma SubmapIsSmaller(r: Table, m: Table)
    requires r.Keys <= m.Keys
    ensures |r| <= |m|
  {
    SubsetIsSmaller(r.Keys, m.Keys);
    assert |r| == |r.Keys| && |m| == |m.Keys|;
  }

  lemma {:induction false} SubsetIsSmaller(a: set<Generation>, b: set<Generation>)
    requires a <= b
    ensures |a| <= |b|
  {
    if a != {} {
      var x :| x in a;
      SubsetIsSmaller(a - {x}, b - {x});
    }
  }

  /** Loading what listed a table gives back its unexpired bindings. */
  lemma {:induction false} KeptOfList(entries: seq<Binding>, m: Table, now: int)
    requires Keyed(m) && (forall b | b in entries :: b.generation in m && m[b.generation] == b)
    ensures forall g ::
      g in Kept(entries, now) <==> g in m && m[g] in entries && m[g].expiresAt > now && m[g].WellFormed()
    ensures forall g | g in Kept(entries, now) :: Kept(entries, now)[g] == m[g]
  {
    if entries != [] {
      var init, b := entries[..|entries| - 1], entries[|entries| - 1];
      KeptOfList(init, m, now);
      assert entries == init + [b];
    }
  }

  lemma {:induction false} SizeBound(entries: seq<Binding>, each: nat)
    requires forall b | b in entries :: b.Weight() <= each
    ensures ListBytes(entries) <= |entries| * (each + 1)
  {
    hide Binding.Weight;
    if entries != [] {
      var init, last := entries[..|entries| - 1], entries[|entries| - 1];
      SizeBound(init, each);
      assert last in entries;
      assert ListBytes(entries) <= ListBytes(init) + each + 1;
      assert |entries| * (each + 1) == |init| * (each + 1) + (each + 1);
    }
  }

  lemma {:induction false} SizeFloor(entries: seq<Binding>, each: nat)
    requires forall b | b in entries :: b.Weight() >= each
    ensures ListBytes(entries) >= |entries| * each
  {
    hide Binding.Weight;
    if entries != [] {
      var init, last := entries[..|entries| - 1], entries[|entries| - 1];
      SizeFloor(init, each);
      assert last in entries;
      assert ListBytes(entries) >= ListBytes(init) + each;
      assert |entries| * each == |init| * each + each;
    }
  }

  /** Every binding in it takes at most its share of the file, and has names that the loader accepts. */
  ghost predicate Short(m: Table) {
    forall g | g in m :: m[g].Fits()
  }

  lemma ShortTablesFit(m: Table, entries: seq<Binding>, latest: Option<Generation>)
    requires Keyed(m) && Short(m) && |m| <= MAX_BINDINGS && Lists(entries, m)
    ensures Size(latest, entries) <= MAX_BYTES
  {
    forall b | b in entries ensures b.Weight() <= SHARE {
      assert m[b.generation] == b;
    }
    SizeBound(entries, SHARE);
    assert |entries| * (SHARE + 1) <= 512 * (SHARE + 1);
  }

  lemma LatestOfList(m: Table, entries: seq<Binding>, latest: Option<Generation>, now: int)
    requires Lists(entries, m) && forall g | g in m :: latest.Some? && g <= latest.value
    ensures LatestOf(entries, now, latest) == latest
  {
    assert forall b | b in entries :: b.generation in m;
  }

  /** A file above the limit has an entry, so a loader that returns nothing has lost something. */
  lemma SomethingIsListed(m: Table, entries: seq<Binding>, latest: Option<Generation>)
    requires Lists(entries, m) && Below(m, latest) && Size(latest, entries) > MAX_BYTES
    ensures latest.Some?
  {
    assert entries != [];
    assert entries[0].generation in m;
  }

  /**
    A restart gives back the unexpired bindings of the saved table, and its latest generation, exactly
    when the file is small enough and no unexpired name is too long.
  */
  lemma ReloadKeepsTheUnexpired(m: Table, entries: seq<Binding>, latest: Option<Generation>, now: int)
    requires Keyed(m) && |m| <= MAX_BINDINGS && Lists(entries, m)
    requires forall g | g in m :: latest.Some? && g <= latest.value
    ensures Loaded(Entries(latest, entries), now) == (Unexpired(m, now), latest) <==>
      Size(latest, entries) <= MAX_BYTES && forall g | g in m && m[g].expiresAt > now :: m[g].WellFormed()
  {
    hide Binding.Weight, Binding.WellFormed, ListBytes, Size, Kept, LatestOf, LastOnes;
    LatestOfList(m, entries, latest, now);
    KeptOfList(entries, m, now);
    assert LastOnes(entries) == entries;
    if Size(latest, entries) > MAX_BYTES {
      SomethingIsListed(m, entries, latest);
    } else if forall g | g in m && m[g].expiresAt > now :: m[g].WellFormed() {
      assert Kept(entries, now) == Unexpired(m, now);
    } else {
      var g :| g in m && m[g].expiresAt > now && !m[g].WellFormed();
      assert g in Unexpired(m, now) && g !in Kept(entries, now);
    }
  }

  /**
    The limits matter: the table accepts any engine a request path can name, and enough long
    ones make a file the loader refuses whole, with every binding and the latest generation in it.
  */
  lemma LongNamesForgetEverything(m: Table, entries: seq<Binding>, latest: Option<Generation>, now: int)
    requires Lists(entries, m) && |m| >= 70 && forall g | g in m :: |m[g].engine| >= 15000
    ensures Loaded(Entries(latest, entries), now) == (map[], None)
  {
    forall b | b in entries ensures b.Weight() >= 15000 {
      assert m[b.generation] == b;
    }
    SizeFloor(entries, 15000);
    assert |entries| * 15000 >= 70 * 15000;
  }

  /** Which bindings a worker's answer, a cancelled session, or a failed request gives up. */
  datatype Release =
    | OfSession(account: string, engine: string, session: string)
    | OfAnswer(given: Option<Binding>, account: string, collection: Option<string>, superseded: Option<Generation>)
    | OfRequest(binding: Binding)
  {
    predicate Covers(b: Binding) {
      match this
      case OfSession(a, e, s) => b.account == a && b.engine == e && b.session == Some(s)
      case OfAnswer(i, a, e, g) => i == Some(b) || (g == Some(b.generation) && b.account == a && e == Some(b.engine))
      case OfRequest(i) => i == b
    }
  }

  /**
    What each release is for: every binding of one session of one account and engine; the binding that was
    given out for an answer that did not come to anything, and the one it was to replace; the binding of a
    failed request.
  */
  ghost predicate GivenUp(b: Binding, which: Release) {
    && (which.OfSession? ==>
          b.account == which.account && b.engine == which.engine && b.session == Some(which.session))
    && (which.OfAnswer? && which.given != Some(b) ==>
          && which.superseded == Some(b.generation)
          && b.account == which.account && which.collection == Some(b.engine))
    && (which.OfRequest? ==> b == which.binding)
  }

  function FileLatest(f: Issued): Option<Generation> {
    match f
    case Unreadable => None
    case Legacy(g) => Some(g)
    case Entries(latest, _) => latest
  }

  predicate AtMost(a: Option<Generation>, b: Option<Generation>) {
    a.Some? ==> b.Some? && a.value <= b.value
  }

  ghost predicate Below(m: Table, limit: Option<Generation>) {
    forall g | g in m :: limit.Some? && g <= limit.value
  }

  ghost predicate Submap(a: Table, b: Table) {
    forall g | g in a :: g in b && b[g] == a[g]
  }

  /**
    A random generation if it is the latest, else one for the timestamp after the latest; none is left after
    the last.
  */
  function Following(latest: Option<Generation>, random: Generation, tail: nat): (r: Option<Generation>)
    requires tail < TAILS
    ensures r.Some? && latest.Some? ==> latest.value < r.value
    ensures r.None? <==> latest.Some? && random <= latest.value && Timestamp(latest.value) == TIMES - 1
  {
    if latest.None? || random > latest.value then Some(random)
    else if Timestamp(latest.value) + 1 >= TIMES then
      TimestampIsHighBits(latest.value);
      None
    else
      NextTimestampWins(latest.value, tail);
      Some((Timestamp(latest.value) + 1) * TAILS + tail)
  }

  function Without(m: Table, which: Release): (r: Table)
    ensures Submap(r, m) && |r| <= |m|
  {
    var r := map g | g in m && !which.Covers(m[g]) :: m[g];
    SubmapIsSmaller(r, m);
    r
  }

  /** The binding is still the one that was issued, and the worker's answer fits it. */
  predicate Bindable(m: Table, b: Binding, a: Option<Answer>, now: int) {
    && Lookup(m, b.generation) == Some(b)
    && a.Some? && ValidSession(a.value.session) && now < a.value.expiresAt <= b.expiresAt
  }

  function Pinned(b: Binding, a: Answer): Binding {
    b.(session := Some(a.session), expiresAt := a.expiresAt)
  }

  /** The table without the binding that `b` replaces, if that is another one of the same account and engine. */
  function Superseding(m: Table, b: Binding, superseded: Option<Generation>): Table {
    if superseded.Some? && superseded.value != b.generation && superseded.value in m
      && m[superseded.value].account == b.account && m[superseded.value].engine == b.engine
    then m - {superseded.value} else m
  }

  /** The binding pinned to its session, and the one it replaces gone. */
  function Rebound(m: Table, b: Binding, a: Answer, superseded: Option<Generation>): Table {
    Superseding(m[b.generation := Pinned(b, a)], b, superseded)
  }

  lemma RebindKeeps(m: Table, b: Binding, a: Answer, superseded: Option<Generation>, limit: Option<Generation>)
    requires Keyed(m) && Lookup(m, b.generation) == Some(b) && ValidSession(a.session)
    ensures Keyed(Rebound(m, b, a, superseded)) && |Rebound(m, b, a, superseded)| <= |m|
    ensures Below(m, limit) ==> Below(Rebound(m, b, a, superseded), limit)
    ensures Short(m) && Pinned(b, a).Weight() <= SHARE ==> Short(Rebound(m, b, a, superseded))
  {
    hide StringBytes, NumberBytes, Binding.Weight;
    SubmapIsSmaller(Rebound(m, b, a, superseded), m);
  }

  /** One binding has its session and its new expiry, the one it replaces is gone, and the others are as they were. */
  ghost predicate Pins(before: Table, after: Table, b: Binding, a: Answer, superseded: Option<Generation>) {
    forall g :: Lookup(after, g) ==
      var was := Lookup(before, g);
      if g == b.generation then Some(b.(session := Some(a.session), expiresAt := a.expiresAt))
      else if superseded == Some(g) && was.Some? && was.value.account == b.account && was.value.engine == b.engine then
        None
      else
        was
  }

  lemma ReboundPins(m: Table, b: Binding, a: Answer, superseded: Option<Generation>)
    requires Lookup(m, b.generation) == Some(b)
    ensures Pins(m, Rebound(m, b, a, superseded), b, a, superseded)
  {
  }

  /** The bindings of a release are gone, and the others are as they were. */
  ghost predicate Spares(before: Table, after: Table, which: Release) {
    forall g :: Lookup(after, g) ==
      if g in before && GivenUp(before[g], which) then None else Lookup(before, g)
  }

  lemma WithoutSpares(m: Table, which: Release)
    ensures Spares(m, Without(m, which), which)
    ensures Without(m, which) == m <==> forall g | g in m :: !GivenUp(m[g], which)
  {
    forall g | g in m ensures GivenUp(m[g], which) <==> which.Covers(m[g]) {
    }
  }

  /** A live binding of this generation with the same account, engine, session and address. */
  predicate Matches(m: Table, g: Generation, urlHash: nat, account: string, engine: string, session: string, now: int) {
    && g in m && m[g].session == Some(session) && m[g].expiresAt > now
    && m[g].account == account && m[g].engine == engine && m[g].urlHash == urlHash
  }

  /** The file lists this table, as some save wrote it. */
  ghost predicate Written(f: Issued, m: Table) {
    && Keyed(m) && |m| <= MAX_BINDINGS && Below(m, FileLatest(f))
    && if f.Entries? then Lists(f.entries, m) else m == map[]
  }

  /** With short names a start always gives back the unexpired bindings and the latest generation. */
  lemma ShortTablesReload(f: Issued, m: Table, now: int)
    requires Written(f, m) && Short(m)
    ensures Loaded(f, now) == (Unexpired(m, now), FileLatest(f)) && Short(Unexpired(m, now))
  {
    if f.Entries? {
      ShortTablesFit(m, f.entries, f.latest);
      ReloadKeepsTheUnexpired(m, f.entries, f.latest, now);
    }
  }

  lemma Append(s: seq<Generation>, limit: Option<Generation>, g: Generation)
    requires Increasing(s, limit) && (limit.Some? ==> limit.value < g)
    ensures Increasing(s + [g], Some(g)) && Increasing(s, Some(g))
  {
    forall i | 0 <= i < |s| ensures s[i] < g {
      assert s[i] in s;
    }
  }

  /** A table in memory. */
  ghost predicate Held(m: Table, latest: Option<Generation>) {
    Keyed(m) && |m| <= MAX_BINDINGS && Below(m, latest)
  }

  lemma UnexpiredLess(m: Table, now: int)
    ensures Submap(Unexpired(m, now), m)
  {
  }

  lemma InsertKeeps(m: Table, b: Binding, now: int, latest: Option<Generation>)
    requires Held(m, latest) && (latest.Some? ==> latest.value < b.generation) && |Unexpired(m, now)| < MAX_BINDINGS
    ensures Held(Unexpired(m, now)[b.generation := b], Some(b.generation))
  {
    assert b.generation !in m;
  }

  lemma {:induction false} SameSizeSubset(a: set<Generation>, b: set<Generation>)
    requires a <= b && |a| == |b|
    ensures a == b
  {
    if a != b {
      var x :| x in b && x !in a;
      SubsetIsSmaller(a, b - {x});
    }
  }

  /** A table that is full after pruning had nothing to prune, so refusing for capacity changes nothing. */
  lemma FullTablePrunesNothing(m: Table, now: int)
    requires |m| <= MAX_BINDINGS <= |Unexpired(m, now)|
    ensures Unexpired(m, now) == m
  {
    var r := Unexpired(m, now);
    assert |r| == |r.Keys| && |m| == |m.Keys|;
    SameSizeSubset(r.Keys, m.Keys);
  }

  /** Strictly increasing, and nothing above the limit. */
  ghost predicate Increasing(s: seq<Generation>, limit: Option<Generation>) {
    && (forall i, j | 0 <= i < j < |s| :: s[i] < s[j])
    && forall g | g in s :: limit.Some? && g <= limit.value
  }

  /** Never decreasing, and nothing above the limit. */
  ghost predicate InOrder(s: seq<Callback>, limit: Option<Generation>) {
    && (forall i, j | 0 <= i < j < |s| :: s[i].generation <= s[j].generation)
    && forall c | c in s :: limit.Some? && c.generation <= limit.value
  }

  /** The confirmations that a table stands for when nothing else is known of it. */
  ghost function Sessions(m: Table): set<Confirmation> {
    set g | g in m && m[g].session.Some? :: Confirmation(g, m[g].session.value, m[g].expiresAt)
  }

  /** The binding is what its generation was issued for or, once it has a session, what was confirmed for it since. */
  ghost predicate Stems(b: Binding, issued: Table, confirmed: set<Confirmation>) {
    && b.generation in issued
    && var origin := issued[b.generation];
    && b == origin.(session := b.session, expiresAt := b.expiresAt) && b.expiresAt <= origin.expiresAt
    && if b.session.None? then b == origin
       else Confirmation(b.generation, b.session.value, b.expiresAt) in confirmed
  }

  ghost predicate AllStem(m: Table, issued: Table, confirmed: set<Confirmation>) {
    forall g | g in m :: Stems(m[g], issued, confirmed)
  }

  /**
    The callback carries the account, the engine and the address its generation was issued for, and a session
    that was confirmed for it and had not expired.
  */
  ghost predicate Entitled(c: Callback, issued: Table, confirmed: set<Confirmation>) {
    && c.generation in issued
    && var origin := issued[c.generation];
    && c.account == origin.account && c.engine == origin.engine && c.urlHash == origin.urlHash
    && exists until :: c.at < until <= origin.expiresAt && Confirmation(c.generation, c.session, until) in confirmed
  }

  /** Every binding on file and every callback stems from what was issued and confirmed. */
  ghost predicate Traced(
    latest: Option<Generation>, saved: Table, relayed: seq<Callback>, issued: Table, confirmed: set<Confirmation>)
  {
    && Below(issued, latest) && AllStem(saved, issued, confirmed)
    && forall c | c in relayed :: Entitled(c, issued, confirmed)
  }

  /** What a start makes of a file that a save wrote. */
  lemma StartHolds(f: Files, m: Table, now: int)
    requires Written(f.issued, m)
    ensures var started := Loaded(f.issued, now);
      var latest := Latest(started.1, f.notified);
      && Held(started.0, latest) && AtMost(f.notified, latest)
      && (Short(m) ==>
            started.0 == Remembered(m, Some(now)) && Short(started.0) && AtMost(FileLatest(f.issued), latest))
  {
    hide StringBytes, NumberBytes, Kept, LatestOf, ListBytes, Binding.Weight, Binding.WellFormed;
    if Short(m) {
      ShortTablesReload(f.issued, m, now);
    }
  }

  lemma TracedAtFirst(latest: Option<Generation>, m: Table)
    ensures Keyed(m) && Below(m, latest) ==> Traced(latest, m, [], m, Sessions(m))
  {
    forall g | g in m && m[g].session.Some? ensures Confirmation(g, m[g].session.value, m[g].expiresAt) in Sessions(m) {
    }
  }

  /** A later generation takes nothing from what stems from the earlier ones. */
  lemma TracedIssue(
    latest: Option<Generation>, saved: Table, relayed: seq<Callback>, issued: Table, confirmed: set<Confirmation>,
    kept: Table, b: Binding)
    requires Traced(latest, saved, relayed, issued, confirmed) && Submap(kept, saved)
    requires b.session.None? && (latest.Some? ==> latest.value < b.generation)
    ensures Traced(Some(b.generation), kept[b.generation := b], relayed, issued[b.generation := b], confirmed)
  {
  }

  /** A table with fewer bindings, under a later generation. */
  lemma TracedLess(
    latest: Option<Generation>, saved: Table, relayed: seq<Callback>, issued: Table, confirmed: set<Confirmation>,
    kept: Table, later: Option<Generation>)
    requires Traced(latest, saved, relayed, issued, confirmed) && Submap(kept, saved) && AtMost(latest, later)
    ensures Traced(later, kept, relayed, issued, confirmed)
  {
  }

  lemma ReboundStems(
    saved: Table, m: Table, b: Binding, a: Answer, superseded: Option<Generation>, issued: Table,
    confirmed: set<Confirmation>)
    requires AllStem(saved, issued, confirmed) && Submap(m, saved)
    requires Lookup(m, b.generation) == Some(b) && a.expiresAt <= b.expiresAt
    requires Confirmation(b.generation, a.session, a.expiresAt) in confirmed
    ensures AllStem(Rebound(m, b, a, superseded), issued, confirmed)
  {
  }

  /** A confirmation, and the table in which its binding is pinned. */
  lemma TracedConfirmation(
    latest: Option<Generation>, saved: Table, relayed: seq<Callback>, issued: Table, confirmed: set<Confirmation>,
    m: Table, b: Binding, a: Answer, superseded: Option<Generation>, later: Option<Generation>)
    requires Traced(latest, saved, relayed, issued, confirmed) && Submap(m, saved) && AtMost(latest, later)
    requires Lookup(m, b.generation) == Some(b) && a.expiresAt <= b.expiresAt
    ensures var more := confirmed + {Confirmation(b.generation, a.session, a.expiresAt)};
      && Traced(latest, saved, relayed, issued, more)
      && Traced(later, Rebound(m, b, a, superseded), relayed, issued, more)
  {
    var more := confirmed + {Confirmation(b.generation, a.session, a.expiresAt)};
    forall c | c in relayed ensures Entitled(c, issued, more) {
      var until :| c.at < until <= issued[c.generation].expiresAt
        && Confirmation(c.generation, c.session, until) in confirmed;
      assert Confirmation(c.generation, c.session, until) in more;
    }
    ReboundStems(saved, m, b, a, superseded, issued, more);
  }

  lemma TracedCallback(
    latest: Option<Generation>, saved: Table, relayed: seq<Callback>, issued: Table, confirmed: set<Confirmation>,
    g: Generation, session: string, at: int)
    requires Traced(latest, saved, relayed, issued, confirmed) && Keyed(saved)
    requires g in saved && saved[g].session == Some(session) && at < saved[g].expiresAt
    ensures Traced(latest, saved,
      relayed + [Callback(g, saved[g].urlHash, saved[g].account, saved[g].engine, session, at)], issued, confirmed)
  {
    assert Confirmation(g, session, saved[g].expiresAt) in confirmed;
  }

  lemma InOrderWith(s: seq<Callback>, limit: Option<Generation>, c: Callback)
    requires InOrder(s, limit) && AtMost(limit, Some(c.generation))
    ensures InOrder(s, Some(c.generation)) && InOrder(s + [c], Some(c.generation))
  {
    forall d | d in s + [c] ensures d.generation <= c.generation {
    }
    forall i | 0 <= i < |s| ensures s[i].generation <= c.generation {
      assert s[i] in s;
    }
  }

  /** What memory holds of the table on file: what the last load left of it, until a save makes both equal. */
  function Remembered(saved: Table, loaded: Option<int>): Table {
    if loaded.Some? then Unexpired(saved, loaded.value) else saved
  }

  /** What is left of the table in memory is left of the table on file. */
  lemma LessOnFile(saved: Table, loaded: Option<int>, less: Table)
    ensures Submap(Remembered(saved, loaded), saved)
    ensures Submap(less, Remembered(saved, loaded)) ==> Submap(less, saved)
  {
  }

  lemma LessIsHeld(less: Table, m: Table, latest: Option<Generation>)
    requires Submap(less, m) && |less| <= |m|
    ensures Short(m) ==> Short(less)
    ensures Held(m, latest) ==> Held(less, latest)
  {
    hide Binding.Fits;
  }

  lemma IncreasingUnder(s: seq<Generation>, a: Option<Generation>, b: Option<Generation>)
    requires Increasing(s, a) && AtMost(a, b)
    ensures Increasing(s, b)
  {
  }

  /**
    Memory and file then hold the same unexpired bindings at a time exactly if none of them
    expires after that time but not after the load.
  */
  lemma AgreementMeans(saved: Table, loaded: Option<int>, at: int)
    ensures Unexpired(Remembered(saved, loaded), at) == Unexpired(saved, at) <==>
      loaded.None? || forall g | g in saved :: !(at < saved[g].expiresAt <= loaded.value)
  {
    if loaded.Some? && exists g :: g in saved && at < saved[g].expiresAt <= loaded.value {
      var g :| g in saved && at < saved[g].expiresAt <= loaded.value;
      assert g in Unexpired(saved, at) && g !in Unexpired(Unexpired(saved, loaded.value), at);
    }
  }

  /**
    An input where they do not: a file with one binding that expires at 10, loaded at 20, and the clock set
    back to 5. The file has a live binding then, the process has none.
  */
  lemma ClockSetBack(b: Binding, f: Issued)
    requires b.generation == 7 && b.expiresAt == 10 && b.Fits() && f == Entries(Some(7), [b])
    ensures Written(f, map[7 := b]) && Loaded(f, 20) == (map[], Some(7))
    ensures Unexpired(Loaded(f, 20).0, 5) == map[] && Unexpired(map[7 := b], 5) == map[7 := b]
  {
    hide StringBytes, NumberBytes;
    var m := map[7 := b];
    assert m[7] in f.entries;
    ShortTablesReload(f, m, 20);
  }

  datatype Event =
    | Restarting(now: int)
    | Issuing(random: Generation, tail: nat, urlHash: nat, account: string, engine: string, workspace: Option<string>,
              expiresAt: int, now: int, fate: Fate)
    | Confirming(binding: Binding, answer: Option<Answer>, superseded: Option<Generation>, now: int, fate: Fate)
    | Releasing(which: Release, fate: Fate)
    | Relaying(urlHash: nat, allowed: bool, generation: Generation, account: string, path: Option<(string, string)>,
               now: int, fate: Fate)
  {
    /** The binding is what this event asked for. */
    ghost predicate Asks(b: Binding) {
      Issuing? && b == Binding(b.generation, urlHash, account, engine, expiresAt, None, workspace)
    }

    /** The confirmation is what the worker answered to this event. */
    ghost predicate Confirms(c: Confirmation) {
      Confirming? && answer.Some? && c == Confirmation(binding.generation, answer.value.session, answer.value.expiresAt)
    }

    /** The binding it makes, if it makes one, takes at most its share of the file. */
    predicate Fitting() {
      && (Issuing? ==> Binding(random, urlHash, account, engine, expiresAt, None, workspace).Fits())
      && (Confirming? && answer.Some? ==> Pinned(binding, answer.value).Weight() <= SHARE)
    }
  }

  class UserWorkerProxy {
    var files: Files
    var running: bool
    var table: Table
    var latestNotified: Option<Generation>
    var latestIssued: Option<Generation>
    /** The table the issued-state file lists. */
    ghost var saved: Table
    /** Generations handed to workers, and notifications passed on, over all restarts. */
    ghost var disclosed: seq<Generation>
    ghost var relayed: seq<Callback>
    /** What each generation on file was issued for, and every confirmation that reached the file. */
    ghost var issuedAs: Table
    ghost var confirmed: set<Confirmation>
    /** The clock when this process loaded the file, until it saves it. */
    ghost var loaded: Option<int>

    /** What holds of any process on any file that a save wrote. */
    ghost predicate Valid()
      reads this
    {
      && Written(files.issued, saved) && InOrder(relayed, files.notified)
      && (running ==>
            Held(table, latestIssued) && latestNotified == files.notified && AtMost(latestNotified, latestIssued))
    }

    /** Nothing disclosed is forgotten: not by the file, and not by the running process. */
    ghost predicate Faithful()
      reads this
    {
      && Increasing(disclosed, FileLatest(files.issued))
      && Traced(FileLatest(files.issued), saved, relayed, issuedAs, confirmed)
      && (running ==> AtMost(FileLatest(files.issued), latestIssued) && table == Remembered(saved, loaded))
    }

    /** First start, on no issued state, on a bare generation, or on a file that a save wrote. */
    constructor (f: Files, ghost m: Table, now: int)
      requires Written(f.issued, m)
      ensures Valid() && running && files == f && saved == m && disclosed == [] && relayed == []
      ensures issuedAs == m && confirmed == Sessions(m)
      ensures table == Loaded(f.issued, now).0 && latestNotified == f.notified
      ensures latestIssued == Latest(Loaded(f.issued, now).1, f.notified)
      ensures Short(m) ==> Faithful() && Short(table)
    {
      files, running, table, latestNotified := f, true, Loaded(f.issued, now).0, f.notified;
      latestIssued := Latest(Loaded(f.issued, now).1, f.notified);
      saved, disclosed, relayed, loaded := m, [], [], Some(now);
      issuedAs, confirmed := m, Sessions(m);
      new;
      StartHolds(f, m, now);
      TracedAtFirst(FileLatest(f.issued), m);
      hide Traced, Sessions, Loaded, Latest, Written, Held, Short, Remembered;
    }

    /** A restart, at any moment. The disclosed generations survive it if the file can be read whole. */
    method Restart(now: int)
      requires Valid()
      modifies this`running, this`table, this`latestNotified, this`latestIssued, this`loaded
      ensures Valid() && running && loaded == Some(now)
      ensures table == Loaded(files.issued, now).0 && latestNotified == files.notified
      ensures latestIssued == Latest(Loaded(files.issued, now).1, files.notified)
      ensures old(Faithful()) && Short(saved) ==> Faithful() && Short(table) && table == Unexpired(saved, now)
    {
      StartHolds(files, saved, now);
      hide Traced, Loaded, Latest, Written, Held, Short, InOrder, Increasing;
      running, table, latestNotified := true, Loaded(files.issued, now).0, files.notified;
      latestIssued := Latest(Loaded(files.issued, now).1, files.notified);
      loaded := Some(now);
    }

    /** The values of the table, in some order. */
    method Values(m: Table) returns (entries: seq<Binding>)
      requires Keyed(m)
      ensures Lists(entries, m)
    {
      entries := [];
      var left := m;
      while |left| > 0
        invariant Keyed(left) && Submap(left, m) && |entries| + |left| == |m|
        invariant forall b | b in entries :: b.generation in m && m[b.generation] == b
        invariant forall g | g in m :: g in left || m[g] in entries
        decreases |left|
      {
        var g :| g in left;
        entries := entries + [left[g]];
        left := left - {g};
      }
    }

    /** Replace the issued-state file. `false` is an exception, or the end of the process. */
    method SaveIssued(latest: Option<Generation>, fate: Fate) returns (ok: bool)
      requires running && Keyed(table) && |table| <= MAX_BINDINGS
      modifies this`files, this`running, this`saved, this`loaded
      ensures ok == fate.Saves? && running == (fate.Saves? || fate.Fails?)
      ensures if fate.Saves? || fate.DiesAfter? then
          && files.notified == old(files).notified && saved == table && loaded == None
          && files.issued.Entries? && files.issued.latest == latest && Lists(files.issued.entries, table)
          && (Below(table, latest) ==> Written(files.issued, saved))
        else files == old(files) && saved == old(saved) && loaded == old(loaded)
    {
      var entries := Values(table);
      if fate.Saves? || fate.DiesAfter? {
        files := files.(issued := Entries(latest, LastOnes(entries)));
        saved, loaded := table, None;
      }
      running := fate.Saves? || fate.Fails?;
      ok := fate.Saves?;
    }

    /** Issue a generation: durable before it is disclosed, and later than every one before it. */
    method Issue(
      random: Generation, tail: nat, urlHash: nat, account: string, engine: string, workspace: Option<string>,
      expiresAt: int, now: int, fate: Fate)
      returns (r: Issue)
      requires Valid() && running && tail < TAILS
      modifies this
      ensures Valid() && (old(Faithful()) ==> Faithful())
      ensures relayed == old(relayed) && files.notified == old(files).notified
      ensures r.Granted? <==>
        && fate.Saves? && |Unexpired(old(table), now)| < MAX_BINDINGS
        && Following(old(latestIssued), random, tail).Some?
      ensures r.Granted? ==>
        && running && disclosed == old(disclosed) + [r.binding.generation]
        && Some(r.binding.generation) == Following(old(latestIssued), random, tail)
        && Some(r.binding.generation) == latestIssued == FileLatest(files.issued)
        && r.binding == Binding(r.binding.generation, urlHash, account, engine, expiresAt, None, workspace)
        && table == saved == Unexpired(old(table), now)[r.binding.generation := r.binding]
        && issuedAs == old(issuedAs)[r.binding.generation := r.binding]
      ensures confirmed == old(confirmed)
      ensures issuedAs == old(issuedAs) || (
        && fate != Fails && Following(old(latestIssued), random, tail).Some?
        && var g := Following(old(latestIssued), random, tail).value;
        issuedAs == old(issuedAs)[g := Binding(g, urlHash, account, engine, expiresAt, None, workspace)])
      ensures r.Refused? ==> disclosed == old(disclosed) && latestIssued == old(latestIssued) && table == old(table)
      ensures r.Refused? && running ==> files == old(files) && saved == old(saved) && loaded == old(loaded)
      ensures old(Short(table) && Short(saved)) ==>
        Binding(random, urlHash, account, engine, expiresAt, None, workspace).Fits() ==> Short(table) && Short(saved)
    {
      hide Written, Held, InOrder, Increasing, StringBytes, NumberBytes, Remembered, Timestamp;
      var g := Following(latestIssued, random, tail);
      if g.None? {
        return Refused;
      }
      var binding := Binding(g.value, urlHash, account, engine, expiresAt, None, workspace);
      var granted := Grant(binding, now, fate);
      return if granted then Granted(binding) else Refused;
    }

    /** Enter a binding into the table and the file; a full table or a failed save refuses it. */
    method Grant(b: Binding, now: int, fate: Fate) returns (granted: bool)
      requires Valid() && running && (latestIssued.Some? ==> latestIssued.value < b.generation) && b.session.None?
      modifies this
      ensures Valid() && (old(Faithful()) ==> Faithful())
      ensures relayed == old(relayed) && files.notified == old(files).notified
      ensures granted <==> fate.Saves? && |Unexpired(old(table), now)| < MAX_BINDINGS
      ensures granted ==>
        && running && disclosed == old(disclosed) + [b.generation]
        && latestIssued == Some(b.generation) == FileLatest(files.issued)
        && table == saved == Unexpired(old(table), now)[b.generation := b]
        && issuedAs == old(issuedAs)[b.generation := b]
      ensures confirmed == old(confirmed)
      ensures issuedAs == old(issuedAs) || (fate != Fails && issuedAs == old(issuedAs)[b.generation := b])
      ensures !granted ==> disclosed == old(disclosed) && latestIssued == old(latestIssued) && table == old(table)
      ensures !granted && running ==> files == old(files) && saved == old(saved) && loaded == old(loaded)
      ensures saved == old(saved) || saved == Unexpired(old(table), now)[b.generation := b]
    {
      hide StringBytes, NumberBytes, Timestamp, InOrder, Increasing, Traced, Written, Submap, Lists, Latest, Remembered;
      var previous := table;
      var pruned := Unexpired(table, now);
      if |pruned| >= MAX_BINDINGS {
        FullTablePrunesNothing(table, now);
        table := pruned;
        return false;
      }
      InsertKeeps(table, b, now, latestIssued);
      UnexpiredLess(table, now);
      LessOnFile(saved, loaded, pruned);
      if Faithful() {
        Append(disclosed, FileLatest(files.issued), b.generation);
        TracedIssue(FileLatest(files.issued), saved, relayed, issuedAs, confirmed, pruned, b);
      }
      granted := Enter(b, pruned[b.generation := b], fate);
    }

    /** Make the table with a new binding durable, and only then disclose its generation. */
    method Enter(b: Binding, m: Table, fate: Fate) returns (entered: bool)
      requires Valid() && running && (latestIssued.Some? ==> latestIssued.value < b.generation)
      requires Held(m, Some(b.generation))
      requires Faithful() ==>
        && Increasing(disclosed, Some(b.generation)) && Increasing(disclosed + [b.generation], Some(b.generation))
        && Traced(Some(b.generation), m, relayed, issuedAs[b.generation := b], confirmed)
      modifies this
      ensures Valid() && (old(Faithful()) ==> Faithful())
      ensures relayed == old(relayed) && files.notified == old(files).notified && confirmed == old(confirmed)
      ensures entered <==> fate.Saves?
      ensures entered ==>
        && running && disclosed == old(disclosed) + [b.generation]
        && latestIssued == Some(b.generation) == FileLatest(files.issued) && table == saved == m
      ensures !entered ==> disclosed == old(disclosed) && latestIssued == old(latestIssued) && table == old(table)
      ensures !entered && running ==> files == old(files) && saved == old(saved) && loaded == old(loaded)
      ensures saved == old(saved) || saved == m
      ensures issuedAs == if fate.Saves? || fate.DiesAfter? then old(issuedAs)[b.generation := b] else old(issuedAs)
    {
      hide StringBytes, NumberBytes, Timestamp, InOrder, Increasing, Traced, Written, Keyed, Below, Lists, Unexpired;
      var previous := table;
      table := m;
      entered := SaveIssued(Some(b.generation), fate);
      if fate.Saves? || fate.DiesAfter? {
        issuedAs := issuedAs[b.generation := b];
      }
      if !entered {
        table := previous;
        return;
      }
      latestIssued := Some(b.generation);
      disclosed := disclosed + [b.generation];
    }

    /** Make another table durable, and go back to the old one if that fails. `more` is what was confirmed for it. */
    method Replace(m: Table, ghost more: set<Confirmation>, fate: Fate) returns (ok: bool)
      requires Valid() && running && Held(m, latestIssued)
      requires Faithful() ==> Traced(latestIssued, m, relayed, issuedAs, confirmed + more)
      modifies this`table, this`files, this`saved, this`running, this`loaded, this`confirmed
      ensures Valid() && (old(Faithful()) ==> Faithful()) && files.notified == old(files).notified
      ensures ok == fate.Saves? && (ok ==> running && table == saved == m)
      ensures !ok && running ==>
        table == old(table) && files == old(files) && saved == old(saved) && loaded == old(loaded)
      ensures (table == m || table == old(table)) && (saved == m || saved == old(saved))
      ensures confirmed == if fate.Saves? || fate.DiesAfter? then old(confirmed) + more else old(confirmed)
    {
      if Faithful() {
        IncreasingUnder(disclosed, FileLatest(files.issued), latestIssued);
      }
      assert Keyed(m) && |m| <= MAX_BINDINGS && Below(m, latestIssued);
      hide Traced, InOrder, Remembered, Increasing, Lists, Unexpired, Written, Keyed, Below, Held, Short;
      var previous := table;
      table := m;
      ok := SaveIssued(latestIssued, fate);
      if fate.Saves? || fate.DiesAfter? {
        confirmed := confirmed + more;
      }
      if !ok {
        table := previous;
      }
    }

    /** Pin a generation to the session the worker made for it, and give up the one it replaces. */
    method Bind(binding: Binding, answer: Option<Answer>, superseded: Option<Generation>, now: int, fate: Fate)
      returns (bound: bool)
      requires Valid() && running
      modifies this
      ensures Valid() && (old(Faithful()) ==> Faithful())
      ensures relayed == old(relayed) && disclosed == old(disclosed) && latestIssued == old(latestIssued)
      ensures files.notified == old(files).notified && issuedAs == old(issuedAs)
      ensures bound <==>
        && fate.Saves? && Lookup(old(table), binding.generation) == Some(binding)
        && answer.Some? && 0 < |answer.value.session| <= 256 && '/' !in answer.value.session
        && now < answer.value.expiresAt <= binding.expiresAt
      ensures bound ==> running && table == saved && Pins(old(table), table, binding, answer.value, superseded)
      ensures !bound && running ==> table == old(table) && files == old(files) && saved == old(saved)
      ensures confirmed == old(confirmed) || (
        && fate != Fails && answer.Some?
        && confirmed ==
             old(confirmed) + {Confirmation(binding.generation, answer.value.session, answer.value.expiresAt)})
      ensures bound ==> Confirmation(binding.generation, answer.value.session, answer.value.expiresAt) in confirmed
      ensures old(Short(table) && Short(saved)) && (answer.Some? ==> Pinned(binding, answer.value).Weight() <= SHARE)
        ==> Short(table) && Short(saved)
    {
      hide Increasing, InOrder, Written, Remembered, Kept, LatestOf, Latest, Below, StringBytes, NumberBytes;
      if !Bindable(table, binding, answer, now) {
        return false;
      }
      var rebound := Rebound(table, binding, answer.value, superseded);
      RebindKeeps(table, binding, answer.value, superseded, latestIssued);
      ReboundPins(table, binding, answer.value, superseded);
      if Faithful() {
        LessOnFile(saved, loaded, table);
        TracedConfirmation(FileLatest(files.issued), saved, relayed, issuedAs, confirmed,
          table, binding, answer.value, superseded, latestIssued);
      }
      hide Rebound, Traced, Pins, Short, Binding.Weight, Valid, Faithful;
      ghost var more := {Confirmation(binding.generation, answer.value.session, answer.value.expiresAt)};
      bound := Replace(rebound, more, fate);
    }

    /** Give up bindings, durably or not at all. */
    method ReleaseBindings(which: Release, fate: Fate) returns (ok: bool)
      requires Valid() && running
      modifies this
      ensures Valid() && (old(Faithful()) ==> Faithful())
      ensures relayed == old(relayed) && disclosed == old(disclosed) && latestIssued == old(latestIssued)
      ensures files.notified == old(files).notified
      ensures issuedAs == old(issuedAs) && confirmed == old(confirmed)
      ensures ok <==> fate.Saves? || forall g | g in old(table) :: !GivenUp(old(table)[g], which)
      ensures ok ==> Spares(old(table), table, which) && (table == saved || table == old(table))
      ensures running && (!ok || forall g | g in old(table) :: !GivenUp(old(table)[g], which)) ==>
        table == old(table) && files == old(files) && saved == old(saved)
      ensures old(Short(table) && Short(saved)) ==> Short(table) && Short(saved)
    {
      hide Traced, Increasing, InOrder, Written, Remembered, Held, Short, Spares, GivenUp, Release.Covers, Without;
      hide Submap, Keyed, Below, Unexpired, Latest;
      var kept := Without(table, which);
      WithoutSpares(table, which);
      LessIsHeld(kept, table, latestIssued);
      LessOnFile(saved, loaded, kept);
      if Faithful() {
        TracedLess(FileLatest(files.issued), saved, relayed, issuedAs, confirmed, kept, latestIssued);
      }
      hide Valid, Faithful;
      if kept == table {
        return true;
      }
      assert confirmed + {} == confirmed;
      ok := Replace(kept, {}, fate);
    }

    /** Put a generation on file as notified, unless a later one is. `false` is a stale one, or a failed save. */
    method Notify(generation: Generation, fate: Fate) returns (done: bool)
      requires Valid() && running && AtMost(Some(generation), latestIssued)
      modifies this`files, this`running, this`latestNotified
      ensures Valid() && (old(Faithful()) ==> Faithful()) && files.issued == old(files).issued
      ensures done <==>
        AtMost(old(latestNotified), Some(generation)) && (fate.Saves? || old(latestNotified) == Some(generation))
      ensures done ==> running && files.notified == Some(generation) == latestNotified
      ensures !done && running ==> files == old(files) && latestNotified == old(latestNotified)
    {
      hide Traced, Increasing, Written, Lists, Latest, InOrder, Remembered, Held, StringBytes, NumberBytes;
      if latestNotified.Some? && generation < latestNotified.value {
        return false;
      }
      InOrderWith(relayed, latestNotified, Callback(generation, 0, "", "", "", 0));
      if latestNotified.None? || generation > latestNotified.value {
        if fate.Saves? || fate.DiesAfter? {
          files := files.(notified := Some(generation));
        }
        if !fate.Saves? {
          running := fate.Fails?;
          return false;
        }
        latestNotified := Some(generation);
      }
      return true;
    }

    /**
      Pass a notification on: only for a live binding that matches it in every respect, only if it is not
      older than the last one, and only once the file says so.
    */
    method Relay(
      urlHash: nat, allowed: bool, generation: Generation, account: string, path: Option<(string, string)>,
      now: int, fate: Fate)
      returns (called: bool)
      requires Valid() && running
      modifies this
      ensures Valid() && (old(Faithful()) ==> Faithful())
      ensures disclosed == old(disclosed) && latestIssued == old(latestIssued)
      ensures table == old(table) && saved == old(saved)
      ensures files.issued == old(files).issued
      ensures issuedAs == old(issuedAs) && confirmed == old(confirmed)
      ensures called <==>
        && allowed && path.Some? && generation in old(table)
        && var b := old(table)[generation];
        && b.account == account && b.engine == path.value.0 && b.session == Some(path.value.1)
        && b.urlHash == urlHash && now < b.expiresAt
        && AtMost(old(latestNotified), Some(generation)) && (fate.Saves? || old(latestNotified) == Some(generation))
      ensures called ==> files.notified == Some(generation) == latestNotified && AtMost(Some(generation), latestIssued)
      ensures called ==>
        relayed == old(relayed) + [Callback(generation, urlHash, account, path.value.0, path.value.1, now)]
      ensures !called ==>
        relayed == old(relayed) && (running ==> files == old(files) && latestNotified == old(latestNotified))
    {
      assert Keyed(saved) && (table == Remembered(saved, loaded) ==> Submap(table, saved));
      hide Traced, Increasing, Written, Lists, Latest, InOrder, Remembered, Keyed, StringBytes, NumberBytes;
      if path.None? || !Matches(table, generation, urlHash, account, path.value.0, path.value.1, now) || !allowed {
        return false;
      }
      called := Notify(generation, fate);
      if called {
        var callback := Callback(generation, urlHash, account, path.value.0, path.value.1, now);
        InOrderWith(relayed, latestNotified, callback);
        if Faithful() {
          TracedCallback(
            FileLatest(files.issued), saved, relayed, issuedAs, confirmed, generation, path.value.1, now);
        }
        relayed := relayed + [callback];
      }
    }

    /** One thing that happens to the gateway. */
    method Step(e: Event)
      requires Valid() && Faithful() && Short(table) && Short(saved) && e.Fitting()
      modifies this
      ensures Valid() && Faithful() && Short(table) && Short(saved)
      ensures old(disclosed) <= disclosed && old(relayed) <= relayed
      ensures issuedAs == old(issuedAs)
        || exists b :: e.Asks(b) && b.generation !in old(issuedAs) && issuedAs == old(issuedAs)[b.generation := b]
      ensures confirmed == old(confirmed) || exists c :: e.Confirms(c) && confirmed == old(confirmed) + {c}
    {
      match e
      case Restarting(now) =>
        Restart(now);
      case Issuing(random, tail, urlHash, account, engine, workspace, expiresAt, now, fate) =>
        if running && tail < TAILS {
          var r := Issue(random, tail, urlHash, account, engine, workspace, expiresAt, now, fate);
        }
      case Confirming(binding, answer, superseded, now, fate) =>
        if running {
          var bound := Bind(binding, answer, superseded, now, fate);
        }
      case Releasing(which, fate) =>
        if running {
          var ok := ReleaseBindings(which, fate);
        }
      case Relaying(urlHash, allowed, generation, account, path, now, fate) =>
        if running {
          var called := Relay(urlHash, allowed, generation, account, path, now, fate);
        }
    }

    /** One event after the other. */
    method Live(events: seq<Event>)
      requires Valid() && Faithful() && Short(table) && Short(saved) && forall e | e in events :: e.Fitting()
      modifies this
      ensures Valid() && Faithful() && old(disclosed) <= disclosed && old(relayed) <= relayed
      ensures Submap(old(issuedAs), issuedAs) && old(confirmed) <= confirmed
      ensures forall g | g in issuedAs && g !in old(issuedAs) :: exists e :: e in events && e.Asks(issuedAs[g])
      ensures forall c | c in confirmed && c !in old(confirmed) :: exists e :: e in events && e.Confirms(c)
    {
      hide Valid, Faithful, Short, Event.Fitting, Event.Asks, Event.Confirms;
      var i := 0;
      while i < |events|
        invariant i <= |events| && Valid() && Faithful() && Short(table) && Short(saved)
        invariant old(disclosed) <= disclosed && old(relayed) <= relayed
        invariant Submap(old(issuedAs), issuedAs) && old(confirmed) <= confirmed
        invariant forall g | g in issuedAs && g !in old(issuedAs) :: exists e :: e in events && e.Asks(issuedAs[g])
        invariant forall c | c in confirmed && c !in old(confirmed) :: exists e :: e in events && e.Confirms(c)
      {
        assert events[i] in events;
        Step(events[i]);
        i := i + 1;
      }
    }

    /**
      Any run, with restarts, clocks going either way, failing saves and deaths around them: disclosed
      generations strictly increase and are on file, relayed ones never decrease, are on file and never
      pass the issued ones. Every notification passed on carries the account, the engine and the address that
      its generation was issued for and a session that was confirmed for it, before that expired; and what was
      issued and confirmed is what the events asked for and answered, each generation once. Memory is the
      table on file, or what the last load left of it if nothing was saved since, and so the two agree at a
      time exactly if no binding expires between that time and the load.
    */
    method Run(events: seq<Event>)
      requires Valid() && Faithful() && Short(table) && Short(saved) && forall e | e in events :: e.Fitting()
      modifies this
      ensures Increasing(disclosed, FileLatest(files.issued)) && old(disclosed) <= disclosed
      ensures InOrder(relayed, files.notified) && old(relayed) <= relayed
      ensures forall c | c in relayed :: Entitled(c, issuedAs, confirmed)
      ensures Submap(old(issuedAs), issuedAs) && old(confirmed) <= confirmed
      ensures forall g | g in issuedAs && g !in old(issuedAs) :: exists e :: e in events && e.Asks(issuedAs[g])
      ensures forall c | c in confirmed && c !in old(confirmed) :: exists e :: e in events && e.Confirms(c)
      ensures running ==>
        && |table| <= MAX_BINDINGS && AtMost(latestNotified, latestIssued)
        && table == Remembered(saved, loaded)
        && forall at :: Unexpired(table, at) == Unexpired(saved, at) <==>
             loaded.None? || forall g | g in saved :: !(at < saved[g].expiresAt <= loaded.value)
    {
      Live(events);
      if running {
        forall at {
          AgreementMeans(saved, loaded, at);
        }
      }
    }
  }
}
