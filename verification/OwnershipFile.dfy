/**
  The ownership file as a validating decoder. Whatever the file holds, loading answers with records that
  could have been saved; and what the engine saves is what it loads again, except where it cannot be.
*/
module OwnershipFile {
  import opened Options
  import opened Paths

  /**
    A parsed JSON value. An object read by its member names is `Obj`, one read as a dictionary is `Dict`;
    which members an object has is given by position, as they are all known.
  */
  datatype Json =
    | Null | Bool(b: bool) | Num | Str(s: string)
    | Arr(items: seq<Json>) | Dict(entries: map<string, Json>) | Obj(fields: Fields)

  datatype Fields = Fields(
    sha256: Option<Json>, source: Option<Json>, files: Option<Json>, directories: Option<Json>,
    fileHashes: Option<Json>, installedAt: Option<Json>, kind: Option<Json>, gitRef: Option<Json>, rev: Option<Json>,
    path: Option<Json>, target: Option<Json>, dev: Option<Json>, ino: Option<Json>, name: Option<Json>,
    installedKey: Option<Json>, installRoot: Option<Json>, recoveryIdentity: Option<Json>,
    skillLinks: Option<Json>, publication: Option<Json>, uncommitted: Option<Json>, candidateIdentity: Option<Json>,
    configCandidate: Option<Json>, installMarker: Option<Json>, rejectionRecoveryId: Option<Json>,
    removalRecoveryId: Option<Json>, pending: Option<Json>, migration: Option<Json>)

  const NO_FIELDS := Fields(
    None, None, None, None, None, None, None, None, None, None, None, None, None, None,
    None, None, None, None, None, None, None, None, None, None, None, None, None)

  datatype Source = Source(gitRef: string, rev: string, path: Option<string>)

  datatype Snapshot = Snapshot(
    sha256: string, source: Option<Source>, files: seq<string>, directories: Option<seq<string>>,
    fileHashes: Option<map<string, string>>, installedAt: string)

  datatype Identity = Identity(dev: string, ino: string)
  datatype Link = Link(path: string, target: string, id: Identity)
  datatype Publication = Publication(path: string, target: string)
  datatype ConfigCandidate = ConfigCandidate(name: string, id: Identity)
  datatype Migration = Migration(installedKey: string, installRoot: string, recovery: Identity)

  datatype Record = Record(
    stable: Snapshot, installRoot: Option<string>, skillLinks: Option<seq<Link>>, publication: Option<Publication>,
    uncommitted: bool, candidateIdentity: Option<Identity>, configCandidate: Option<ConfigCandidate>,
    installMarker: Option<string>, rejectionRecoveryId: Option<string>, removalRecoveryId: Option<string>,
    pending: Option<Snapshot>, migration: Option<Migration>)

  /** Validators that only answer yes or no: of dates, of git revisions, and of paths in a git tree. */
  datatype Checks = Checks(date: string -> bool, revision: string -> bool, gitPath: string -> bool)

  function LowerChar(c: char): char { if 'A' <= c <= 'Z' then c - 'A' + 'a' else c }

  /** `toLowerCase` of ASCII text. */
  function Lower(s: string): (r: string)
    ensures |r| == |s| && forall i | 0 <= i < |s| :: r[i] == LowerChar(s[i])
  {
    if s == "" then "" else [LowerChar(s[0])] + Lower(s[1..])
  }

  predicate HexChar(c: char) { '0' <= c <= '9' || 'a' <= c <= 'f' }

  predicate Hex(s: string) { forall i | 0 <= i < |s| :: HexChar(s[i]) }

  predicate AnyCaseHex(s: string) { forall i | 0 <= i < |s| :: HexChar(s[i]) || 'A' <= s[i] <= 'F' }

  predicate IsHash(s: string) { |s| == 64 && AnyCaseHex(s) }

  predicate IsObjectId(s: string) { (|s| == 40 || |s| == 64) && AnyCaseHex(s) }

  predicate IsRandomId(s: string) { |s| == 32 && Hex(s) }

  predicate IsFilesystemId(s: string) {
    s == "0" || (s != "" && '1' <= s[0] <= '9' && forall i | 0 <= i < |s| :: '0' <= s[i] <= '9')
  }

  const CANDIDATE_PREFIX := ".provision-config-candidate-"

  predicate IsCandidateName(s: string) { CANDIDATE_PREFIX <= s && IsRandomId(s[|CANDIDATE_PREFIX|..]) }

  predicate NameStart(c: char) { '0' <= c <= '9' || 'a' <= c <= 'z' || 'A' <= c <= 'Z' }

  predicate IsName(s: string) {
    1 <= |s| <= 64 && NameStart(s[0]) && forall i | 0 <= i < |s| :: NameStart(s[i]) || s[i] == '_' || s[i] == '-'
  }

  predicate IsKey(key: string) { |Split(key)| == 2 && IsName(Split(key)[0]) && IsName(Split(key)[1]) }

  /** The part of a key after its slash. */
  function NameOf(key: string): string
    requires IsKey(key)
  {
    Split(key)[1]
  }

  predicate IsSkill(key: string)
    requires IsKey(key)
  {
    Lower(Split(key)[0]) == "skill"
  }

  /** A relative path fit to be recorded. */
  predicate IsManagedPath(s: string) {
    0 < |s| <= 1024 && '\0' !in s && !Absolute(s) && forall i | 0 <= i < |Split(s)| :: Proper(Split(s)[i])
  }

  predicate ManagedPaths(files: seq<string>) {
    (forall i | 0 <= i < |files| :: IsManagedPath(files[i])) && Distinct(files)
  }

  predicate Distinct<T(==)>(s: seq<T>) { forall i, j | 0 <= i < j < |s| :: s[i] != s[j] }

  function Text(j: Option<Json>): Option<string> {
    if j.Some? && j.value.Str? then Some(j.value.s) else None
  }

  /** Text that passes a check, or nothing. */
  function Passing(j: Option<Json>, check: string -> bool): Option<string> {
    if Text(j).Some? && check(Text(j).value) then Text(j) else None
  }

  function Texts(items: seq<Json>): Option<seq<string>> {
    if items == [] then Some([])
    else if !items[0].Str? || Texts(items[1..]).None? then None
    else Some([items[0].s] + Texts(items[1..]).value)
  }

  function TextList(j: Json): Option<seq<string>> { if j.Arr? then Texts(j.items) else None }

  function Strs(list: seq<string>): seq<Json> {
    if list == [] then [] else [Str(list[0])] + Strs(list[1..])
  }

  lemma {:induction false} TextsOfStrs(list: seq<string>)
    ensures Texts(Strs(list)) == Some(list)
  {
    if list != [] {
      TextsOfStrs(list[1..]);
      assert Strs(list)[1..] == Strs(list[1..]) && [list[0]] + list[1..] == list;
    }
  }

  /** File hashes: one for each recorded file, by its name. They keep their spelling. */
  function DecodeHashes(files: seq<string>, j: Json): Option<map<string, string>> {
    if !j.Dict? || |j.entries| != |files| then None
    else if exists file | file in j.entries ::
      file !in files || !j.entries[file].Str? || !IsHash(j.entries[file].s)
    then None
    else Some(map file | file in j.entries :: j.entries[file].s)
  }

  function EncodeHashes(hashes: map<string, string>): Json { Dict(map file | file in hashes :: Str(hashes[file])) }

  /** Git metadata is kept if it is wholly valid; a missing ref is the revision itself. */
  function DecodeSource(c: Checks, j: Option<Json>): Option<Source> {
    if j.None? || !j.value.Obj? then None else
      var f := j.value.fields;
      var gitRef := Passing(if f.gitRef.Some? && !f.gitRef.value.Null? then f.gitRef else f.rev, c.revision);
      var rev := Passing(f.rev, IsObjectId);
      if f.kind != Some(Str("git")) || gitRef.None? || rev.None? then None
      else if f.path.Some? && Passing(f.path, c.gitPath).None? then None
      else Some(Source(gitRef.value, Lower(rev.value), Text(f.path)))
  }

  function EncodeSource(s: Source): Json {
    Obj(NO_FIELDS.(
      kind := Some(Str("git")), gitRef := Some(Str(s.gitRef)), rev := Some(Str(s.rev)), path := OptText(s.path)))
  }

  function OptText(s: Option<string>): Option<Json> { if s.Some? then Some(Str(s.value)) else None }

  function DecodeSnapshot(c: Checks, j: Json): Option<Snapshot> {
    if !j.Obj? then None else
      var f := j.fields;
      var sha, at := Passing(f.sha256, IsHash), Passing(f.installedAt, c.date);
      var files := if f.files.Some? then TextList(f.files.value) else None;
      if sha.None? || at.None? || files.None? || files.value == [] || !ManagedPaths(files.value) then None
      else if f.directories.Some? && TextList(f.directories.value).None? then None
      else if f.directories.Some? && !ManagedPaths(TextList(f.directories.value).value) then None
      else if f.fileHashes.Some? && DecodeHashes(files.value, f.fileHashes.value).None? then None
      else Some(Snapshot(Lower(sha.value), DecodeSource(c, f.source), files.value,
                         if f.directories.Some? then TextList(f.directories.value) else None,
                         if f.fileHashes.Some? then DecodeHashes(files.value, f.fileHashes.value) else None, at.value))
  }

  function SnapshotFields(s: Snapshot): Fields {
    NO_FIELDS.(
      sha256 := Some(Str(s.sha256)), files := Some(Arr(Strs(s.files))), installedAt := Some(Str(s.installedAt)),
      source := if s.source.Some? then Some(EncodeSource(s.source.value)) else None,
      directories := if s.directories.Some? then Some(Arr(Strs(s.directories.value))) else None,
      fileHashes := if s.fileHashes.Some? then Some(EncodeHashes(s.fileHashes.value)) else None)
  }

  /** What every audited installation records, and every decoded snapshot is. */
  ghost predicate SourceFits(c: Checks, s: Source) {
    c.revision(s.gitRef) && IsObjectId(s.rev) && Lower(s.rev) == s.rev && (s.path.Some? ==> c.gitPath(s.path.value))
  }

  ghost predicate SnapshotFits(c: Checks, s: Snapshot) {
    && IsHash(s.sha256) && Lower(s.sha256) == s.sha256 && c.date(s.installedAt)
    && s.files != [] && ManagedPaths(s.files) && (s.directories.Some? ==> ManagedPaths(s.directories.value))
    && (s.source.Some? ==> SourceFits(c, s.source.value))
    && (s.fileHashes.Some? ==>
          && |s.fileHashes.value| == |s.files|
          && forall file | file in s.fileHashes.value :: file in s.files && IsHash(s.fileHashes.value[file]))
  }

  lemma LowerTwice(s: string)
    ensures Lower(Lower(s)) == Lower(s)
  {
  }

  lemma HashesRoundTrip(files: seq<string>, hashes: map<string, string>)
    requires |hashes| == |files| && forall file | file in hashes :: file in files && IsHash(hashes[file])
    ensures DecodeHashes(files, EncodeHashes(hashes)) == Some(hashes)
  {
    var entries := EncodeHashes(hashes).entries;
    assert entries.Keys == hashes.Keys;
    assert |entries| == |entries.Keys| == |hashes.Keys| == |hashes|;
    assert (map file | file in entries :: entries[file].s) == hashes;
  }

  /** The members of the object are those of the snapshot, among others. */
  ghost predicate Carries(f: Fields, s: Snapshot) {
    var g := SnapshotFields(s);
    && f.sha256 == g.sha256 && f.files == g.files && f.installedAt == g.installedAt
    && f.source == g.source && f.directories == g.directories && f.fileHashes == g.fileHashes
  }

  lemma SourceRoundTrip(c: Checks, s: Source)
    requires SourceFits(c, s)
    ensures DecodeSource(c, Some(EncodeSource(s))) == Some(s)
  {
    hide IsObjectId;
  }

  /** A fitting snapshot survives saving and loading. */
  lemma SnapshotRoundTrip(c: Checks, s: Snapshot, f: Fields)
    requires SnapshotFits(c, s) && Carries(f, s)
    ensures DecodeSnapshot(c, Obj(f)) == Some(s)
  {
    TextsOfStrs(s.files);
    if s.directories.Some? {
      TextsOfStrs(s.directories.value);
    }
    if s.fileHashes.Some? {
      HashesRoundTrip(s.files, s.fileHashes.value);
    }
    if s.source.Some? {
      SourceRoundTrip(c, s.source.value);
    } else {
      NoSource(c);
    }
    hide ManagedPaths, IsHash, Lower, EncodeHashes, DecodeHashes, Texts, Strs, DecodeSource, EncodeSource, SourceFits;
  }

  lemma NoSource(c: Checks)
    ensures DecodeSource(c, None) == None
  {
  }

  lemma LowerHex(s: string)
    ensures Lower(Lower(s)) == Lower(s) && (IsHash(s) ==> IsHash(Lower(s))) && (IsObjectId(s) ==> IsObjectId(Lower(s)))
  {
    LowerTwice(s);
  }

  lemma DecodedSourceFits(c: Checks, j: Option<Json>)
    ensures DecodeSource(c, j).Some? ==> SourceFits(c, DecodeSource(c, j).value)
  {
    if DecodeSource(c, j).Some? {
      LowerHex(Text(j.value.fields.rev).value);
    }
    hide IsObjectId, Lower;
  }

  lemma DecodedHashesFit(files: seq<string>, j: Json)
    requires DecodeHashes(files, j).Some?
    ensures var hashes := DecodeHashes(files, j).value;
      |hashes| == |files| && forall file | file in hashes :: file in files && IsHash(hashes[file])
  {
    var hashes := DecodeHashes(files, j).value;
    assert hashes.Keys == j.entries.Keys;
    assert |hashes| == |hashes.Keys| == |j.entries.Keys| == |j.entries|;
  }

  /** A snapshot that was loaded fits. */
  lemma DecodedSnapshotFits(c: Checks, j: Json)
    requires DecodeSnapshot(c, j).Some?
    ensures SnapshotFits(c, DecodeSnapshot(c, j).value)
  {
    var s, f := DecodeSnapshot(c, j).value, j.fields;
    LowerHex(Text(f.sha256).value);
    DecodedSourceFits(c, f.source);
    if f.fileHashes.Some? {
      DecodedHashesFit(s.files, f.fileHashes.value);
    }
    hide IsHash, Lower, DecodeSource, SourceFits, DecodeHashes, ManagedPaths, Texts;
  }

  function DecodeIdentity(j: Option<Json>): Option<Identity> {
    if j.None? || !j.value.Obj? then None else
      var dev, ino := Passing(j.value.fields.dev, IsFilesystemId), Passing(j.value.fields.ino, IsFilesystemId);
      if dev.Some? && ino.Some? then Some(Identity(dev.value, ino.value)) else None
  }

  function IdentityFields(i: Identity): Fields { NO_FIELDS.(dev := Some(Str(i.dev)), ino := Some(Str(i.ino))) }

  predicate IdentityFits(i: Identity) { IsFilesystemId(i.dev) && IsFilesystemId(i.ino) }

  function DecodeConfigCandidate(j: Option<Json>): Option<ConfigCandidate> {
    if j.None? || !j.value.Obj? then None else
      var name, id := Passing(j.value.fields.name, IsCandidateName), DecodeIdentity(j);
      if name.Some? && id.Some? then Some(ConfigCandidate(name.value, id.value)) else None
  }

  function EncodeConfigCandidate(cc: ConfigCandidate): Json { Obj(IdentityFields(cc.id).(name := Some(Str(cc.name)))) }

  /** An absolute path whose last component is the item's name. */
  predicate Named(s: string, name: string) { Absolute(s) && Basename(s) == name }

  function DecodeEnds(f: Fields, name: string): Option<Publication> {
    var path, target := Text(f.path), Text(f.target);
    if path.Some? && target.Some? && Named(path.value, name) && Named(target.value, name)
    then Some(Publication(Normalize(path.value), Normalize(target.value))) else None
  }

  function DecodeLink(j: Json, name: string): Option<Link> {
    if !j.Obj? then None else
      var ends, id := DecodeEnds(j.fields, name), DecodeIdentity(Some(j));
      if ends.Some? && id.Some? then Some(Link(ends.value.path, ends.value.target, id.value)) else None
  }

  function DecodeLinks(items: seq<Json>, name: string): Option<seq<Link>> {
    if items == [] then Some([])
    else if DecodeLink(items[0], name).None? || DecodeLinks(items[1..], name).None? then None
    else Some([DecodeLink(items[0], name).value] + DecodeLinks(items[1..], name).value)
  }

  function PathsOf(links: seq<Link>): seq<string> {
    if links == [] then [] else [links[0].path] + PathsOf(links[1..])
  }

  /** All links, none if the list is missing, and a failure if one is malformed or two have one path. */
  function DecodeLinkList(j: Option<Json>, name: string): Option<seq<Link>> {
    if j.None? then Some([])
    else if !j.value.Arr? || DecodeLinks(j.value.items, name).None? then None
    else
      var links := DecodeLinks(j.value.items, name).value;
      if Distinct(PathsOf(links)) then Some(links) else None
  }

  function EncodeLink(l: Link): Json {
    Obj(IdentityFields(l.id).(path := Some(Str(l.path)), target := Some(Str(l.target))))
  }

  function EncodeLinks(links: seq<Link>): seq<Json> {
    if links == [] then [] else [EncodeLink(links[0])] + EncodeLinks(links[1..])
  }

  predicate EndsFit(path: string, target: string, name: string) {
    Named(path, name) && Named(target, name) && Normalize(path) == path && Normalize(target) == target
  }

  predicate LinksFit(links: seq<Link>, name: string) {
    && (forall i | 0 <= i < |links| :: EndsFit(links[i].path, links[i].target, name) && IdentityFits(links[i].id))
    && Distinct(PathsOf(links))
  }

  lemma LinkRoundTrip(l: Link, name: string)
    requires EndsFit(l.path, l.target, name) && IdentityFits(l.id)
    ensures DecodeLink(EncodeLink(l), name) == Some(l)
  {
    hide Normalize, Basename, IsFilesystemId, Absolute;
  }

  lemma {:induction false} LinksRoundTrip(links: seq<Link>, name: string)
    requires forall i | 0 <= i < |links| :: EndsFit(links[i].path, links[i].target, name) && IdentityFits(links[i].id)
    ensures DecodeLinks(EncodeLinks(links), name) == Some(links)
  {
    hide EndsFit, IdentityFits, DecodeLink, EncodeLink;
    if links != [] {
      LinkRoundTrip(links[0], name);
      LinksRoundTrip(links[1..], name);
      assert EncodeLinks(links)[1..] == EncodeLinks(links[1..]) && [links[0]] + links[1..] == links;
    }
  }

  lemma DecodedEndsFit(f: Fields, name: string)
    requires IsName(name) && DecodeEnds(f, name).Some?
    ensures EndsFit(DecodeEnds(f, name).value.path, DecodeEnds(f, name).value.target, name)
  {
    NamedNormalizes(Text(f.path).value, name);
    NamedNormalizes(Text(f.target).value, name);
  }

  lemma NamedNormalizes(s: string, name: string)
    requires IsName(name) && Named(s, name)
    ensures Named(Normalize(s), name) && Normalize(Normalize(s)) == Normalize(s)
  {
    NameIsProper(name);
    NormalizeKeepsBasename(s);
    NormalizeIsIdempotent(s);
  }

  lemma NameIsProper(name: string)
    requires IsName(name)
    ensures Proper(name)
  {
    assert name[0] != '.';
  }

  lemma {:induction false} DecodedLinksFit(items: seq<Json>, name: string)
    requires IsName(name) && DecodeLinks(items, name).Some?
    ensures var links := DecodeLinks(items, name).value;
      forall i | 0 <= i < |links| :: EndsFit(links[i].path, links[i].target, name) && IdentityFits(links[i].id)
  {
    if items != [] {
      DecodedLinksFit(items[1..], name);
      DecodedEndsFit(items[0].fields, name);
    }
  }

  function DecodePublication(j: Option<Json>, name: string): Option<Publication> {
    if j.Some? && j.value.Obj? then DecodeEnds(j.value.fields, name) else None
  }

  function EncodePublication(p: Publication): Json {
    Obj(NO_FIELDS.(path := Some(Str(p.path)), target := Some(Str(p.target))))
  }

  /** The other key of a migration is this one, up to letter case. */
  predicate SameSkill(other: string, key: string) {
    IsKey(other) && IsKey(key) && IsSkill(other) && Lower(other) == Lower(key)
  }

  function DecodeMigration(j: Option<Json>, key: string): Option<Migration> {
    if j.None? || !j.value.Obj? then None else
      var f := j.value.fields;
      var other, root, id := Text(f.installedKey), Text(f.installRoot), DecodeIdentity(f.recoveryIdentity);
      if other.Some? && SameSkill(other.value, key) && root.Some? && Absolute(root.value) && id.Some?
      then Some(Migration(other.value, Normalize(root.value), id.value)) else None
  }

  function EncodeMigration(m: Migration): Json {
    Obj(NO_FIELDS.(installedKey := Some(Str(m.installedKey)), installRoot := Some(Str(m.installRoot)),
                   recoveryIdentity := Some(Obj(IdentityFields(m.recovery)))))
  }

  predicate MigrationFits(m: Migration, key: string) {
    && SameSkill(m.installedKey, key) && IdentityFits(m.recovery)
    && Absolute(m.installRoot) && Normalize(m.installRoot) == m.installRoot
  }

  /** One entry of the ownership file. A malformed link, intent or migration drops the whole record. */
  function DecodeRecord(c: Checks, j: Json, key: string): Option<Record>
    requires IsKey(key)
  {
    var stable := DecodeSnapshot(c, j);
    if stable.None? then None else
      var f, name := j.fields, NameOf(key);
      var root := Passing(f.installRoot, Absolute);
      var links, publication := DecodeLinkList(f.skillLinks, name), DecodePublication(f.publication, name);
      var migration := DecodeMigration(f.migration, key);
      var pending := if f.pending.Some? then DecodeSnapshot(c, f.pending.value) else None;
      var recovery := Passing(f.removalRecoveryId, IsRandomId);
      if links.None? || (f.publication.Some? && publication.None?) || (f.migration.Some? && migration.None?) then None
      else if !IsSkill(key) && (links.value != [] || publication.Some?) then None
      else if migration.Some? && (f.uncommitted != Some(Bool(true)) || pending.None? || recovery.None?) then None
      else Some(Record(
        stable.value, if IsSkill(key) && root.Some? then Some(Normalize(root.value)) else None,
        if links.value == [] then None else links, publication, f.uncommitted == Some(Bool(true)),
        DecodeIdentity(f.candidateIdentity), DecodeConfigCandidate(f.configCandidate),
        Passing(f.installMarker, IsRandomId), Passing(f.rejectionRecoveryId, IsRandomId), recovery, pending, migration))
  }

  function EncodeRecord(r: Record): Json {
    Obj(SnapshotFields(r.stable).(
      installRoot := OptText(r.installRoot),
      skillLinks := if r.skillLinks.Some? then Some(Arr(EncodeLinks(r.skillLinks.value))) else None,
      publication := if r.publication.Some? then Some(EncodePublication(r.publication.value)) else None,
      uncommitted := if r.uncommitted then Some(Bool(true)) else None,
      candidateIdentity :=
        if r.candidateIdentity.Some? then Some(Obj(IdentityFields(r.candidateIdentity.value))) else None,
      configCandidate := if r.configCandidate.Some? then Some(EncodeConfigCandidate(r.configCandidate.value)) else None,
      installMarker := OptText(r.installMarker),
      rejectionRecoveryId := OptText(r.rejectionRecoveryId),
      removalRecoveryId := OptText(r.removalRecoveryId),
      pending := if r.pending.Some? then Some(Obj(SnapshotFields(r.pending.value))) else None,
      migration := if r.migration.Some? then Some(EncodeMigration(r.migration.value)) else None))
  }

  predicate IdFits(id: Option<string>) { id.Some? ==> IsRandomId(id.value) }

  /** The links of a record bear the name of its key; only skills have any, or a root. */
  predicate LinkageFits(key: string, r: Record)
    requires IsKey(key)
  {
    && (r.skillLinks.Some? ==> LinksFit(r.skillLinks.value, NameOf(key)))
    && (r.publication.Some? ==> EndsFit(r.publication.value.path, r.publication.value.target, NameOf(key)))
    && (!IsSkill(key) ==>
          (r.skillLinks.Some? ==> r.skillLinks.value == []) && r.publication.None? && r.installRoot.None?)
  }

  predicate JournalFits(key: string, r: Record)
    requires IsKey(key)
  {
    && (r.installRoot.Some? ==> Absolute(r.installRoot.value) && Normalize(r.installRoot.value) == r.installRoot.value)
    && (r.candidateIdentity.Some? ==> IdentityFits(r.candidateIdentity.value))
    && (r.configCandidate.Some? ==>
          IsCandidateName(r.configCandidate.value.name) && IdentityFits(r.configCandidate.value.id))
    && IdFits(r.installMarker) && IdFits(r.rejectionRecoveryId) && IdFits(r.removalRecoveryId)
    && (r.migration.Some? ==>
          MigrationFits(r.migration.value, key) && r.uncommitted && r.pending.Some? && r.removalRecoveryId.Some?)
  }

  /** What can be saved under a key and come back. */
  ghost predicate Fits(c: Checks, key: string, r: Record) {
    && IsKey(key) && LinkageFits(key, r) && JournalFits(key, r)
    && SnapshotFits(c, r.stable) && (r.pending.Some? ==> SnapshotFits(c, r.pending.value))
  }

  /** The one thing loading changes: an empty list of links is no list. */
  function Normal(r: Record): Record { if r.skillLinks == Some([]) then r.(skillLinks := None) else r }

  lemma IdentityRoundTrip(i: Identity, f: Fields)
    requires IdentityFits(i) && f.dev == Some(Str(i.dev)) && f.ino == Some(Str(i.ino))
    ensures DecodeIdentity(Some(Obj(f))) == Some(i)
  {
  }

  lemma LinkageRoundTrip(key: string, r: Record)
    requires IsKey(key) && LinkageFits(key, r)
    ensures var f := EncodeRecord(r).fields;
      DecodeLinkList(f.skillLinks, NameOf(key)) == (if r.skillLinks.Some? then r.skillLinks else Some([]))
      && DecodePublication(f.publication, NameOf(key)) == r.publication
  {
    if r.skillLinks.Some? {
      LinksRoundTrip(r.skillLinks.value, NameOf(key));
    }
    hide SnapshotFields, Normalize, Basename, Absolute, EncodeLinks, DecodeLinks, LinksFit, IsKey;
  }

  lemma MigrationRoundTrip(key: string, m: Migration)
    requires MigrationFits(m, key)
    ensures DecodeMigration(Some(EncodeMigration(m)), key) == Some(m)
  {
    IdentityRoundTrip(m.recovery, IdentityFields(m.recovery));
    hide Normalize, SameSkill, IdentityFits, IsFilesystemId, DecodeIdentity;
  }

  lemma JournalRoundTrip(key: string, r: Record)
    requires IsKey(key) && JournalFits(key, r)
    ensures var f := EncodeRecord(r).fields;
      && DecodeMigration(f.migration, key) == r.migration && DecodeIdentity(f.candidateIdentity) == r.candidateIdentity
      && DecodeConfigCandidate(f.configCandidate) == r.configCandidate
      && Passing(f.installMarker, IsRandomId) == r.installMarker
      && Passing(f.rejectionRecoveryId, IsRandomId) == r.rejectionRecoveryId
      && Passing(f.removalRecoveryId, IsRandomId) == r.removalRecoveryId
  {
    hide SnapshotFields, MigrationFits, IsCandidateName, IsRandomId, EncodeMigration, DecodeMigration, IsKey, Normalize;
    if r.migration.Some? {
      MigrationRoundTrip(key, r.migration.value);
    }
    assert DecodeMigration(None, key) == None by {
      NoMigration(key);
    }
  }

  lemma NoMigration(key: string)
    ensures DecodeMigration(None, key) == None
  {
  }

  lemma SnapshotsRoundTrip(c: Checks, r: Record)
    requires SnapshotFits(c, r.stable) && (r.pending.Some? ==> SnapshotFits(c, r.pending.value))
    ensures DecodeSnapshot(c, EncodeRecord(r)) == Some(r.stable)
    ensures r.pending.Some? ==> DecodeSnapshot(c, Obj(SnapshotFields(r.pending.value))) == r.pending
  {
    SnapshotRoundTrip(c, r.stable, EncodeRecord(r).fields);
    if r.pending.Some? {
      SnapshotRoundTrip(c, r.pending.value, SnapshotFields(r.pending.value));
    }
  }

  /** The parts of an encoded record that need no decoder, and its root. */
  lemma PartsRoundTrip(key: string, r: Record)
    requires IsKey(key) && LinkageFits(key, r) && JournalFits(key, r)
    ensures EncodeRecord(r).Obj?
    ensures var f := EncodeRecord(r).fields;
      && (f.uncommitted == Some(Bool(true)) <==> r.uncommitted)
      && (f.publication.Some? <==> r.publication.Some?) && (f.migration.Some? <==> r.migration.Some?)
      && f.pending == (if r.pending.Some? then Some(Obj(SnapshotFields(r.pending.value))) else None)
      && var root := Passing(f.installRoot, Absolute);
         (if IsSkill(key) && root.Some? then Some(Normalize(root.value)) else None) == r.installRoot
  {
    hide SnapshotFields, Normalize, Absolute, IsKey, LinksFit, EndsFit, IsRandomId, MigrationFits;
  }

  /** A record that fits its key is loaded as it was saved. */
  lemma RecordRoundTrip(c: Checks, key: string, r: Record)
    requires Fits(c, key, r)
    ensures DecodeRecord(c, EncodeRecord(r), key) == Some(Normal(r))
  {
    SnapshotsRoundTrip(c, r);
    LinkageRoundTrip(key, r);
    JournalRoundTrip(key, r);
    PartsRoundTrip(key, r);
    hide SnapshotFits, DecodeSnapshot, SnapshotFields, LinksFit, DecodeLinkList, DecodePublication, DecodeMigration,
      DecodeIdentity, DecodeConfigCandidate, IsRandomId, MigrationFits, EndsFit, IsKey, IsSkill, EncodeRecord, Passing,
      Normalize, Absolute;
  }

  lemma DecodedLinkageFits(f: Fields, name: string)
    requires IsName(name)
    ensures DecodeLinkList(f.skillLinks, name).Some? ==> LinksFit(DecodeLinkList(f.skillLinks, name).value, name)
    ensures DecodePublication(f.publication, name).Some? ==>
      var publication := DecodePublication(f.publication, name).value;
      EndsFit(publication.path, publication.target, name)
  {
    hide EndsFit, DecodeLink, DecodeEnds, IdentityFits;
    if DecodeLinkList(f.skillLinks, name).Some? && f.skillLinks.Some? {
      DecodedLinksFit(f.skillLinks.value.items, name);
    }
    if DecodePublication(f.publication, name).Some? {
      DecodedEndsFit(f.publication.value.fields, name);
    }
  }

  lemma DecodedMigrationFits(j: Option<Json>, key: string)
    ensures DecodeMigration(j, key).Some? ==> MigrationFits(DecodeMigration(j, key).value, key)
  {
    if DecodeMigration(j, key).Some? {
      NormalizeIsIdempotent(Text(j.value.fields.installRoot).value);
    }
  }

  lemma DecodedIdsFit(f: Fields)
    ensures DecodeIdentity(f.candidateIdentity).Some? ==> IdentityFits(DecodeIdentity(f.candidateIdentity).value)
    ensures DecodeConfigCandidate(f.configCandidate).Some? ==>
      var candidate := DecodeConfigCandidate(f.configCandidate).value;
      IsCandidateName(candidate.name) && IdentityFits(candidate.id)
    ensures Passing(f.installRoot, Absolute).Some? ==>
      var n := Normalize(Passing(f.installRoot, Absolute).value); Absolute(n) && Normalize(n) == n
  {
    if Passing(f.installRoot, Absolute).Some? {
      NormalizeIsIdempotent(Text(f.installRoot).value);
    }
  }

  lemma DecodedJournalFits(c: Checks, j: Json, key: string)
    requires IsKey(key) && DecodeRecord(c, j, key).Some?
    ensures JournalFits(key, DecodeRecord(c, j, key).value)
  {
    DecodedIdsFit(j.fields);
    DecodedMigrationFits(j.fields.migration, key);
    hide SnapshotFits, DecodeSnapshot, DecodeLinkList, DecodePublication, DecodeMigration, DecodeIdentity,
      DecodeConfigCandidate,
      IsRandomId, MigrationFits, IsSkill, IsKey, Normalize, Absolute, IsCandidateName, IdentityFits;
  }

  lemma DecodedLinkage(c: Checks, j: Json, key: string)
    requires IsKey(key) && DecodeRecord(c, j, key).Some?
    ensures LinkageFits(key, DecodeRecord(c, j, key).value)
  {
    DecodedLinkageFits(j.fields, NameOf(key));
    hide SnapshotFits, DecodeSnapshot, DecodeLinkList, DecodePublication, DecodeMigration, DecodeIdentity,
      DecodeConfigCandidate,
      IsRandomId, LinksFit, EndsFit, IsSkill, IsKey, Normalize;
  }

  /** Any record that was loaded fits its key, and is in normal form. */
  lemma DecodedFits(c: Checks, j: Json, key: string)
    requires IsKey(key) && DecodeRecord(c, j, key).Some?
    ensures Fits(c, key, DecodeRecord(c, j, key).value)
    ensures Normal(DecodeRecord(c, j, key).value) == DecodeRecord(c, j, key).value
  {
    var f := j.fields;
    DecodedSnapshotFits(c, j);
    if f.pending.Some? && DecodeSnapshot(c, f.pending.value).Some? {
      DecodedSnapshotFits(c, f.pending.value);
    }
    DecodedJournalFits(c, j, key);
    DecodedLinkage(c, j, key);
    hide SnapshotFits, DecodeSnapshot, DecodeLinkList, DecodePublication, DecodeMigration, DecodeIdentity,
      DecodeConfigCandidate,
      JournalFits, LinkageFits, IsRandomId, IsSkill, IsKey, Normalize;
  }

  /** So a record comes back exactly when it fits. */
  lemma SurvivesExactly(c: Checks, key: string, r: Record)
    requires IsKey(key)
    ensures DecodeRecord(c, EncodeRecord(r), key) == Some(Normal(r)) <==> Fits(c, key, r)
  {
    if Fits(c, key, r) {
      RecordRoundTrip(c, key, r);
    } else if DecodeRecord(c, EncodeRecord(r), key) == Some(Normal(r)) {
      DecodedFits(c, EncodeRecord(r), key);
      NormalFits(c, key, r);
    }
  }

  lemma NormalFits(c: Checks, key: string, r: Record)
    requires IsKey(key)
    ensures Fits(c, key, Normal(r)) <==> Fits(c, key, r)
  {
    hide SnapshotFits, MigrationFits, EndsFit, Normalize, IsSkill, IsKey;
    assert LinksFit([], NameOf(key));
  }

  /** The whole file: consent, recoveries claimed before use, and ownership. */
  datatype State = State(
    approved: seq<string>, revoked: seq<string>, adopted: Option<seq<string>>,
    removals: Option<seq<string>>, removalRoots: Option<map<string, string>>, upgrades: Option<seq<string>>,
    installed: map<string, Record>)

  /** Its members as parsed; anything that is not an object has none. */
  datatype Raw = Raw(
    approved: Option<Json>, revoked: Option<Json>, adopted: Option<Json>,
    removals: Option<Json>, removalRoots: Option<Json>, upgrades: Option<Json>, installed: Option<Json>)

  /** Repetitions dropped, first ones kept in place. */
  function Dedupe(s: seq<string>): (r: seq<string>)
    ensures Distinct(r) && forall x :: x in r <==> x in s
  {
    if s == [] then [] else
      var init := Dedupe(s[..|s| - 1]);
      assert s == s[..|s| - 1] + [s[|s| - 1]];
      if s[|s| - 1] in init then init else init + [s[|s| - 1]]
  }

  lemma {:induction false} DedupeDistinct(s: seq<string>)
    requires Distinct(s)
    ensures Dedupe(s) == s
  {
    if s != [] {
      DedupeDistinct(s[..|s| - 1]);
      assert s == s[..|s| - 1] + [s[|s| - 1]];
    }
  }

  /** Consent keys in any spelling, in lower case. */
  function Keys(items: seq<Json>): (r: seq<string>)
    ensures forall k | k in r :: IsKey(k) && Lower(k) == k
  {
    if items == [] then [] else
      (if items[0].Str? && IsKey(items[0].s) then (LowerKey(items[0].s); [Lower(items[0].s)]) else [])
      + Keys(items[1..])
  }

  function CanonicalKeys(j: Option<Json>): seq<string> {
    if j.Some? && j.value.Arr? then Dedupe(Keys(j.value.items)) else []
  }

  function RandomIds(items: seq<Json>): (r: seq<string>)
    ensures forall id | id in r :: IsRandomId(id)
  {
    if items == [] then [] else
      (if items[0].Str? && IsRandomId(items[0].s) then [items[0].s] else []) + RandomIds(items[1..])
  }

  function DecodeIds(j: Option<Json>): Option<seq<string>> {
    if j.Some? && j.value.Arr? then Some(Dedupe(RandomIds(j.value.items))) else None
  }

  /** Roots of the recoveries that are listed; none at all if that leaves none. */
  function DecodeRoots(ids: Option<seq<string>>, j: Option<Json>): Option<map<string, string>> {
    if ids.None? || j.None? || !j.value.Dict? then None else
      var entries := j.value.entries;
      var roots := map id | id in entries && id in ids.value && entries[id].Str? && Absolute(entries[id].s) ::
        Normalize(entries[id].s);
      if roots == map[] then None else Some(roots)
  }

  function DecodeInstalled(c: Checks, j: Option<Json>): map<string, Record> {
    if j.None? || !j.value.Dict? then map[] else
      map key | key in j.value.entries && IsKey(key) && DecodeRecord(c, j.value.entries[key], key).Some? ::
        DecodeRecord(c, j.value.entries[key], key).value
  }

  function DecodeState(c: Checks, raw: Raw): State {
    State(
      CanonicalKeys(raw.approved), CanonicalKeys(raw.revoked),
      if raw.adopted.Some? then Some(CanonicalKeys(raw.adopted)) else None,
      DecodeIds(raw.removals), DecodeRoots(DecodeIds(raw.removals), raw.removalRoots), DecodeIds(raw.upgrades),
      DecodeInstalled(c, raw.installed))
  }

  function OptList(list: Option<seq<string>>): Option<Json> { if list.Some? then Some(Arr(Strs(list.value))) else None }

  function EncodeState(s: State): Raw {
    Raw(
      Some(Arr(Strs(s.approved))), Some(Arr(Strs(s.revoked))), OptList(s.adopted), OptList(s.removals),
      if s.removalRoots.Some? then Some(Dict(map id | id in s.removalRoots.value :: Str(s.removalRoots.value[id])))
      else None,
      OptList(s.upgrades), Some(Dict(map key | key in s.installed :: EncodeRecord(s.installed[key]))))
  }

  ghost predicate KeysFit(keys: seq<string>) { Distinct(keys) && forall k | k in keys :: IsKey(k) && Lower(k) == k }

  ghost predicate IdsFit(ids: seq<string>) { Distinct(ids) && forall id | id in ids :: IsRandomId(id) }

  ghost predicate RootsFit(ids: Option<seq<string>>, roots: map<string, string>) {
    && roots != map[] && ids.Some?
    && forall id | id in roots :: id in ids.value && Absolute(roots[id]) && Normalize(roots[id]) == roots[id]
  }

  ghost predicate StateFits(c: Checks, s: State) {
    && KeysFit(s.approved) && KeysFit(s.revoked) && (s.adopted.Some? ==> KeysFit(s.adopted.value))
    && (s.removals.Some? ==> IdsFit(s.removals.value)) && (s.upgrades.Some? ==> IdsFit(s.upgrades.value))
    && (s.removalRoots.Some? ==> RootsFit(s.removals, s.removalRoots.value))
    && forall key | key in s.installed :: Fits(c, key, s.installed[key])
  }

  function NormalState(s: State): State { s.(installed := map key | key in s.installed :: Normal(s.installed[key])) }

  lemma LowerOfCons(c: char, t: string)
    ensures Lower([c] + t) == [LowerChar(c)] + Lower(t) && (LowerChar(c) == '/' <==> c == '/')
  {
    assert ([c] + t)[1..] == t;
  }

  function LowerAll(parts: seq<string>): (r: seq<string>)
    ensures |r| == |parts| && forall i | 0 <= i < |parts| :: r[i] == Lower(parts[i])
  {
    if parts == [] then [] else [Lower(parts[0])] + LowerAll(parts[1..])
  }

  lemma LowerAllOfCons(part: string, parts: seq<string>)
    ensures LowerAll([part] + parts) == [Lower(part)] + LowerAll(parts)
  {
    assert ([part] + parts)[1..] == parts;
  }

  lemma {:induction false} LowerSplit(s: string)
    ensures Split(Lower(s)) == LowerAll(Split(s))
  {
    if s == "" {
      assert [""][1..] == [];
    } else {
      var c, t := s[0], s[1..];
      var rest := Split(t);
      assert s == [c] + t && rest == [rest[0]] + rest[1..];
      LowerSplit(t);
      LowerOfCons(c, t);
      LowerOfCons(c, rest[0]);
      EmptyIsLower();
      SplitOfCons(c, t);
      SplitOfCons(LowerChar(c), Lower(t));
      LowerAllOfCons("", rest);
      LowerAllOfCons(rest[0], rest[1..]);
      LowerAllOfCons([c] + rest[0], rest[1..]);
      hide Split, Lower, LowerAll, LowerChar;
    }
  }

  lemma SplitOfCons(c: char, t: string)
    ensures Split([c] + t) == if c == '/' then [""] + Split(t) else [[c] + Split(t)[0]] + Split(t)[1..]
  {
    assert ([c] + t)[1..] == t;
  }

  lemma EmptyIsLower()
    ensures Lower("") == ""
  {
  }

  lemma LowerKey(key: string)
    requires IsKey(key)
    ensures IsKey(Lower(key)) && Lower(Lower(key)) == Lower(key)
  {
    LowerSplit(key);
    LowerTwice(key);
  }

  lemma {:induction false} KeysOfStrs(keys: seq<string>)
    requires forall k | k in keys :: IsKey(k) && Lower(k) == k
    ensures Keys(Strs(keys)) == keys
  {
    hide IsKey, Lower;
    if keys != [] {
      assert forall k | k in keys[1..] :: k in keys;
      KeysOfStrs(keys[1..]);
      assert Strs(keys)[1..] == Strs(keys[1..]) && [keys[0]] + keys[1..] == keys;
    }
  }

  lemma {:induction false} IdsOfStrs(ids: seq<string>)
    requires forall id | id in ids :: IsRandomId(id)
    ensures RandomIds(Strs(ids)) == ids
  {
    if ids != [] {
      assert forall id | id in ids[1..] :: id in ids;
      IdsOfStrs(ids[1..]);
      assert Strs(ids)[1..] == Strs(ids[1..]) && [ids[0]] + ids[1..] == ids;
    }
  }

  lemma CanonicalKeysRoundTrip(keys: seq<string>)
    requires KeysFit(keys)
    ensures CanonicalKeys(Some(Arr(Strs(keys)))) == keys
  {
    KeysOfStrs(keys);
    DedupeDistinct(keys);
  }

  lemma IdsRoundTrip(ids: Option<seq<string>>)
    requires ids.Some? ==> IdsFit(ids.value)
    ensures DecodeIds(OptList(ids)) == ids
  {
    if ids.Some? {
      IdsOfStrs(ids.value);
      DedupeDistinct(ids.value);
    }
  }

  lemma RootsRoundTrip(ids: Option<seq<string>>, roots: map<string, string>)
    requires RootsFit(ids, roots)
    ensures DecodeRoots(ids, Some(Dict(map id | id in roots :: Str(roots[id])))) == Some(roots)
  {
    var entries := map id | id in roots :: Str(roots[id]);
    var decoded := map id | id in entries && id in ids.value && entries[id].Str? && Absolute(entries[id].s) ::
      Normalize(entries[id].s);
    assert decoded == roots;
  }

  lemma InstalledRoundTrip(c: Checks, installed: map<string, Record>)
    requires forall key | key in installed :: Fits(c, key, installed[key])
    ensures DecodeInstalled(c, Some(Dict(map key | key in installed :: EncodeRecord(installed[key])))) ==
      map key | key in installed :: Normal(installed[key])
  {
    hide DecodeRecord, EncodeRecord, LinkageFits, JournalFits, SnapshotFits, Split, IsName;
    forall key | key in installed
      ensures DecodeRecord(c, EncodeRecord(installed[key]), key) == Some(Normal(installed[key]))
    {
      RecordRoundTrip(c, key, installed[key]);
    }
  }

  /** Everything that is fit to be saved is loaded again, unchanged up to empty lists of links. */
  lemma StateRoundTrip(c: Checks, s: State)
    requires StateFits(c, s)
    ensures DecodeState(c, EncodeState(s)) == NormalState(s)
  {
    CanonicalKeysRoundTrip(s.approved);
    CanonicalKeysRoundTrip(s.revoked);
    if s.adopted.Some? {
      CanonicalKeysRoundTrip(s.adopted.value);
    }
    IdsRoundTrip(s.removals);
    IdsRoundTrip(s.upgrades);
    if s.removalRoots.Some? {
      RootsRoundTrip(s.removals, s.removalRoots.value);
    }
    InstalledRoundTrip(c, s.installed);
    hide CanonicalKeys, DecodeIds, DecodeInstalled, EncodeRecord, Fits, KeysFit, IdsFit, RootsFit, Normal;
  }

  lemma DecodedKeysFit(j: Option<Json>)
    ensures KeysFit(CanonicalKeys(j))
  {
  }

  lemma DecodedIdListFits(j: Option<Json>)
    ensures DecodeIds(j).Some? ==> IdsFit(DecodeIds(j).value)
  {
  }

  lemma DecodedRootsFit(ids: Option<seq<string>>, j: Option<Json>)
    ensures DecodeRoots(ids, j).Some? ==> RootsFit(ids, DecodeRoots(ids, j).value)
  {
    if DecodeRoots(ids, j).Some? {
      var roots := DecodeRoots(ids, j).value;
      forall id | id in roots ensures Absolute(roots[id]) && Normalize(roots[id]) == roots[id] {
        NormalizeIsIdempotent(j.value.entries[id].s);
      }
    }
  }

  lemma DecodedInstalledFits(c: Checks, j: Option<Json>, key: string)
    requires key in DecodeInstalled(c, j)
    ensures Fits(c, key, DecodeInstalled(c, j)[key]) && Normal(DecodeInstalled(c, j)[key]) == DecodeInstalled(c, j)[key]
  {
    DecodedFits(c, j.value.entries[key], key);
  }

  lemma LoadedInstalledFits(c: Checks, j: Option<Json>)
    ensures forall key | key in DecodeInstalled(c, j) :: Fits(c, key, DecodeInstalled(c, j)[key])
    ensures (map key | key in DecodeInstalled(c, j) :: Normal(DecodeInstalled(c, j)[key])) == DecodeInstalled(c, j)
  {
    hide DecodeInstalled, Fits, Normal;
    forall key | key in DecodeInstalled(c, j)
      ensures Fits(c, key, DecodeInstalled(c, j)[key])
      ensures Normal(DecodeInstalled(c, j)[key]) == DecodeInstalled(c, j)[key]
    {
      DecodedInstalledFits(c, j, key);
    }
  }

  lemma LoadedFits(c: Checks, raw: Raw)
    ensures StateFits(c, DecodeState(c, raw)) && NormalState(DecodeState(c, raw)) == DecodeState(c, raw)
  {
    hide CanonicalKeys, DecodeIds, DecodeRoots, DecodeInstalled, Fits, Normal, KeysFit, IdsFit, RootsFit;
    DecodedKeysFit(raw.approved);
    DecodedKeysFit(raw.revoked);
    DecodedKeysFit(raw.adopted);
    DecodedIdListFits(raw.removals);
    DecodedIdListFits(raw.upgrades);
    DecodedRootsFit(DecodeIds(raw.removals), raw.removalRoots);
    LoadedInstalledFits(c, raw.installed);
  }

  /** Whatever the file held, what was loaded from it can be saved and loaded without a change. */
  lemma LoadingIsIdempotent(c: Checks, raw: Raw)
    ensures DecodeState(c, EncodeState(DecodeState(c, raw))) == DecodeState(c, raw)
  {
    hide DecodeState, EncodeState, StateFits, NormalState;
    LoadedFits(c, raw);
    StateRoundTrip(c, DecodeState(c, raw));
  }

  /** The loading loop: entries are taken one by one, and dropped if their key or their record is malformed. */
  method LoadInstalled(c: Checks, entries: map<string, Json>) returns (installed: map<string, Record>)
    ensures installed == DecodeInstalled(c, Some(Dict(entries)))
    ensures forall key | key in installed :: Fits(c, key, installed[key])
  {
    installed := map[];
    var left := entries.Keys;
    ghost var all := DecodeInstalled(c, Some(Dict(entries)));
    while left != {}
      invariant left <= entries.Keys
      invariant forall key :: key in installed <==> key in all && key !in left
      invariant forall key | key in installed :: installed[key] == all[key]
      decreases |left|
    {
      var key :| key in left;
      left := left - {key};
      if IsKey(key) {
        var record := DecodeRecord(c, entries[key], key);
        if record.Some? {
          installed := installed[key := record.value];
        }
      }
    }
    forall key | key in installed ensures Fits(c, key, installed[key]) {
      DecodedInstalledFits(c, Some(Dict(entries)), key);
    }
  }

  /** A record of one snapshot with the linkage of another record: what every settled journal becomes. */
  function Settled(s: Snapshot, r: Record): Record {
    Record(s, r.installRoot, r.skillLinks, r.publication, false, None, None, None, None, None, None, None)
  }

  /** What the engine does to one record under one key. The values it brings come from audits and random ids. */
  datatype Change =
    | FirstSkill(snapshot: Snapshot, root: string, id: Identity, marker: string, rejection: string)
    | FirstConfig(snapshot: Snapshot, directory: Identity, candidate: ConfigCandidate)
    | UpgradeSkill(snapshot: Snapshot)
    | UpgradeConfig(snapshot: Snapshot, directory: Identity, candidate: ConfigCandidate)
    | TakePending
    | TakeStable
    | Complete(snapshot: Snapshot)
    | FinishMove
    | Commit
    | RetireMarker
    | AdoptMarker(file: string, hashes: map<string, string>)
    | Preclaim(recovery: string)
    | Intend(intent: Publication)
    | Publish(links: seq<Link>)

  function WithFile(files: seq<string>, file: string): seq<string> { if file in files then files else files + [file] }

  function Changed(r: Record, ch: Change): Record {
    match ch
    case FirstSkill(s, root, id, marker, rejection) =>
      Record(s, Some(root), None, None, true, Some(id), None, Some(marker), Some(rejection), None, None, None)
    case FirstConfig(s, directory, candidate) =>
      Record(s, None, None, None, true, Some(directory), Some(candidate), None, None, None, None, None)
    case UpgradeSkill(s) => Settled(r.stable, r).(pending := Some(s))
    case UpgradeConfig(s, directory, candidate) =>
      Record(r.stable, None, None, None, false, Some(directory), Some(candidate), None, None, None, Some(s), None)
    case TakePending => if r.pending.Some? then Settled(r.pending.value, r) else r
    case TakeStable => Settled(r.stable, r)
    case Complete(s) => Settled(s, r)
    case FinishMove => Settled(r.stable, r).(installMarker := r.installMarker)
    case Commit =>
      r.(uncommitted := false, candidateIdentity := None, configCandidate := None, rejectionRecoveryId := None)
    case RetireMarker => r.(installMarker := None)
    case AdoptMarker(file, hashes) =>
      r.(installMarker := None,
         stable := r.stable.(files := WithFile(r.stable.files, file), fileHashes := Some(hashes)))
    case Preclaim(recovery) => r.(removalRecoveryId := Some(recovery))
    case Intend(intent) => r.(publication := Some(intent))
    case Publish(links) => r.(skillLinks := Some(links), publication := None)
  }

  /**
    How the journals end. An upgrade taken back leaves the stable tree, one taken over the pending tree, as if it
    had been completed at once; a first installation that is committed and has lost its marker leaves a plain record.
  */
  lemma JournalsEnd(r: Record, s: Snapshot, root: string, id: Identity, marker: string, rejection: string)
    ensures
      var upgrade, first := Changed(r, UpgradeSkill(s)), Changed(r, FirstSkill(s, root, id, marker, rejection));
      && upgrade.stable == r.stable && upgrade.pending == Some(s)
      && first.uncommitted && first.candidateIdentity == Some(id)
      && Changed(upgrade, TakeStable) == Record(
           r.stable, r.installRoot, r.skillLinks, r.publication, false, None, None, None, None, None, None, None)
      && Changed(upgrade, TakePending) == Changed(r, Complete(s)) == Record(
           s, r.installRoot, r.skillLinks, r.publication, false, None, None, None, None, None, None, None)
      && Changed(Changed(first, Commit), RetireMarker) == Record(
           s, Some(root), None, None, false, None, None, None, None, None, None, None)
  {
  }

  /** What audits, resolved paths and random ids guarantee of those values. A migration is not committed this way. */
  ghost predicate Sound(c: Checks, key: string, r: Record, ch: Change) {
    IsKey(key) &&
    match ch
    case FirstSkill(s, root, id, marker, rejection) =>
      && IsSkill(key) && SnapshotFits(c, s) && Absolute(root) && Normalize(root) == root
      && IdentityFits(id) && IsRandomId(marker) && IsRandomId(rejection)
    case FirstConfig(s, directory, candidate) =>
      SnapshotFits(c, s) && IdentityFits(directory) && IsCandidateName(candidate.name) && IdentityFits(candidate.id)
    case UpgradeSkill(s) => SnapshotFits(c, s)
    case UpgradeConfig(s, directory, candidate) =>
      SnapshotFits(c, s) && IdentityFits(directory) && IsCandidateName(candidate.name) && IdentityFits(candidate.id)
    case TakePending => true
    case TakeStable => true
    case Complete(s) => SnapshotFits(c, s)
    case FinishMove => true
    case Commit => r.migration.None?
    case RetireMarker => true
    case AdoptMarker(file, hashes) => IsManagedPath(file) && HashesCover(hashes, WithFile(r.stable.files, file))
    case Preclaim(recovery) => IsRandomId(recovery)
    case Intend(intent) => IsSkill(key) && EndsFit(intent.path, intent.target, NameOf(key))
    case Publish(links) => IsSkill(key) && LinksFit(links, NameOf(key))
  }

  ghost predicate HashesCover(hashes: map<string, string>, files: seq<string>) {
    |hashes| == |files| && forall file | file in hashes :: file in files && IsHash(hashes[file])
  }

  /** Every change under one key leaves a record that comes back from the file. */
  lemma ChangesSurvive(c: Checks, key: string, r: Record, ch: Change)
    requires Sound(c, key, r, ch) && (ch.FirstSkill? || ch.FirstConfig? || Fits(c, key, r))
    ensures Fits(c, key, Changed(r, ch))
    ensures DecodeRecord(c, EncodeRecord(Changed(r, ch)), key) == Some(Normal(Changed(r, ch)))
  {
    hide LinksFit, EndsFit, MigrationFits, IsRandomId, IsCandidateName, IdentityFits, Normalize, Absolute,
      IsManagedPath,
      DecodeRecord, EncodeRecord, Normal, Split, IsName, IsHash, Lower, SourceFits;
    RecordRoundTrip(c, key, Changed(r, ch));
  }

  /** One write of the ownership map: a change of a record, a new record, or the end of one. */
  datatype Write = Change(key: string, change: Change) | Forget(key: string)

  function Written(installed: map<string, Record>, w: Write): map<string, Record> {
    match w
    case Forget(key) => installed - {key}
    case Change(key, ch) =>
      if key in installed then installed[key := Changed(installed[key], ch)]
      else if ch.FirstSkill? || ch.FirstConfig? then installed[key := Changed(Bare(ch.snapshot), ch)]
      else installed
  }

  function Bare(s: Snapshot): Record { Record(s, None, None, None, false, None, None, None, None, None, None, None) }

  /** A write ends or changes the record of its own key, or makes it, and no other. */
  lemma WritesOneKey(installed: map<string, Record>, w: Write, key: string)
    ensures key != w.key ==> Lookup(Written(installed, w), key) == Lookup(installed, key)
    ensures key == w.key ==>
      match w
      case Forget(_) => key !in Written(installed, w)
      case Change(_, ch) =>
        Lookup(Written(installed, w), key) ==
          if key in installed then Some(Changed(installed[key], ch))
          else if ch.FirstSkill? || ch.FirstConfig? then Some(Changed(Bare(ch.snapshot), ch)) else None
  {
  }

  ghost predicate SoundWrite(c: Checks, installed: map<string, Record>, w: Write) {
    w.Change? && w.key in installed ==> Sound(c, w.key, installed[w.key], w.change)
  }

  ghost predicate SoundFirst(c: Checks, w: Write) {
    w.Change? && (w.change.FirstSkill? || w.change.FirstConfig?) ==> Sound(c, w.key, Bare(w.change.snapshot), w.change)
  }

  function WrittenAll(installed: map<string, Record>, writes: seq<Write>): map<string, Record>
    decreases |writes|
  {
    if writes == [] then installed else WrittenAll(Written(installed, writes[0]), writes[1..])
  }

  ghost predicate SoundRun(c: Checks, installed: map<string, Record>, writes: seq<Write>)
    decreases |writes|
  {
    writes == [] ||
    (SoundWrite(c, installed, writes[0]) && SoundFirst(c, writes[0])
      && SoundRun(c, Written(installed, writes[0]), writes[1..]))
  }

  lemma WriteFits(c: Checks, installed: map<string, Record>, w: Write)
    requires SoundWrite(c, installed, w) && SoundFirst(c, w)
    requires forall key | key in installed :: Fits(c, key, installed[key])
    ensures forall key | key in Written(installed, w) :: Fits(c, key, Written(installed, w)[key])
  {
    hide Sound, Fits, Changed;
    if w.Change? {
      if w.key in installed {
        ChangesSurvive(c, w.key, installed[w.key], w.change);
      } else if w.change.FirstSkill? || w.change.FirstConfig? {
        ChangesSurvive(c, w.key, Bare(w.change.snapshot), w.change);
      }
    }
  }

  /** However long the engine runs without a change of letter case, everything it has written comes back. */
  lemma {:induction false} RunsSurvive(c: Checks, installed: map<string, Record>, writes: seq<Write>)
    requires SoundRun(c, installed, writes) && forall key | key in installed :: Fits(c, key, installed[key])
    ensures var now := WrittenAll(installed, writes);
      var decoded := DecodeInstalled(c, Some(Dict(map key | key in now :: EncodeRecord(now[key]))));
      decoded == map key | key in now :: Normal(now[key])
    decreases |writes|
  {
    hide Fits, EncodeRecord, DecodeInstalled, Normal, Written, SoundWrite, SoundFirst;
    if writes == [] {
      InstalledRoundTrip(c, installed);
    } else {
      WriteFits(c, installed, writes[0]);
      RunsSurvive(c, Written(installed, writes[0]), writes[1..]);
    }
  }

  /** The journal of a move to the canonical root: a first installation that still owns the legacy tree. */
  function Migrating(
    legacy: Record, other: string, root: string, recovery: Identity,
    s: Snapshot, home: string, id: Identity, marker: string, rejection: string): Record
  {
    Record(s, Some(home), legacy.skillLinks, legacy.publication, true, Some(id), None, Some(marker), Some(rejection),
           legacy.removalRecoveryId, Some(legacy.stable), Some(Migration(other, root, recovery)))
  }

  /** And the record of the legacy tree once it is back, under the key it had. */
  function Restored(r: Record): Record
    requires r.pending.Some? && r.migration.Some?
  {
    Settled(r.pending.value, r).(installRoot := Some(r.migration.value.installRoot))
  }

  /**
    The journal leads both ways: back to the legacy tree under its own root, and forward to the new one with its
    marker; either way the links of the legacy record are kept.
  */
  lemma MigrationLeadsBothWays(
    legacy: Record, other: string, root: string, recovery: Identity,
    s: Snapshot, home: string, id: Identity, marker: string, rejection: string)
    ensures
      var r := Migrating(legacy, other, root, recovery, s, home, id, marker, rejection);
      && Restored(r) == Record(
           legacy.stable, Some(root), legacy.skillLinks, legacy.publication, false,
           None, None, None, None, None, None, None)
      && Changed(r, FinishMove) == Record(
           s, Some(home), legacy.skillLinks, legacy.publication, false,
           None, None, Some(marker), None, None, None, None)
      && r.uncommitted && r.candidateIdentity == Some(id) && r.rejectionRecoveryId == Some(rejection)
      && r.removalRecoveryId == legacy.removalRecoveryId && r.migration == Some(Migration(other, root, recovery))
  {
  }

  predicate NoLinkage(r: Record) { (r.skillLinks.None? || r.skillLinks.value == []) && r.publication.None? }

  /** Links recorded under one name fit another name only if there are none. */
  lemma LinkageUnderOtherName(key: string, other: string, r: Record)
    requires IsKey(key) && IsKey(other) && IsSkill(key) && IsSkill(other) && LinkageFits(other, r)
    ensures LinkageFits(key, r) <==> NameOf(key) == NameOf(other) || NoLinkage(r)
  {
    hide Normalize, Absolute, Basename, IsName, Lower, Split;
    if NoLinkage(r) {
      assert r.skillLinks.Some? ==> LinksFit(r.skillLinks.value, NameOf(key));
    } else if r.skillLinks.Some? && r.skillLinks.value != [] {
      assert Basename(r.skillLinks.value[0].path) == NameOf(other);
    }
  }

  /**
    A migration that changes the letter case of a key is lost when the file is read again, exactly if the
    record has links or an intent to publish one: they bear the legacy name, and loading wants the new one.
  */
  lemma MigrationSurvivesExactly(
    c: Checks, key: string, other: string, legacy: Record, root: string, recovery: Identity,
    s: Snapshot, home: string, id: Identity, marker: string, rejection: string)
    requires Fits(c, other, legacy) && legacy.removalRecoveryId.Some? && SameSkill(other, key)
    requires SnapshotFits(c, s) && IdentityFits(recovery)
    requires IdentityFits(id) && IsRandomId(marker) && IsRandomId(rejection)
    requires Absolute(root) && Normalize(root) == root && Absolute(home) && Normalize(home) == home
    ensures var r := Migrating(legacy, other, root, recovery, s, home, id, marker, rejection);
      DecodeRecord(c, EncodeRecord(r), key) == Some(Normal(r)) <==> NameOf(key) == NameOf(other) || NoLinkage(legacy)
  {
    var r := Migrating(legacy, other, root, recovery, s, home, id, marker, rejection);
    SameSkillIsSkill(other, key);
    SurvivesExactly(c, key, r);
    hide LinksFit, EndsFit, SnapshotFits, IsRandomId, IdentityFits, Normalize, Absolute, DecodeRecord, EncodeRecord,
      Normal,
      Split, IsName, Lower, IsSkill;
    LinkageUnderOtherName(key, other, r);
  }

  lemma SameSkillIsSkill(other: string, key: string)
    requires SameSkill(other, key)
    ensures IsSkill(key)
  {
    LowerSplit(other);
    LowerSplit(key);
  }

  /** The way back has the same flaw. */
  lemma RestoreSurvivesExactly(c: Checks, key: string, r: Record)
    requires Fits(c, key, r) && r.migration.Some?
    ensures IsKey(r.migration.value.installedKey) && r.pending.Some?
    ensures DecodeRecord(c, EncodeRecord(Restored(r)), r.migration.value.installedKey) == Some(Normal(Restored(r))) <==>
      NameOf(key) == NameOf(r.migration.value.installedKey) || NoLinkage(r)
  {
    var other := r.migration.value.installedKey;
    SameSkillIsSkill(other, key);
    SurvivesExactly(c, other, Restored(r));
    hide LinksFit, EndsFit, SnapshotFits, IsRandomId, IdentityFits, Normalize, Absolute, DecodeRecord, EncodeRecord,
      Normal,
      Split, IsName, Lower, IsSkill;
    LinkageUnderOtherName(other, key, r);
  }
}
