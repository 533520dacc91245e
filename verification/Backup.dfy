/** Offline snapshots: selection, creation, verification and restore over file trees.
    Digests and the manifest text are symbolic, which makes the digest injective. */
module Backup {
  import opened SafeWrite
  import opened Sequences

  type Path = seq<string>

  datatype Root = DataRoot | UserdataRoot | ConfigRoot | SecretsRoot | LegacyRoot

  datatype Hash = Hash(of: Bytes)

  datatype Record = Record(path: Path, size: nat, hash: Hash, root: Root)

  /** `supported`: version, layout, protection mode and root list are the known ones. */
  datatype Manifest = Manifest(supported: bool, missing: seq<string>, records: seq<Record>)

  /** A manifest text may have any length; a digest file holds 64 digits and a newline. */
  datatype Bytes = Data(text: string) | Json(manifest: Manifest, length: nat) | Digest(hash: Hash)

  function Size(b: Bytes): nat {
    match b case Data(text) => |text| case Json(_, length) => length case Digest(_) => 65
  }

  datatype Node = File(bytes: Bytes) | Link

  type Tree = map<Path, Node>

  const MANIFEST: Path := ["manifest.json"]
  const CHECKSUM: Path := ["manifest.sha256"]
  const CONFIG: Path := ["config.yaml"]
  const SECRETS: Path := ["secrets.local.yaml"]
  const LAYOUT: Path := ["data", "layout_version.json"]
  const REPORT: Path := [".presencekit-recovery", "recovery-report.json"]
  const MAX_FILES := 100_000
  const MAX_BYTES := 8 * 1024 * 1024 * 1024

  // ---- What is selected --------------------------------------------------

  predicate Under(prefix: Path, p: Path) {
    prefix <= p
  }

  /** A right-anchored glob; "*" stands for one whole part. */
  predicate EndsLike(p: Path, pattern: Path) {
    |p| >= |pattern| && forall i :: 0 <= i < |pattern| ==> pattern[i] == "*" || pattern[i] == p[|p| - |pattern| + i]
  }

  predicate Excluded(p: Path) {
    || Under(["data", "logs"], p) || Under(["data", "cache"], p) || Under(["data", "inbox"], p) || Under(["data", "debug"], p)
    || Under(["data", "runtime", "pending_perception"], p)
    || Under(["data", "runtime", "observability", "llm_debug_requests.jsonl"], p)
    || Under(["data", "runtime", "service_state.json"], p)
    || (EndsLike(p, ["data", "runtime", "memory", "*", "*", "*"]) && "vector_store.db" <= p[|p| - 1])
    || EndsLike(p, ["data", "chars", "*", "memory_index", "*"])
  }

  predicate HasSuffix(name: string, suffix: string) {
    |name| > |suffix| && Lower(name[|name| - |suffix|..]) == suffix
  }

  predicate HasExample(name: string) {
    exists i :: 0 <= i <= |name| && ".example." <= name[i..]
  }

  predicate LegacyFile(p: Path) {
    || (|p| >= 2 && p[0] == "characters" && p[1] !in {"default.json", "default_author_notes.json", "dream_postcards"}
        && if p[1] in {"reality", "dream_presets", "dream_worlds"} then |p| >= 3
           else |p| == 2 && (HasSuffix(p[1], ".json") || HasSuffix(p[1], ".txt") || HasSuffix(p[1], ".md")))
    || (|p| >= 3 && p[0] == "assets" && p[1] == "stickers" && p[|p| - 1] != ".gitkeep")
    || (|p| >= 4 && p[0] == "content" && p[1] == "characters" && p[2] != "default" && !HasExample(p[|p| - 1]))
  }

  /** The protection root a file is saved under, if it is saved. */
  function RootOf(p: Path): Option<Root> {
    if |p| >= 2 && p[0] == "data" then (if Excluded(p) then None else Some(DataRoot))
    else if |p| >= 2 && p[0] == "userdata" then (if Excluded(p) then None else Some(UserdataRoot))
    else if p == CONFIG then Some(ConfigRoot)
    else if p == SECRETS then Some(SecretsRoot)
    else if LegacyFile(p) then Some(LegacyRoot)
    else None
  }

  /** Where a link stops the selection, excluded files included. */
  predicate Walked(p: Path) {
    && p != []
    && (|| p[0] == "data" || p[0] == "userdata" || p == CONFIG || p == SECRETS
        || (|p| >= 2 && p[0] == "characters" && p[1] in {"reality", "dream_presets", "dream_worlds"})
        || Under(["assets", "stickers"], p)
        || (|p| >= 3 && Under(["content", "characters"], p) && p[2] != "default"))
  }

  function Selected(t: Tree): Tree {
    map p | p in t && RootOf(p).Some? :: t[p]
  }

  // ---- What a sound snapshot is ------------------------------------------

  predicate SafeRelative(p: Path) {
    p != [] && forall i :: 0 <= i < |p| ==> p[i] !in {"", ".", ".."}
  }

  predicate BelongsTo(p: Path, root: Root)
    requires p != []
  {
    match root
    case DataRoot => p[0] == "data"
    case UserdataRoot => p[0] == "userdata"
    case ConfigRoot => p == CONFIG
    case SecretsRoot => p == SECRETS
    case LegacyRoot => p[0] == "characters" || Under(["assets", "stickers"], p) || Under(["content", "characters"], p)
  }

  predicate Distinct<T(==)>(s: seq<T>) {
    forall i, j :: 0 <= i < j < |s| ==> s[i] != s[j]
  }

  predicate MissingOk(missing: seq<string>) {
    Distinct(missing) && forall i :: 0 <= i < |missing| ==> missing[i] in {"userdata", "secrets.local.yaml"}
  }

  /** The manifest, when its checksum file agrees and its fields are valid. */
  function ReadManifest(t: Tree): Option<Manifest> {
    if MANIFEST in t && CHECKSUM in t && t[MANIFEST].File? && t[MANIFEST].bytes.Json?
       && t[CHECKSUM] == File(Digest(Hash(t[MANIFEST].bytes)))
       && t[MANIFEST].bytes.manifest.supported && MissingOk(t[MANIFEST].bytes.manifest.missing)
    then Some(t[MANIFEST].bytes.manifest) else None
  }

  function Paths(records: seq<Record>): seq<Path> {
    seq(|records|, i requires 0 <= i < |records| => records[i].path)
  }

  predicate RecordOk(r: Record) {
    SafeRelative(r.path) && BelongsTo(r.path, r.root)
  }

  predicate Matches(t: Tree, r: Record) {
    r.path in t && t[r.path].File? && Size(t[r.path].bytes) == r.size && Hash(t[r.path].bytes) == r.hash
  }

  /** The snapshot holds exactly the files its manifest names, with those contents. */
  ghost predicate Sound(t: Tree) {
    && ReadManifest(t).Some?
    && var m := ReadManifest(t).value;
    && Distinct(Paths(m.records))
    && (forall i :: 0 <= i < |m.records| ==> RecordOk(m.records[i]) && Matches(t, m.records[i]))
    && CONFIG in Paths(m.records) && LAYOUT in Paths(m.records)
    && (SECRETS in Paths(m.records) <==> "secrets.local.yaml" !in m.missing)
    && (forall p :: p in t <==> p == MANIFEST || p == CHECKSUM || p in Paths(m.records))
    && (forall p :: p in t ==> t[p].File?)
  }

  /** The files a sound snapshot's manifest names. */
  ghost function Named(t: Tree): Tree
    requires Sound(t)
  {
    map p | p in t && p in Paths(ReadManifest(t).value.records) :: t[p]
  }

  // ---- Verification ------------------------------------------------------

  datatype Error = ManifestInvalid | MissingFile(path: Path) | SizeMismatch(path: Path) | HashMismatch(path: Path) | UnsafeLink | Extra(path: Path)

  lemma PathsAt(records: seq<Record>, p: Path)
    ensures p in Paths(records) <==> exists i :: 0 <= i < |records| && records[i].path == p
  {
    if p in Paths(records) {
      var i :| 0 <= i < |Paths(records)| && Paths(records)[i] == p;
      assert records[i].path == p;
    }
    if i :| 0 <= i < |records| && records[i].path == p {
      assert Paths(records)[i] == p;
    }
  }

  /** The record loop: entries are checked one by one, errors collected. */
  method CheckRecords(t: Tree, records: seq<Record>) returns (errors: seq<Error>, seen: set<Path>)
    ensures errors == [] <==> Distinct(Paths(records)) && forall i :: 0 <= i < |records| ==> RecordOk(records[i]) && Matches(t, records[i])
    ensures errors == [] ==> forall p :: p in seen <==> p in Paths(records)
  {
    errors, seen := [], {};
    for n := 0 to |records|
      invariant errors == [] <==> forall i :: 0 <= i < n ==> Matches(t, records[i])
      invariant forall i :: 0 <= i < n ==> RecordOk(records[i])
      invariant forall p :: p in seen <==> exists i :: 0 <= i < n && records[i].path == p
      invariant forall i, j :: 0 <= i < j < n ==> records[i].path != records[j].path
    {
      var r := records[n];
      if !RecordOk(r) { return [ManifestInvalid], {}; }
      if r.path in seen {
        var i :| 0 <= i < n && records[i].path == r.path;
        assert Paths(records)[i] == Paths(records)[n];
        return [ManifestInvalid], {};
      }
      seen := seen + {r.path};
      if r.path !in t {
        errors := errors + [MissingFile(r.path)];
      } else if t[r.path].Link? {
        errors := errors + [UnsafeLink];
      } else if Size(t[r.path].bytes) != r.size {
        errors := errors + [SizeMismatch(r.path)];
      } else if Hash(t[r.path].bytes) != r.hash {
        errors := errors + [HashMismatch(r.path)];
      }
    }
    forall p ensures p in seen <==> p in Paths(records) { PathsAt(records, p); }
  }

  /** No error is reported exactly when the snapshot is sound. */
  method VerifySnapshot(t: Tree) returns (errors: seq<Error>)
    ensures errors == [] <==> Sound(t)
  {
    var read := ReadManifest(t);
    if read.None? { return [ManifestInvalid]; }
    var m := read.value;
    var seen: set<Path>;
    errors, seen := CheckRecords(t, m.records);
    if errors != [] { return; }
    if CONFIG !in seen { errors := errors + [MissingFile(CONFIG)]; }
    if LAYOUT !in seen { errors := errors + [MissingFile(LAYOUT)]; }
    if (SECRETS in seen) == ("secrets.local.yaml" in m.missing) { errors := errors + [ManifestInvalid]; }
    if exists p :: p in t && t[p].Link? { return errors + [UnsafeLink]; }
    var extras := t.Keys - (seen + {MANIFEST, CHECKSUM});
    if extras != {} {
      var p :| p in extras;
      errors := errors + [Extra(p)];
    }
  }

  // ---- Creation ----------------------------------------------------------

  function Missing(t: Tree): seq<string> {
    (if exists p :: p in t && Under(["userdata"], p) then [] else ["userdata"])
    + (if SECRETS in t then [] else ["secrets.local.yaml"])
  }

  function Roots(t: Tree): map<Path, Root> {
    map p | p in t && RootOf(p).Some? :: RootOf(p).value
  }

  /** The records name exactly the files, each once, with digest and root. */
  ghost predicate Covers(records: seq<Record>, files: Tree, roots: map<Path, Root>) {
    && Distinct(Paths(records))
    && (forall p :: p in files <==> p in Paths(records))
    && (forall i :: 0 <= i < |records| ==> Recorded(records[i], files, roots))
  }

  predicate Recorded(r: Record, files: Tree, roots: map<Path, Root>) {
    Matches(files, r) && r.path in roots && roots[r.path] == r.root
  }

  /** The files with the manifest pair; `length` is that of the manifest's text. */
  function WithManifest(files: Tree, m: Manifest, length: nat): Tree {
    files[MANIFEST := File(Json(m, length))][CHECKSUM := File(Digest(Hash(Json(m, length))))]
  }

  ghost predicate SnapshotOf(s: Tree, t: Tree) {
    exists records: seq<Record>, length: nat ::
      Covers(records, Selected(t), Roots(t)) && s == WithManifest(Selected(t), Manifest(true, Missing(t), records), length)
  }

  /** What creation demands of the installation; `marker` accepts the content of a
      layout marker: JSON, an object, with an integer schema version. */
  ghost predicate Savable(t: Tree, marker: Bytes -> bool) {
    && CONFIG in t && LAYOUT in t
    && (forall p :: p in t && Walked(p) ==> t[p].File?)
    && t[LAYOUT].File? && marker(t[LAYOUT].bytes)
  }

  /** Names a file system can hold, and no links directly in characters/. */
  ghost predicate WellFormed(t: Tree) {
    forall p :: p in t ==> SafeRelative(p) && (|p| == 2 && p[0] == "characters" && !Walked(p) ==> t[p].File?)
  }

  /** The copy loop: each file is copied, digested and recorded. */
  method CopyFiles(from: Tree, roots: map<Path, Root>) returns (files: Tree, records: seq<Record>)
    requires roots.Keys == from.Keys && forall p :: p in from ==> from[p].File?
    ensures files == from && Covers(records, from, roots)
  {
    files, records := map[], [];
    var rest := from.Keys;
    while rest != {}
      invariant rest <= from.Keys
      invariant files == map p | p in from && p !in rest :: from[p]
      invariant Covers(records, files, roots)
      decreases rest
    {
      var p :| p in rest;
      var r := Record(p, Size(from[p].bytes), Hash(from[p].bytes), roots[p]);
      ghost var before := files;
      files := files[p := from[p]];
      CoversMore(records, before, roots, r, from[p]);
      records := records + [r];
      rest := rest - {p};
    }
  }

  lemma CoversMore(records: seq<Record>, files: Tree, roots: map<Path, Root>, r: Record, node: Node)
    requires Covers(records, files, roots) && r.path !in files && node == File(r.hash.of) && r.size == Size(r.hash.of) && r.path in roots && roots[r.path] == r.root
    ensures Covers(records + [r], files[r.path := node], roots)
  {
    var more, after := records + [r], files[r.path := node];
    assert Paths(more) == Paths(records) + [r.path];
    forall i | 0 <= i < |more| ensures Recorded(more[i], after, roots) {
      if i < |records| { assert Recorded(records[i], files, roots); }
    }
  }

  lemma SelectedFiles(t: Tree)
    requires WellFormed(t) && forall p :: p in t && Walked(p) ==> t[p].File?
    ensures forall p :: p in Selected(t) ==> t[p].File?
  {
    forall p | p in Selected(t) ensures t[p].File? {
      SelectedIsWalked(p);
    }
  }

  lemma SelectedIsWalked(p: Path)
    requires RootOf(p).Some?
    ensures Walked(p) || (|p| == 2 && p[0] == "characters")
  {
  }

  /** Creation succeeds exactly on a savable installation and gives its snapshot.
      `allowed`: protection mode, service state and output place are in order. */
  method CreateSnapshot(t: Tree, allowed: bool, marker: Bytes -> bool, length: nat) returns (s: Option<Tree>)
    requires WellFormed(t)
    ensures s.Some? <==> allowed && Savable(t, marker)
    ensures s.Some? ==> SnapshotOf(s.value, t)
  {
    if !allowed || CONFIG !in t { return None; }
    if exists p :: p in t && Walked(p) && t[p].Link? { return None; }
    if LAYOUT !in t || t[LAYOUT].Link? || !marker(t[LAYOUT].bytes) { return None; }
    SelectedFiles(t);
    var files, records := CopyFiles(Selected(t), Roots(t));
    s := Some(WithManifest(files, Manifest(true, Missing(t), records), length));
  }

  lemma SelectedBelongs(p: Path)
    requires RootOf(p).Some?
    ensures p != [] && BelongsTo(p, RootOf(p).value) && p != MANIFEST && p != CHECKSUM
  {
  }

  lemma MissingIsOk(t: Tree)
    ensures MissingOk(Missing(t)) && ("secrets.local.yaml" in Missing(t) <==> SECRETS !in t)
  {
  }

  lemma RequiredAreSelected(t: Tree)
    ensures (CONFIG in t <==> CONFIG in Selected(t)) && (LAYOUT in t <==> LAYOUT in Selected(t)) && (SECRETS in t <==> SECRETS in Selected(t))
  {
    assert LAYOUT[0] == "data" && LAYOUT[1] == "layout_version.json";
    assert RootOf(CONFIG).Some? && RootOf(LAYOUT).Some? && RootOf(SECRETS).Some?;
  }

  /** A place a manifest may name and the manifest pair does not occupy. */
  predicate Placed(p: Path, root: Root) {
    SafeRelative(p) && BelongsTo(p, root) && p != MANIFEST && p != CHECKSUM
  }

  lemma CoveredIsSound(files: Tree, roots: map<Path, Root>, missing: seq<string>, records: seq<Record>, length: nat)
    requires Covers(records, files, roots) && MissingOk(missing)
    requires forall p :: p in files ==> files[p].File? && p in roots && Placed(p, roots[p])
    requires CONFIG in files && LAYOUT in files && (SECRETS in files <==> "secrets.local.yaml" !in missing)
    ensures var s := WithManifest(files, Manifest(true, missing, records), length); Sound(s) && Named(s) == files
  {
    var m := Manifest(true, missing, records);
    var s := WithManifest(files, m, length);
    assert ReadManifest(s) == Some(m);
    forall i | 0 <= i < |records| ensures RecordOk(records[i]) && Matches(s, records[i]) {
      assert Recorded(records[i], files, roots);
    }
  }

  /** A snapshot just created always verifies, and the files it names are exactly the
      installation's selected files, byte for byte. */
  lemma CreatedIsSound(t: Tree, s: Tree, marker: Bytes -> bool)
    requires WellFormed(t) && Savable(t, marker) && SnapshotOf(s, t)
    ensures Sound(s) && Named(s) == Selected(t)
  {
    var files, roots := Selected(t), Roots(t);
    var records: seq<Record>, length: nat :|
      Covers(records, files, roots) && s == WithManifest(files, Manifest(true, Missing(t), records), length);
    MissingIsOk(t);
    RequiredAreSelected(t);
    SelectedFiles(t);
    forall p | p in files ensures p in roots && Placed(p, roots[p]) { SelectedBelongs(p); }
    CoveredIsSound(files, roots, Missing(t), records, length);
  }

  // ---- Restore -----------------------------------------------------------

  /** The total size the manifest states. */
  function SumSizes(records: seq<Record>): nat
    decreases |records|
  {
    if records == [] then 0 else SumSizes(records[..|records| - 1]) + records[|records| - 1].size
  }

  function FoldPath(p: Path, fold: string -> string): Path {
    seq(|p|, i requires 0 <= i < |p| => fold(p[i]))
  }

  predicate Folded(records: seq<Record>, fold: string -> string) {
    forall i, j :: 0 <= i < j < |records| ==> FoldPath(records[i].path, fold) != FoldPath(records[j].path, fold)
  }

  /** `unsafe` is the platform's path rule, `fold` its case folding, `starts` the
      offline start-up check of the restored tree. */
  ghost predicate Restorable(t: Tree, fold: string -> string, unsafe: Path -> bool, starts: Tree -> bool) {
    && Sound(t)
    && var records := ReadManifest(t).value.records;
    && |records| <= MAX_FILES && SumSizes(records) <= MAX_BYTES
    && (forall i :: 0 <= i < |records| ==> !unsafe(records[i].path))
    && Folded(records, fold)
    && starts(Named(t))
  }

  /** The folded paths of the first n records. */
  ghost predicate SeenKeys(seen: set<Path>, records: seq<Record>, n: nat, fold: string -> string)
    requires n <= |records|
  {
    forall k :: k in seen <==> exists i :: 0 <= i < n && FoldPath(records[i].path, fold) == k
  }

  /** The files of the first n records. */
  ghost predicate Copied(files: Tree, t: Tree, records: seq<Record>, n: nat)
    requires n <= |records|
  {
    && (forall p :: p in files <==> exists i :: 0 <= i < n && records[i].path == p)
    && (forall p :: p in files ==> p in t && files[p] == t[p])
  }

  lemma CopyOne(files: Tree, t: Tree, records: seq<Record>, n: nat)
    requires n < |records| && Copied(files, t, records, n) && Matches(t, records[n])
    ensures Copied(files[records[n].path := t[records[n].path]], t, records, n + 1)
  {
  }

  lemma SeeOne(seen: set<Path>, records: seq<Record>, n: nat, fold: string -> string)
    requires n < |records| && SeenKeys(seen, records, n, fold)
    ensures SeenKeys(seen + {FoldPath(records[n].path, fold)}, records, n + 1, fold)
  {
  }

  /** The first n paths are allowed and apart under case folding. */
  ghost predicate Cleared(records: seq<Record>, n: nat, fold: string -> string, unsafe: Path -> bool)
    requires n <= |records|
  {
    && (forall i :: 0 <= i < n ==> !unsafe(records[i].path))
    && (forall i, j :: 0 <= i < j < n ==> FoldPath(records[i].path, fold) != FoldPath(records[j].path, fold))
  }

  lemma ClearOne(seen: set<Path>, records: seq<Record>, n: nat, fold: string -> string, unsafe: Path -> bool)
    requires n < |records| && SeenKeys(seen, records, n, fold) && Cleared(records, n, fold, unsafe)
    ensures Cleared(records, n + 1, fold, unsafe) <==> !unsafe(records[n].path) && FoldPath(records[n].path, fold) !in seen
    ensures FoldPath(records[n].path, fold) in seen ==> !Folded(records, fold)
  {
    if FoldPath(records[n].path, fold) in seen {
      var i :| 0 <= i < n && FoldPath(records[i].path, fold) == FoldPath(records[n].path, fold);
      assert !Folded(records, fold);
    }
  }

  lemma CopiedAll(files: Tree, t: Tree, records: seq<Record>)
    requires Copied(files, t, records, |records|)
    ensures files == map p | p in t && p in Paths(records) :: t[p]
  {
    forall p ensures p in files <==> p in Paths(records) { PathsAt(records, p); }
  }

  /** The restore loop: each path is checked, then its file copied. */
  method RestoreFiles(t: Tree, records: seq<Record>, fold: string -> string, unsafe: Path -> bool) returns (staging: Option<Tree>)
    requires forall i :: 0 <= i < |records| ==> Matches(t, records[i])
    ensures staging.Some? <==> (forall i :: 0 <= i < |records| ==> !unsafe(records[i].path)) && Folded(records, fold)
    ensures staging.Some? ==> staging.value == map p | p in t && p in Paths(records) :: t[p]
  {
    var seen: set<Path>, files: Tree := {}, map[];
    for n := 0 to |records|
      invariant Cleared(records, n, fold, unsafe) && SeenKeys(seen, records, n, fold) && Copied(files, t, records, n)
    {
      var path := records[n].path;
      ClearOne(seen, records, n, fold, unsafe);
      if unsafe(path) { return None; }
      var key := FoldPath(path, fold);
      if key in seen { return None; }
      SeeOne(seen, records, n, fold);
      CopyOne(files, t, records, n);
      seen := seen + {key};
      files := files[path := t[path]];
    }
    CopiedAll(files, t, records);
    staging := Some(files);
  }

  /** Everything is restored or nothing is; `allowed`: the target is in order. */
  method RestoreSnapshot(t: Tree, allowed: bool, fold: string -> string, unsafe: Path -> bool, starts: Tree -> bool, report: Bytes)
    returns (r: Option<Tree>)
    ensures r.Some? <==> allowed && Restorable(t, fold, unsafe, starts)
    ensures r.Some? ==> r.value == Named(t)[REPORT := File(report)]
  {
    var errors := VerifySnapshot(t);
    if errors != [] { return None; }
    var records := ReadManifest(t).value.records;
    if !allowed || |records| > MAX_FILES || SumSizes(records) > MAX_BYTES { return None; }
    var staging := RestoreFiles(t, records, fold, unsafe);
    if staging.None? { return None; }
    assert staging.value == Named(t);
    if !starts(staging.value) { return None; }
    r := Some(staging.value[REPORT := File(report)]);
  }

  /** No two restored paths are equal after case folding. */
  lemma RestoredPathsDiffer(t: Tree, fold: string -> string, unsafe: Path -> bool, starts: Tree -> bool, p: Path, q: Path)
    requires Restorable(t, fold, unsafe, starts) && p in Named(t) && q in Named(t) && p != q
    ensures FoldPath(p, fold) != FoldPath(q, fold)
  {
    var records := ReadManifest(t).value.records;
    PathsAt(records, p);
    PathsAt(records, q);
  }

  lemma {:induction false} DistinctCount(paths: seq<Path>, names: set<Path>)
    requires Distinct(paths) && forall p :: p in names <==> p in paths
    ensures |paths| == |names|
    decreases |paths|
  {
    if paths == [] {
      assert names == {};
    } else {
      var front, last := paths[..|paths| - 1], paths[|paths| - 1];
      assert paths == front + [last];
      DistinctCount(front, names - {last});
    }
  }

  /** No two of the paths are equal after case folding. */
  ghost predicate FoldsApart(t: Tree, fold: string -> string) {
    forall p, q :: p in t && q in t && p != q ==> FoldPath(p, fold) != FoldPath(q, fold)
  }

  lemma FoldedIs(records: seq<Record>, files: Tree, fold: string -> string)
    requires Distinct(Paths(records)) && forall p :: p in files <==> p in Paths(records)
    ensures Folded(records, fold) <==> FoldsApart(files, fold)
  {
    forall p ensures p in files <==> exists i :: 0 <= i < |records| && records[i].path == p { PathsAt(records, p); }
    forall i, j | 0 <= i < j < |records| ensures records[i].path != records[j].path {
      assert Paths(records)[i] != Paths(records)[j];
    }
  }

  lemma UnsafeIs(records: seq<Record>, files: Tree, unsafe: Path -> bool)
    requires forall p :: p in files <==> p in Paths(records)
    ensures (forall i :: 0 <= i < |records| ==> !unsafe(records[i].path)) <==> (forall p :: p in files ==> !unsafe(p))
  {
    forall p ensures p in files <==> exists i :: 0 <= i < |records| && records[i].path == p { PathsAt(records, p); }
  }

  function NodeSize(n: Node): nat {
    if n.File? then Size(n.bytes) else 0
  }

  /** The total size of the files of a tree. */
  ghost function TotalSize(t: Tree): nat
    decreases |t.Keys|
  {
    if t.Keys == {} then 0
    else
      var p :| p in t.Keys;
      assert (t - {p}).Keys == t.Keys - {p};
      NodeSize(t[p]) + TotalSize(t - {p})
  }

  /** The total does not depend on the order in which files are taken. */
  lemma {:induction false} TotalWithout(t: Tree, p: Path)
    requires p in t
    ensures TotalSize(t) == NodeSize(t[p]) + TotalSize(t - {p})
    decreases |t.Keys|
  {
    var q: Path :| q in t.Keys && TotalSize(t) == NodeSize(t[q]) + TotalSize(t - {q});
    if q != p {
      assert (t - {q}).Keys == t.Keys - {q} && (t - {p}).Keys == t.Keys - {p};
      TotalWithout(t - {q}, p);
      TotalWithout(t - {p}, q);
      assert t - {q} - {p} == t - {p} - {q};
    }
  }

  lemma DistinctFront(front: seq<Path>, last: Path)
    requires Distinct(front + [last])
    ensures Distinct(front) && last !in front
  {
    forall i, j | 0 <= i < j < |front| ensures front[i] != front[j] {
      assert (front + [last])[i] != (front + [last])[j];
    }
    forall i | 0 <= i < |front| ensures front[i] != last {
      assert (front + [last])[i] != (front + [last])[|front|];
    }
  }

  lemma {:induction false} SumIsTotal(records: seq<Record>, files: Tree)
    requires Distinct(Paths(records)) && forall p :: p in files <==> p in Paths(records)
    requires forall i :: 0 <= i < |records| ==> Matches(files, records[i])
    ensures SumSizes(records) == TotalSize(files)
    decreases |records|
  {
    if records == [] {
      assert files.Keys == {};
    } else {
      var front, last := records[..|records| - 1], records[|records| - 1];
      var rest := files - {last.path};
      assert Paths(records) == Paths(front) + [last.path];
      DistinctFront(Paths(front), last.path);
      assert Matches(files, last);
      forall i | 0 <= i < |front| ensures Matches(rest, front[i]) {
        assert Matches(files, records[i]) && Paths(records)[i] != Paths(records)[|front|];
      }
      SumIsTotal(front, rest);
      TotalWithout(files, last.path);
    }
  }

  /** What restoring asks of the files themselves. */
  ghost predicate FilesRestorable(files: Tree, fold: string -> string, unsafe: Path -> bool, starts: Tree -> bool) {
    && |files.Keys| <= MAX_FILES && TotalSize(files) <= MAX_BYTES
    && (forall p :: p in files ==> !unsafe(p)) && FoldsApart(files, fold) && starts(files)
  }

  lemma RestorableIs(s: Tree, fold: string -> string, unsafe: Path -> bool, starts: Tree -> bool)
    requires Sound(s)
    ensures Restorable(s, fold, unsafe, starts) <==> FilesRestorable(Named(s), fold, unsafe, starts)
  {
    NamedRecords(s);
    RecordsAre(ReadManifest(s).value.records, Named(s), fold, unsafe);
  }

  /** Save and restore, end to end: the snapshot of an installation can be restored if
      and only if its selected files are few enough, together small enough, have names
      the platform allows, stay apart under case folding and start up. */
  lemma CreatedIsRestorable(t: Tree, s: Tree, marker: Bytes -> bool, fold: string -> string, unsafe: Path -> bool, starts: Tree -> bool)
    requires WellFormed(t) && Savable(t, marker) && SnapshotOf(s, t)
    ensures Restorable(s, fold, unsafe, starts) <==> FilesRestorable(Selected(t), fold, unsafe, starts)
  {
    CreatedIsSound(t, s, marker);
    RestorableIs(s, fold, unsafe, starts);
  }

  lemma NamedRecords(s: Tree)
    requires Sound(s)
    ensures var records := ReadManifest(s).value.records;
      && Distinct(Paths(records)) && (forall p :: p in Named(s) <==> p in Paths(records))
      && (forall i :: 0 <= i < |records| ==> Matches(Named(s), records[i]))
  {
    var records := ReadManifest(s).value.records;
    forall i | 0 <= i < |records| ensures Matches(Named(s), records[i]) {
      assert Matches(s, records[i]) && Paths(records)[i] in Paths(records);
    }
  }

  lemma RecordsAre(records: seq<Record>, files: Tree, fold: string -> string, unsafe: Path -> bool)
    requires Distinct(Paths(records)) && forall p :: p in files <==> p in Paths(records)
    requires forall i :: 0 <= i < |records| ==> Matches(files, records[i])
    ensures |records| == |files.Keys| && SumSizes(records) == TotalSize(files)
    ensures (forall i :: 0 <= i < |records| ==> !unsafe(records[i].path)) <==> (forall p :: p in files ==> !unsafe(p))
    ensures Folded(records, fold) <==> FoldsApart(files, fold)
  {
    DistinctCount(Paths(records), files.Keys);
    SumIsTotal(records, files);
    FoldedIs(records, files, fold);
    UnsafeIs(records, files, unsafe);
  }

  /** Tampering is found: changing, removing or adding any one file of a sound snapshot
      outside the manifest pair leaves one that does not verify. */
  lemma TamperingIsFound(t: Tree, p: Path, node: Node)
    requires Sound(t) && p != MANIFEST && p != CHECKSUM
    ensures !(p in t && t[p] == node) ==> !Sound(t[p := node])
    ensures p in t ==> !Sound(t - {p})
  {
    var records := ReadManifest(t).value.records;
    var changed, removed := t[p := node], t - {p};
    assert ReadManifest(changed) == ReadManifest(t) == ReadManifest(removed);
    PathsAt(records, p);
    if p in t {
      var i :| 0 <= i < |records| && records[i].path == p;
      assert Matches(t, records[i]);
      assert !Matches(removed, records[i]);
      assert node != t[p] ==> !Matches(changed, records[i]) || node.Link?;
    }
  }
}
