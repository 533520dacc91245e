/** Which files a created snapshot holds, place by place. */
module BackupSelection {
  import opened SafeWrite
  import opened Sequences
  import opened Backup

  /** A file of a derived index, wherever such a tree lies. */
  ghost predicate DerivedIndex(p: Path) {
    || (exists front: Path, a, b, name :: p == front + ["data", "runtime", "memory", a, b, name] && "vector_store.db" <= name)
    || (exists front: Path, a, name :: p == front + ["data", "chars", a, "memory_index", name])
  }

  lemma VectorStoreShape(p: Path)
    ensures EndsLike(p, ["data", "runtime", "memory", "*", "*", "*"])
       <==> |p| >= 6 && p[|p| - 6] == "data" && p[|p| - 5] == "runtime" && p[|p| - 4] == "memory"
  {
    var n, pattern := |p|, ["data", "runtime", "memory", "*", "*", "*"];
    if EndsLike(p, pattern) {
      assert pattern[0] == p[n - 6 + 0] && pattern[1] == p[n - 6 + 1] && pattern[2] == p[n - 6 + 2];
    }
  }

  lemma MemoryIndexShape(p: Path)
    ensures EndsLike(p, ["data", "chars", "*", "memory_index", "*"])
       <==> |p| >= 5 && p[|p| - 5] == "data" && p[|p| - 4] == "chars" && p[|p| - 2] == "memory_index"
  {
    var n, pattern := |p|, ["data", "chars", "*", "memory_index", "*"];
    if EndsLike(p, pattern) {
      assert pattern[0] == p[n - 5 + 0] && pattern[1] == p[n - 5 + 1] && pattern[3] == p[n - 5 + 3];
    }
  }

  lemma IndexByShape(p: Path)
    ensures DerivedIndex(p) <==>
      || (EndsLike(p, ["data", "runtime", "memory", "*", "*", "*"]) && "vector_store.db" <= p[|p| - 1])
      || EndsLike(p, ["data", "chars", "*", "memory_index", "*"])
  {
    var n := |p|;
    VectorStoreShape(p);
    MemoryIndexShape(p);
    if EndsLike(p, ["data", "runtime", "memory", "*", "*", "*"]) && "vector_store.db" <= p[n - 1] {
      assert p == p[..n - 6] + ["data", "runtime", "memory", p[n - 3], p[n - 2], p[n - 1]];
    }
    if EndsLike(p, ["data", "chars", "*", "memory_index", "*"]) {
      assert p == p[..n - 5] + ["data", "chars", p[n - 3], "memory_index", p[n - 1]];
    }
  }

  /** Below data/, what is not kept: logs, caches, the inbox, debug output, pending
      perception, the request log and the service state. */
  predicate Transient(rest: Path) {
    rest != [] &&
    (|| rest[0] in {"logs", "cache", "inbox", "debug"}
     || ["runtime", "pending_perception"] <= rest
     || ["runtime", "observability", "llm_debug_requests.jsonl"] <= rest
     || ["runtime", "service_state.json"] <= rest)
  }

  lemma ExcludedIs(p: Path)
    ensures Excluded(p) <==> (p != [] && p[0] == "data" && Transient(p[1..])) || DerivedIndex(p)
  {
    IndexByShape(p);
    if p != [] && p[0] == "data" {
      assert p == ["data"] + p[1..];
    }
  }

  /** The files of a created snapshot, place by place: everything below userdata/ and data/
      but derived indexes and, below data/, what is transient; the two configuration files;
      private characters, stickers and character content. */
  ghost predicate Kept(p: Path) {
    || (|p| >= 2 && p[0] == "userdata" && !DerivedIndex(p))
    || (|p| >= 2 && p[0] == "data" && !DerivedIndex(p) && !Transient(p[1..]))
    || p == ["config.yaml"] || p == ["secrets.local.yaml"]
    || (|p| == 2 && p[0] == "characters" && PrivateCharacter(p[1]))
    || (|p| >= 3 && p[0] == "characters" && p[1] in {"reality", "dream_presets", "dream_worlds"})
    || (|p| >= 3 && p[0] == "assets" && p[1] == "stickers" && p[|p| - 1] != ".gitkeep")
    || (|p| >= 4 && p[0] == "content" && p[1] == "characters" && p[2] != "default"
        && !(exists a, b :: p[|p| - 1] == a + ".example." + b))
  }

  /** Three shipped names are not private; the rest is by suffix. */
  ghost predicate PrivateCharacter(name: string) {
    && name !in {"default.json", "default_author_notes.json", "dream_postcards", "reality", "dream_presets", "dream_worlds"}
    && exists stem, suffix :: name == stem + suffix && stem != "" && Lower(suffix) in {".json", ".txt", ".md"}
  }

  lemma SuffixIs(name: string, suffix: string)
    requires suffix in {".json", ".txt", ".md"}
    ensures HasSuffix(name, suffix) <==> exists stem, s :: name == stem + s && stem != "" && Lower(s) == suffix
  {
    if HasSuffix(name, suffix) {
      var n := |name| - |suffix|;
      assert name == name[..n] + name[n..] && Lower(name[n..]) == suffix;
    }
    forall stem, s | name == stem + s && stem != "" && Lower(s) == suffix ensures HasSuffix(name, suffix) {
      assert |Lower(s)| == |s| && name[|name| - |suffix|..] == s;
    }
  }

  lemma PrivateIs(name: string)
    requires name !in {"default.json", "default_author_notes.json", "dream_postcards", "reality", "dream_presets", "dream_worlds"}
    ensures PrivateCharacter(name) <==> HasSuffix(name, ".json") || HasSuffix(name, ".txt") || HasSuffix(name, ".md")
  {
    SuffixIs(name, ".json");
    SuffixIs(name, ".txt");
    SuffixIs(name, ".md");
  }

  lemma ExampleIs(name: string)
    ensures HasExample(name) <==> exists a, b :: name == a + ".example." + b
  {
    if HasExample(name) {
      var i :| 0 <= i <= |name| && ".example." <= name[i..];
      assert name == name[..i] + ".example." + name[i..][9..];
    }
    forall a, b | name == a + ".example." + b ensures HasExample(name) {
      assert name[|a|..] == ".example." + b;
    }
  }

  lemma LegacyIs(p: Path)
    requires p != [] && p[0] !in {"data", "userdata"} && p != CONFIG && p != SECRETS
    ensures LegacyFile(p) <==> Kept(p)
  {
    if |p| == 2 && p[0] == "characters"
       && p[1] !in {"default.json", "default_author_notes.json", "dream_postcards", "reality", "dream_presets", "dream_worlds"}
    {
      PrivateIs(p[1]);
    }
    if |p| >= 4 { ExampleIs(p[|p| - 1]); }
  }

  lemma RootIs(p: Path)
    ensures RootOf(p).Some? <==> Kept(p)
  {
    ExcludedIs(p);
    if p != [] && p[0] !in {"data", "userdata"} && p != CONFIG && p != SECRETS {
      LegacyIs(p);
    }
  }

  ghost function KeptFiles(t: Tree): Tree {
    map p | p in t && Kept(p) :: t[p]
  }

  lemma SelectedAreKept(t: Tree)
    ensures Selected(t) == KeptFiles(t)
  {
    forall p ensures RootOf(p).Some? <==> Kept(p) { RootIs(p); }
  }

  /** The files a created snapshot names are exactly those of the installation whose place
      is one of those kept, with their content. */
  lemma SnapshotKeeps(t: Tree, s: Tree, marker: Bytes -> bool)
    requires WellFormed(t) && Savable(t, marker) && SnapshotOf(s, t)
    ensures Sound(s) && Named(s) == KeptFiles(t)
  {
    CreatedIsSound(t, s, marker);
    SelectedAreKept(t);
  }

  /** Whatever a manifest says, a snapshot that verifies names no path that leaves the
      installation, and only places that snapshots are made of. */
  lemma NamedPathsAreKnown(s: Tree, p: Path)
    requires Sound(s) && p in Named(s)
    ensures p != [] && forall i :: 0 <= i < |p| ==> p[i] != "" && p[i] != "." && p[i] != ".."
    ensures p[0] in {"data", "userdata", "characters"} || p == ["config.yaml"] || p == ["secrets.local.yaml"]
         || (|p| >= 2 && p[0] == "assets" && p[1] == "stickers") || (|p| >= 2 && p[0] == "content" && p[1] == "characters")
  {
    NamedRecords(s);
    var records := ReadManifest(s).value.records;
    var i :| 0 <= i < |records| && records[i].path == p;
    assert RecordOk(records[i]);
    forall k | 0 <= k < |p| ensures p[k] !in {"", ".", ".."} { }
    assert Under(["assets", "stickers"], p) ==> p[0] == ["assets", "stickers"][0] && p[1] == ["assets", "stickers"][1];
    assert Under(["content", "characters"], p) ==> p[0] == ["content", "characters"][0] && p[1] == ["content", "characters"][1];
  }
}
