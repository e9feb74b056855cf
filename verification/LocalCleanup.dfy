/** Removing a backup's local working files, and a deleted website node's mirror cache. */
module LocalCleanup {
  import opened Paths
  import opened RestoreFiles

  datatype PathType = DirOnly | ZipOnly | Both

  /** shutil.rmtree(target, ignore_errors=True): a directory goes with everything below it; anything
      else is left alone. */
  function RemoveTree(e: Entries, target: Path): Entries {
    if target in e && e[target].Dir? then map p | p in e && !(target <= p) :: e[p] else e
  }

  /** os.remove(target): a missing file is fine; a directory makes it raise. */
  function RemoveFile(e: Entries, target: Path): (Entries, bool) {
    if target !in e then (e, true)
    else if e[target].File? then (e - {target}, true)
    else (e, false)
  }

  /** The nested _remove(name, is_dir). */
  function RemoveNamed(e: Entries, storage: Path, name: string, isDir: bool): (Entries, bool) {
    var target := Resolve(storage, name);
    if !StrictlyUnder(storage, target) then (e, true)
    else if isDir then (RemoveTree(e, target), true)
    else RemoveFile(e, target)
  }

  /** delete_from_disk: the resulting entries, and whether the task ends without a retry. */
  function AfterDelete(e: Entries, storage: Path, uuid: string, what: PathType): (Entries, bool) {
    var tree := if what.ZipOnly? then e else RemoveNamed(e, storage, uuid, true).0;
    if what.DirOnly? then (tree, true) else RemoveNamed(tree, storage, uuid + ".zip", false)
  }

  /** The cache removal of node_delete_requested. */
  function AfterCacheRemoval(e: Entries, storage: Path, uuid: string): (Entries, bool) {
    var base := CacheBase(storage, uuid);
    if !StrictlyUnder(storage, base) then (e, true)
    else
      var tree := RemoveTree(e, base);
      var (first, ok) := RemoveFile(tree, WithSuffix(base, ".meta.json"));
      if ok then RemoveFile(first, WithSuffix(base, ".lock")) else (first, false)
  }

  /** realpath(join(storage, "website_cache", uuid)) */
  function CacheBase(storage: Path, uuid: string): Path {
    Resolve(storage + ["website_cache"], uuid)
  }

  /** The path named by a path string with text added at its end. */
  function WithSuffix(p: Path, suffix: string): Path
    requires p != []
  {
    p[..|p| - 1] + [p[|p| - 1] + suffix]
  }

  class Disk {
    var entries: Entries

    /** As written: on path strings, confined by the commonpath test. */
    method Remove(cwd: Path, storage: Path, name: string, isDir: bool) returns (ok: bool)
      requires Normal(cwd) && Normal(storage)
      modifies this
      ensures (entries, ok) == RemoveNamed(old(entries), storage, name, isDir)
    {
      var storageDir := Render(storage);
      var target := RealPath(cwd, Join(storageDir, name));
      ghost var p := Resolve(storage, name);
      RealPathOfJoin(cwd, storage, name);
      ResolveIsNormal(storage, name);
      CommonTest(storage, p);
      SameString(p, storage);
      if target == storageDir || CommonPath(storageDir, target) != storageDir {
        return true;
      }
      ComponentsOfRender(p);
      var at := Kept(Split(target));
      if isDir {
        entries := RemoveTree(entries, at);
        ok := true;
      } else {
        entries, ok := RemoveFile(entries, at).0, RemoveFile(entries, at).1;
      }
    }

    method DeleteFromDisk(cwd: Path, storage: Path, uuid: string, what: PathType) returns (ok: bool)
      requires Normal(cwd) && Normal(storage)
      modifies this
      ensures (entries, ok) == AfterDelete(old(entries), storage, uuid, what)
    {
      ok := true;
      if what.DirOnly? || what.Both? {
        ok := Remove(cwd, storage, uuid, true);
      }
      if what.ZipOnly? || what.Both? {
        ok := Remove(cwd, storage, uuid + ".zip", false);
      }
    }

    method RemoveWebsiteCache(cwd: Path, storage: Path, uuid: string) returns (ok: bool)
      requires Normal(cwd) && Normal(storage)
      modifies this
      ensures (entries, ok) == AfterCacheRemoval(old(entries), storage, uuid)
    {
      var storageDir := Render(storage);
      var home := storage + ["website_cache"];
      assert Normal(home);
      RealPathOfJoin(cwd, home, uuid);
      ghost var base := CacheBase(storage, uuid);
      ResolveIsNormal(home, uuid);
      var cacheBase := RealPath(cwd, Join(Render(home), uuid));
      CommonTest(storage, base);
      SameString(base, storage);
      if cacheBase != storageDir && CommonPath(storageDir, cacheBase) == storageDir {
        ComponentsOfRender(base);
        entries := RemoveTree(entries, Kept(Split(cacheBase)));
        SuffixedString(base, ".meta.json");
        SuffixedString(base, ".lock");
        entries, ok := RemoveFile(entries, Kept(Split(cacheBase + ".meta.json"))).0,
                       RemoveFile(entries, Kept(Split(cacheBase + ".meta.json"))).1;
        if !ok {
          return;
        }
        entries, ok := RemoveFile(entries, Kept(Split(cacheBase + ".lock"))).0,
                       RemoveFile(entries, Kept(Split(cacheBase + ".lock"))).1;
      } else {
        ok := true;
      }
    }
  }

  lemma {:induction false} SlashedSnoc(p: Path, c: string)
    ensures Slashed(p + [c]) == Slashed(p) + "/" + c
  {
    if p == [] {
      assert [c][1..] == [];
    } else {
      assert (p + [c])[1..] == p[1..] + [c];
      SlashedSnoc(p[1..], c);
    }
  }

  /** Text added to a path string renames its last component. */
  lemma SuffixedString(p: Path, suffix: string)
    requires p != [] && Normal(p) && '/' !in suffix && |suffix| > 2
    ensures Kept(Split(Render(p) + suffix)) == WithSuffix(p, suffix)
    ensures Normal(WithSuffix(p, suffix))
  {
    SuffixedRender(p, suffix);
    SuffixedNormal(p, suffix);
    ComponentsOfRender(WithSuffix(p, suffix));
  }

  lemma SuffixedRender(p: Path, suffix: string)
    requires p != []
    ensures Render(p) + suffix == Render(WithSuffix(p, suffix))
  {
    var init, last := p[..|p| - 1], p[|p| - 1];
    assert p == init + [last];
    SlashedSnoc(init, last);
    SlashedSnoc(init, last + suffix);
    assert Slashed(init) + "/" + last + suffix == Slashed(init) + "/" + (last + suffix);
  }

  lemma SuffixedNormal(p: Path, suffix: string)
    requires p != [] && Normal(p) && '/' !in suffix && |suffix| > 2
    ensures Normal(WithSuffix(p, suffix))
  {
    assert p[|p| - 1] in p;
    forall c | c in WithSuffix(p, suffix) ensures Plain(c) {
      if c in p[..|p| - 1] {
        assert c in p;
      } else {
        assert c == p[|p| - 1] + suffix && |c| > 2;
      }
    }
  }

  /** Only entries strictly below the directory go, and nothing is changed or added. */
  ghost predicate OnlyBelowRemoved(e: Entries, f: Entries, storage: Path) {
    && (forall p | p in f :: p in e && f[p] == e[p])
    && (forall p | p in e && p !in f :: StrictlyUnder(storage, p))
  }

  /** Whatever the uuid is, cleanup removes only entries strictly below the storage directory: never
      the directory itself, never anything outside; and a second run removes nothing more. */
  lemma CleanupIsConfinedAndIdempotent(e: Entries, storage: Path, uuid: string, what: PathType)
    ensures OnlyBelowRemoved(e, AfterDelete(e, storage, uuid, what).0, storage)
    ensures AfterDelete(AfterDelete(e, storage, uuid, what).0, storage, uuid, what)
         == AfterDelete(e, storage, uuid, what)
  {
    var f := AfterDelete(e, storage, uuid, what).0;
    var tree := if what.ZipOnly? then e else RemoveNamed(e, storage, uuid, true).0;
    assert f == tree || f == tree - {Resolve(storage, uuid + ".zip")};
    assert RemoveNamed(tree, storage, uuid, true).0 == tree || what.ZipOnly?;
    assert RemoveNamed(f, storage, uuid, true).0 == f || what.ZipOnly?;
  }

  /** For a uuid that is a plain name, exactly what was asked for is removed: its working directory with all
      it holds, its zip file, or both; its run log stays. */
  lemma CleanupRemovesExactly(e: Entries, storage: Path, uuid: string, what: PathType)
    requires Normal(storage) && Plain(uuid)
    ensures var dir, zip, log := storage + [uuid], storage + [uuid + ".zip"], storage + [uuid + ".log"];
            var (f, ok) := AfterDelete(e, storage, uuid, what);
            && (forall p | p in e :: p !in f <==>
                  || ((what == DirOnly || what == Both) && dir in e && e[dir].Dir? && dir <= p)
                  || ((what == ZipOnly || what == Both) && p == zip && e[zip].File?))
            && (log in e ==> log in f)
            && (ok <==> what == DirOnly || (zip in e ==> e[zip].File?))
  {
    PlainNameResolves(storage, uuid, ".zip");
    SplitComponent(uuid, "");
    assert uuid[0] in uuid;
    assert Walk(storage, [uuid]) == Walk(storage + [uuid], [uuid][1..]);
    assert Resolve(storage, uuid) == storage + [uuid];
    var dir, zip, log := storage + [uuid], storage + [uuid + ".zip"], storage + [uuid + ".log"];
    var n := |storage|;
    assert dir[n] == uuid && zip[n] == uuid + ".zip" && log[n] == uuid + ".log";
    assert |uuid + ".zip"| == |uuid| + 4 && |uuid + ".log"| == |uuid| + 4;
    assert (uuid + ".zip")[|uuid| + 1] == 'z' && (uuid + ".log")[|uuid| + 1] == 'l';
    assert !(dir <= zip) && !(dir <= log) && zip != log;
  }

  /** The same for the cache: whatever the node's uuid is, only entries strictly below the storage
      directory are removed, the two files beside the cache directory included; and a second run removes
      nothing more. */
  lemma CacheRemovalIsConfined(e: Entries, storage: Path, uuid: string)
    ensures OnlyBelowRemoved(e, AfterCacheRemoval(e, storage, uuid).0, storage)
    ensures AfterCacheRemoval(AfterCacheRemoval(e, storage, uuid).0, storage, uuid)
         == AfterCacheRemoval(e, storage, uuid)
  {
    var base := CacheBase(storage, uuid);
    if StrictlyUnder(storage, base) {
      var meta, lock := WithSuffix(base, ".meta.json"), WithSuffix(base, ".lock");
      assert storage < meta && storage < lock;
      var f := AfterCacheRemoval(e, storage, uuid).0;
      assert RemoveTree(f, base) == f;
    }
  }

  /** For a uuid that is a plain name, exactly the node's cache directory with all it holds and the two
      files beside it are removed, up to one of them being a directory. */
  lemma CacheRemovalRemovesExactly(e: Entries, storage: Path, uuid: string)
    requires Normal(storage) && Plain(uuid)
    ensures var home := storage + ["website_cache"];
            var dir, meta, lock := home + [uuid], home + [uuid + ".meta.json"], home + [uuid + ".lock"];
            var (f, ok) := AfterCacheRemoval(e, storage, uuid);
            && (forall p | p in e :: p !in f <==>
                  || (dir in e && e[dir].Dir? && dir <= p)
                  || (p == meta && e[meta].File?)
                  || (p == lock && e[lock].File? && (meta in e ==> e[meta].File?)))
            && (ok <==> (meta in e ==> e[meta].File?) && (lock in e ==> e[lock].File?))
  {
    var home := storage + ["website_cache"];
    var dir := home + [uuid];
    SplitComponent(uuid, "");
    assert uuid[0] in uuid;
    assert Walk(home, [uuid]) == Walk(home + [uuid], [uuid][1..]);
    assert CacheBase(storage, uuid) == dir;
    assert dir[..|storage|] == storage && StrictlyUnder(storage, dir);
    var meta, lock := WithSuffix(dir, ".meta.json"), WithSuffix(dir, ".lock");
    assert dir[..|dir| - 1] == home;
    assert meta == home + [uuid + ".meta.json"] && lock == home + [uuid + ".lock"];
    assert |uuid + ".meta.json"| == |uuid| + 10 && |uuid + ".lock"| == |uuid| + 5;
    assert dir[|home|] == uuid && meta[|home|] == uuid + ".meta.json" && lock[|home|] == uuid + ".lock";
    assert !(dir <= meta) && !(dir <= lock) && meta != lock;
  }
}
