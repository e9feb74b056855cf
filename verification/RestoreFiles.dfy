/** Materialising a stored backup and unpacking it, confined to its directories. */
module RestoreFiles {
  import opened Common
  import opened Paths

  datatype Entry = Dir | File(content: string)

  type Entries = map<Path, Entry>

  /** A member of a zip or tar archive. `isDir` is the type a tar gives its member; in a zip the name
      tells. */
  datatype Member = Member(name: string, isDir: bool, content: string)

  // -----------------------------------------------------------------------------------
  // Where members go
  // -----------------------------------------------------------------------------------

  /** What _check_members lets through: names that resolve to the destination or below it. */
  predicate Allowed(dest: Path, name: string) {
    var target := Resolve(dest, name);
    target == dest || (dest != [] && StrictlyUnder(dest, target))
  }

  function OnlyPlain(comps: seq<string>): Path {
    if comps == [] then []
    else if comps[0] == "" || comps[0] == "." || comps[0] == ".." then OnlyPlain(comps[1..])
    else [comps[0]] + OnlyPlain(comps[1..])
  }

  /** zipfile writes a member below the directory, whatever its name: it drops every empty, "." and
      ".." component. */
  function ZipTarget(dest: Path, name: string): Option<Path> {
    Some(dest + OnlyPlain(Split(name)))
  }

  function StripLeadingSlashes(s: string): string {
    if s != "" && s[0] == '/' then StripLeadingSlashes(s[1..]) else s
  }

  /** tarfile with filter="data" drops leading slashes and refuses a member that still leaves the
      directory. */
  function TarTarget(dest: Path, name: string): Option<Path> {
    var target := Walk(dest, Split(StripLeadingSlashes(name)));
    if dest <= target then Some(target) else None
  }

  datatype Kind = Zip | Tar {
    function Target(dest: Path, name: string): (t: Option<Path>)
      ensures t.Some? ==> dest <= t.value
    {
      match this case Zip => ZipTarget(dest, name) case Tar => TarTarget(dest, name)
    }
    function Name(): string {
      match this case Zip => "zip" case Tar => "tar"
    }
    /** What a member becomes on disk. */
    function EntryOf(m: Member): Entry {
      if (match this case Zip => m.name != "" && m.name[|m.name| - 1] == '/' case Tar => m.isDir) then Dir
      else File(m.content)
    }
  }

  // -----------------------------------------------------------------------------------
  // Writing
  // -----------------------------------------------------------------------------------

  /** Every directory from `root` down to the one holding `p` exists. */
  function WithParents(e: Entries, root: Path, p: Path): Entries
    requires root <= p
  {
    e + map i | |root| <= i < |p| && p[..i] !in e :: p[..i] := Dir
  }

  /** Nothing below `root` and above `p` is a file, and what is at `p`, if anything, is of the same
      kind; otherwise making the directories, or opening the file, raises. */
  predicate CanWrite(e: Entries, root: Path, p: Path, entry: Entry)
    requires root <= p
  {
    && (forall i | |root| <= i < |p| :: p[..i] in e ==> e[p[..i]].Dir?)
    && (p in e ==> (e[p].Dir? <==> entry.Dir?))
    && (p == root ==> entry.Dir?)
  }

  function Write(e: Entries, root: Path, p: Path, entry: Entry): Entries
    requires root <= p
  {
    WithParents(e, root, p)[p := entry]
  }

  /** os.makedirs(dest, exist_ok=True) */
  function MakeDirs(e: Entries, dest: Path): Entries {
    e + map i | 0 <= i <= |dest| && dest[..i] !in e :: dest[..i] := Dir
  }

  /** The members written in turn, and whether all of them were: extraction can stop at any member
      for reasons of its own (`stop`), and stops at one the library refuses or the directory has no room
      for. */
  function WriteAll(e: Entries, dest: Path, members: seq<Member>, kind: Kind, stop: Option<nat>): (Entries, bool)
    decreases |members|
  {
    if members == [] then (e, true)
    else if stop == Some(0) || !Accepts(e, dest, members[0], kind) then (e, false)
    else
      WriteAll(Write(e, dest, kind.Target(dest, members[0].name).value, kind.EntryOf(members[0])),
               dest, members[1..], kind, if stop.Some? then Some(stop.value - 1) else None)
  }

  predicate Accepts(e: Entries, dest: Path, m: Member, kind: Kind) {
    var target := kind.Target(dest, m.name);
    target.Some? && CanWrite(e, dest, target.value, kind.EntryOf(m))
  }

  predicate AllAllowed(dest: Path, members: seq<Member>) {
    forall m | m in members :: Allowed(dest, m.name)
  }

  ghost predicate IsFirstOffender(dest: Path, members: seq<Member>, i: int) {
    && 0 <= i < |members| && !Allowed(dest, members[i].name)
    && forall j | 0 <= j < i :: Allowed(dest, members[j].name)
  }

  function Unsafe(kind: Kind, name: string): string {
    "unsafe path in backup " + kind.Name() + ": " + name
  }

  const OUTSIDE := "stored backup path escapes the local storage root."
  const MISSING := "stored backup file was not found on local storage."
  const STOPPED := "extraction failed"
  const NOT_A_TAR := "not a tar file"

  class Disk {
    var entries: Entries

    /** _check_members, as it is written: on path strings. The error names the first offender. */
    method CheckMembers(cwd: Path, members: seq<Member>, dest: Path, destRoot: string, kind: Kind)
      returns (r: Result<bool, string>)
      requires Normal(cwd) && Normal(dest) && destRoot == Render(dest)
      ensures r.Ok? <==> AllAllowed(dest, members)
      ensures r.Err? ==> exists i :: IsFirstOffender(dest, members, i) && r.error == Unsafe(kind, members[i].name)
    {
      var i := 0;
      while i < |members|
        invariant 0 <= i <= |members|
        invariant forall j | 0 <= j < i :: Allowed(dest, members[j].name)
      {
        var name := members[i].name;
        var target := RealPath(cwd, Join(destRoot, name));
        RealPathOfJoin(cwd, dest, name);
        ResolveIsNormal(dest, name);
        SameString(Resolve(dest, name), dest);
        PrefixTest(dest, Resolve(dest, name));
        if target != destRoot && !StartsUnder(destRoot, target) {
          assert members[i] in members;
          assert IsFirstOffender(dest, members, i);
          return Err(Unsafe(kind, name));
        }
        i := i + 1;
      }
      r := Ok(true);
    }

    /** extractall() of either library. */
    method ExtractAll(dest: Path, members: seq<Member>, kind: Kind, stop: Option<nat>) returns (ok: bool)
      modifies this
      ensures (entries, ok) == WriteAll(old(entries), dest, members, kind, stop)
    {
      var i := 0;
      var left := stop;
      while i < |members|
        invariant 0 <= i <= |members|
        invariant WriteAll(entries, dest, members[i..], kind, left) == WriteAll(old(entries), dest, members, kind, stop)
      {
        assert members[i..][0] == members[i] && members[i..][1..] == members[i + 1..];
        if left == Some(0) || !Accepts(entries, dest, members[i], kind) {
          return false;
        }
        entries := Write(entries, dest, kind.Target(dest, members[i].name).value, kind.EntryOf(members[i]));
        left := if left.Some? then Some(left.value - 1) else None;
        i := i + 1;
      }
      ok := true;
    }

    /** extract_backup_zip; `zip` is None for a file that is not a zip archive. */
    method ExtractBackupZip(cwd: Path, zip: Option<seq<Member>>, dest: Path, stop: Option<nat>)
      returns (r: Result<Path, string>)
      requires Normal(cwd) && Normal(dest)
      modifies this
      ensures entries == AfterZip(old(entries), zip, dest, stop)
      ensures r.Ok? <==> (&& zip.Some? && AllAllowed(dest, zip.value)
                          && WriteAll(MakeDirs(old(entries), dest), dest, zip.value, Zip, stop).1)
      ensures r.Ok? ==> r.value == dest
    {
      entries := MakeDirs(entries, dest);
      if zip.None? {
        return Err("stored backup is not a valid zip file");
      }
      var checked := CheckMembers(cwd, zip.value, dest, Render(dest), Zip);
      if checked.Err? {
        return Err(checked.error);
      }
      var ok := ExtractAll(dest, zip.value, Zip, stop);
      r := if ok then Ok(dest) else Err(STOPPED);
    }

    /** maybe_extract_tar; `members` is what the tar file holds, if it is there. */
    method MaybeExtractTar(cwd: Path, members: seq<Member>, dest: Path, uuid: string, stop: Option<nat>)
      returns (r: Result<Path, string>)
      requires Normal(cwd) && Normal(dest)
      modifies this
      ensures entries == AfterTar(old(entries), members, dest, uuid, stop)
      ensures r.Ok? <==> (|| TarPath(dest, uuid) !in old(entries)
                          || (&& old(entries)[TarPath(dest, uuid)].File? && AllAllowed(dest, members)
                              && WriteAll(old(entries), dest, members, Tar, stop).1))
      ensures r.Ok? ==> r.value == dest
    {
      var tarPath := TarPath(dest, uuid);
      if tarPath !in entries {
        return Ok(dest);
      }
      if entries[tarPath].Dir? {
        return Err(NOT_A_TAR);
      }
      var checked := CheckMembers(cwd, members, dest, Render(dest), Tar);
      if checked.Err? {
        return Err(checked.error);
      }
      var ok := ExtractAll(dest, members, Tar, stop);
      if !ok {
        return Err(STOPPED);
      }
      entries := entries - {tarPath};
      r := Ok(dest);
    }

    /** _local_source_path, on path strings. */
    method LocalSourcePath(cwd: Path, storageRoot: Path, fileId: string) returns (r: Result<Path, string>)
      requires Normal(cwd) && Normal(storageRoot)
      ensures var target := Resolve(cwd, fileId);
              && (r == Err(OUTSIDE) <==> !(storageRoot != [] && StrictlyUnder(storageRoot, target)))
              && (r.Ok? <==> (&& storageRoot != [] && StrictlyUnder(storageRoot, target)
                              && target in entries && entries[target].File?))
              && (r.Ok? ==> r.value == target)
              && (r.Err? ==> r.error == OUTSIDE || r.error == MISSING)
    {
      var root := Render(storageRoot);
      var target := Resolve(cwd, fileId);
      ResolveIsNormal(cwd, fileId);
      SameString(target, storageRoot);
      PrefixTest(storageRoot, target);
      assert RealPath(cwd, fileId) == Render(target);
      if RealPath(cwd, fileId) == root || !StartsUnder(root, RealPath(cwd, fileId)) {
        return Err(OUTSIDE);
      }
      if target !in entries || !entries[target].File? {
        return Err(MISSING);
      }
      r := Ok(target);
    }

    predicate IsDir(p: Path)
      reads this
    {
      p in entries && entries[p].Dir?
    }

    /** fetch_backup_zip. It succeeds exactly when the stored content can be had, is not empty, and can be
        written: copying a file onto itself raises, and so does opening a directory. It then leaves that
        content, and changes no other entry. */
    method FetchBackupZip(cwd: Path, storageRoot: Path, from: Source, destZip: Path)
      returns (r: Result<Path, string>)
      requires Normal(cwd) && Normal(storageRoot)
      modifies this
      ensures forall p | p != destZip ::
                (p in entries <==> p in old(entries)) && (p in entries ==> entries[p] == old(entries)[p])
      ensures r.Ok? ==> (&& r.value == destZip && destZip in entries
                         && entries[destZip].File? && entries[destZip].content != ""
                         && Stored(old(entries), cwd, storageRoot, from) == Some(entries[destZip].content))
      ensures r.Ok? <==> (&& Stored(old(entries), cwd, storageRoot, from).Some?
                          && Stored(old(entries), cwd, storageRoot, from).value != ""
                          && (destZip in old(entries) ==> old(entries)[destZip].File?)
                          && (from.Local? ==> Resolve(cwd, from.fileId) != destZip))
    {
      match from {
        case Local(fileId) =>
          var source := LocalSourcePath(cwd, storageRoot, fileId);
          if source.Err? {
            return Err(source.error);
          }
          if source.value == destZip || IsDir(destZip) {
            return Err("the file cannot be copied");
          }
          entries := entries[destZip := entries[source.value]];
        case Remote(url, download) =>
          if url in {"restore_requested", "restore_in_progress"} {
            return Err("backup is archived in Glacier/Deep Archive");
          }
          if url == "" {
            return Err("unable to generate a download URL for the stored backup.");
          }
          match download {
            case NoResponse =>
              return Err("unable to download the stored backup");
            case Interrupted(partial) =>
              if IsDir(destZip) {
                return Err("unable to download the stored backup");
              }
              entries := entries[destZip := File(partial)];
              return Err("unable to download the stored backup");
            case Received(body) =>
              if IsDir(destZip) {
                return Err("unable to download the stored backup");
              }
              entries := entries[destZip := File(body)];
          }
      }
      if entries[destZip].content == "" {
        return Err("stored backup zip is empty (0 bytes).");
      }
      r := Ok(destZip);
    }
  }

  datatype Download = NoResponse | Interrupted(partial: string) | Received(body: string)

  datatype Source = Local(fileId: string) | Remote(url: string, download: Download)

  /** What the storage holds under a stored backup, if it can be had. */
  function Stored(e: Entries, cwd: Path, storageRoot: Path, from: Source): Option<string> {
    match from
    case Local(fileId) =>
      var p := Resolve(cwd, fileId);
      if storageRoot != [] && StrictlyUnder(storageRoot, p) && p in e && e[p].File? then Some(e[p].content) else None
    case Remote(url, download) =>
      if url !in {"", "restore_requested", "restore_in_progress"} && download.Received? then Some(download.body)
      else None
  }

  function AfterZip(e: Entries, zip: Option<seq<Member>>, dest: Path, stop: Option<nat>): Entries {
    var made := MakeDirs(e, dest);
    if zip.Some? && AllAllowed(dest, zip.value) then WriteAll(made, dest, zip.value, Zip, stop).0 else made
  }

  function TarPath(dest: Path, uuid: string): Path {
    Resolve(dest, uuid + ".tar")
  }

  function AfterTar(e: Entries, members: seq<Member>, dest: Path, uuid: string, stop: Option<nat>): Entries {
    var tarPath := TarPath(dest, uuid);
    if tarPath !in e || e[tarPath].Dir? || !AllAllowed(dest, members) then e
    else
      var (written, ok) := WriteAll(e, dest, members, Tar, stop);
      if ok then written - {tarPath} else written
  }

  // -----------------------------------------------------------------------------------
  // What extraction can touch
  // -----------------------------------------------------------------------------------

  /** The two tables agree on everything that is not at or below `dest`. */
  ghost predicate SameOutside(e: Entries, f: Entries, dest: Path) {
    forall p: Path | !(dest <= p) :: (p in e <==> p in f) && (p in e ==> e[p] == f[p])
  }

  lemma WriteStaysInside(e: Entries, dest: Path, p: Path, entry: Entry)
    requires dest <= p
    ensures SameOutside(e, Write(e, dest, p, entry), dest)
  {
    forall i | |dest| <= i < |p| ensures dest <= p[..i] {
    }
  }

  lemma {:induction false} WriteAllStaysInside(e: Entries, dest: Path, members: seq<Member>, kind: Kind,
                                               stop: Option<nat>)
    ensures SameOutside(e, WriteAll(e, dest, members, kind, stop).0, dest)
    decreases |members|
  {
    if members != [] && stop != Some(0) && Accepts(e, dest, members[0], kind) {
      var p := kind.Target(dest, members[0].name).value;
      WriteStaysInside(e, dest, p, kind.EntryOf(members[0]));
      WriteAllStaysInside(Write(e, dest, p, kind.EntryOf(members[0])), dest, members[1..], kind,
                          if stop.Some? then Some(stop.value - 1) else None);
    }
  }

  /** One member that escapes keeps the whole archive from being written; and whatever is written,
      wherever extraction stops, is at or below the destination. */
  lemma ZipExtractionIsConfined(e: Entries, members: seq<Member>, dest: Path, stop: Option<nat>)
    ensures (exists m :: m in members && !Allowed(dest, m.name)) ==>
              AfterZip(e, Some(members), dest, stop) == MakeDirs(e, dest)
    ensures SameOutside(MakeDirs(e, dest), AfterZip(e, Some(members), dest, stop), dest)
  {
    WriteAllStaysInside(MakeDirs(e, dest), dest, members, Zip, stop);
  }

  /** The same for the wrapped tar; a uuid that is a plain name makes the removed tar file one of the
      destination's own. */
  lemma TarExtractionIsConfined(e: Entries, members: seq<Member>, dest: Path, uuid: string, stop: Option<nat>)
    requires Plain(uuid)
    ensures (exists m :: m in members && !Allowed(dest, m.name)) ==> AfterTar(e, members, dest, uuid, stop) == e
    ensures TarPath(dest, uuid) == dest + [uuid + ".tar"]
    ensures SameOutside(e, AfterTar(e, members, dest, uuid, stop), dest)
  {
    PlainNameResolves(dest, uuid, ".tar");
    WriteAllStaysInside(e, dest, members, Tar, stop);
  }

  /** A plain name with a plain suffix is a child of the directory it is given relative to. */
  lemma PlainNameResolves(dest: Path, name: string, suffix: string)
    requires Plain(name) && '/' !in suffix && suffix != "" && suffix != "." && suffix != ".."
    ensures Resolve(dest, name + suffix) == dest + [name + suffix]
  {
    var s := name + suffix;
    assert forall c | c in s :: c in name || c in suffix;
    SplitComponent(s, "");
    assert |s| >= 2 && s[0] == name[0] && name[0] in name;
    if |name| == 1 {
      assert name == [s[0]];
    }
    assert Walk(dest, [s]) == Walk(dest + [s], [s][1..]);
  }

  // -----------------------------------------------------------------------------------
  // Where members are checked and where they are written
  // -----------------------------------------------------------------------------------

  lemma {:induction false} WalkLength(at: Path, comps: seq<string>)
    ensures |Walk(at, comps)| <= |at| + |OnlyPlain(comps)|
    ensures at != [] && ".." in comps ==> |Walk(at, comps)| < |at| + |OnlyPlain(comps)|
    decreases |comps|
  {
    if comps != [] {
      var rest := comps[1..];
      assert ".." in comps <==> comps[0] == ".." || ".." in rest;
      if comps[0] == "" || comps[0] == "." {
        WalkLength(at, rest);
      } else if comps[0] == ".." {
        WalkLength(if at == [] then [] else at[..|at| - 1], rest);
      } else {
        WalkLength(at + [comps[0]], rest);
      }
    }
  }

  lemma {:induction false} WalkDown(at: Path, comps: seq<string>)
    requires ".." !in comps
    ensures Walk(at, comps) == at + OnlyPlain(comps)
    decreases |comps|
  {
    if comps != [] {
      var rest := comps[1..];
      assert forall c | c in rest :: c in comps;
      assert comps[0] in comps;
      if comps[0] == "" || comps[0] == "." {
        WalkDown(at, rest);
      } else {
        WalkDown(at + [comps[0]], rest);
        assert at + [comps[0]] + OnlyPlain(rest) == at + ([comps[0]] + OnlyPlain(rest));
      }
    }
  }

  predicate IsAbsolute(name: string) {
    name != "" && name[0] == '/'
  }

  /** A zip member is written to the very place that was checked if and only if its name is relative and
      does not go up. */
  lemma ZipWritesWhereChecked(dest: Path, name: string)
    requires dest != []
    ensures ZipTarget(dest, name) == Some(Resolve(dest, name)) <==> !IsAbsolute(name) && ".." !in Split(name)
  {
    if IsAbsolute(name) {
      WalkLength([], Split(name));
    } else {
      WalkLength(dest, Split(name));
      if ".." !in Split(name) {
        WalkDown(dest, Split(name));
      }
    }
  }

  /** A tar member with a relative name is written exactly where it was checked, and refused by the library
      exactly when the check refuses it. */
  lemma TarWritesWhereChecked(dest: Path, name: string)
    requires dest != [] && !IsAbsolute(name)
    ensures TarTarget(dest, name) == if Allowed(dest, name) then Some(Resolve(dest, name)) else None
  {
    assert StripLeadingSlashes(name) == name;
  }

  /** After a full extraction every member, a file or a directory, is there as what it is, unless a later
      one has the same place; a directory stays one even then. */
  lemma {:induction false} WriteAllHolds(e: Entries, dest: Path, members: seq<Member>, kind: Kind, k: nat)
    requires WriteAll(e, dest, members, kind, None).1 && k < |members|
    ensures kind.Target(dest, members[k].name).Some?
    ensures var p := kind.Target(dest, members[k].name).value;
            var f := WriteAll(e, dest, members, kind, None).0;
            && p in f && (f[p].Dir? <==> kind.EntryOf(members[k]).Dir?)
            && ((forall j | k < j < |members| :: kind.Target(dest, members[j].name) != Some(p)) ==>
                  f[p] == kind.EntryOf(members[k]))
    decreases |members|
  {
    var p0 := kind.Target(dest, members[0].name).value;
    var next := Write(e, dest, p0, kind.EntryOf(members[0]));
    var rest := members[1..];
    assert forall j | 0 <= j < |rest| :: rest[j] == members[j + 1];
    if k > 0 {
      WriteAllHolds(next, dest, rest, kind, k - 1);
    } else {
      WriteAllKeeps(next, dest, rest, kind, p0);
    }
  }

  lemma {:induction false} WriteAllKeeps(e: Entries, dest: Path, members: seq<Member>, kind: Kind, p: Path)
    requires p in e
    ensures var f := WriteAll(e, dest, members, kind, None).0;
            && p in f && (f[p].Dir? <==> e[p].Dir?)
            && ((forall j | 0 <= j < |members| :: kind.Target(dest, members[j].name) != Some(p)) ==> f[p] == e[p])
    decreases |members|
  {
    if members != [] && Accepts(e, dest, members[0], kind) {
      var next := Write(e, dest, kind.Target(dest, members[0].name).value, kind.EntryOf(members[0]));
      assert forall j | 0 <= j < |members[1..]| :: members[1..][j] == members[j + 1];
      WriteAllKeeps(next, dest, members[1..], kind, p);
    }
  }

  /** After a zip was extracted to its end, every member that no later one replaces is there: a directory if
      its name ends in a slash, and otherwise a file with its content. */
  lemma ZipMembersArrive(e: Entries, members: seq<Member>, dest: Path, k: nat)
    requires AllAllowed(dest, members) && k < |members| && WriteAll(MakeDirs(e, dest), dest, members, Zip, None).1
    requires forall j | k < j < |members| :: ZipTarget(dest, members[j].name) != ZipTarget(dest, members[k].name)
    ensures var p, name := ZipTarget(dest, members[k].name).value, members[k].name;
            var f := AfterZip(e, Some(members), dest, None);
            p in f && f[p] == if name != "" && name[|name| - 1] == '/' then Dir else File(members[k].content)
  {
    WriteAllHolds(MakeDirs(e, dest), dest, members, Zip, k);
  }

  /** After a successful unwrap the tar is gone even when one of its own members was written over it, and
      every other member that no later one replaces is there: a directory, or a file with its content. */
  lemma TarMembersArrive(e: Entries, members: seq<Member>, dest: Path, uuid: string, k: nat)
    requires TarPath(dest, uuid) in e && e[TarPath(dest, uuid)].File? && AllAllowed(dest, members) && k < |members|
    requires WriteAll(e, dest, members, Tar, None).1
    requires forall j | k < j < |members| :: TarTarget(dest, members[j].name) != TarTarget(dest, members[k].name)
    ensures TarTarget(dest, members[k].name).Some?
    ensures var p := TarTarget(dest, members[k].name).value;
            var f := AfterTar(e, members, dest, uuid, None);
            && TarPath(dest, uuid) !in f
            && (p != TarPath(dest, uuid) ==>
                  p in f && f[p] == if members[k].isDir then Dir else File(members[k].content))
  {
    WriteAllHolds(e, dest, members, Tar, k);
  }

  /** What the check accepts: below a root other than "/", the paths at or below it; below "/", only "/". */
  lemma AllowedExactly(dest: Path, name: string)
    ensures Allowed(dest, name) <==>
              if dest == [] then Resolve(dest, name) == [] else dest <= Resolve(dest, name)
  {
  }

  /** What the storage can give: a local file strictly below the storage root, which is not "/"; or the body
      of a complete answer from a URL that is none and no sentinel. */
  lemma StoredExactly(e: Entries, cwd: Path, storageRoot: Path, from: Source, content: string)
    ensures Stored(e, cwd, storageRoot, from) == Some(content) <==>
              match from
              case Local(fileId) =>
                var p := Resolve(cwd, fileId);
                storageRoot != [] && storageRoot < p && p in e && e[p] == File(content)
              case Remote(url, download) =>
                && url != "" && url != "restore_requested" && url != "restore_in_progress"
                && download == Received(content)
  {
  }

  // -----------------------------------------------------------------------------------
  // The directory tree
  // -----------------------------------------------------------------------------------

  /** Everything that is above something at or below `root` is a directory, down from the root on. */
  ghost predicate IsTree(e: Entries, root: Path) {
    forall p, i | p in e && root <= p && |root| <= i < |p| :: p[..i] in e && e[p[..i]] == Dir
  }

  /** Making directories: afterwards the whole way to the destination is there, and nothing that was there is
      changed. */
  lemma MakeDirsExactly(e: Entries, dest: Path)
    ensures var f := MakeDirs(e, dest);
            && (forall i | 0 <= i <= |dest| :: dest[..i] in f)
            && (forall p | p in e :: p in f && f[p] == e[p])
            && (forall p | p in f && p !in e :: p <= dest && f[p] == Dir)
  {
    forall i | 0 <= i <= |dest| ensures dest[..i] in MakeDirs(e, dest) {
    }
  }

  /** A write that is accepted keeps the tree, and adds nothing but the entry and the directories above it. */
  lemma WriteKeepsTree(e: Entries, root: Path, p: Path, entry: Entry)
    requires root <= p && IsTree(e, root) && CanWrite(e, root, p, entry)
    ensures var f := Write(e, root, p, entry);
            && IsTree(f, root)
            && f[p] == entry
            && (forall q | q in e && q != p :: q in f && f[q] == e[q])
            && (forall q | q in f && q !in e && q != p :: root <= q && q < p && f[q] == Dir)
  {
    var f := Write(e, root, p, entry);
    forall i | |root| <= i < |p| ensures p[..i] in f && f[p[..i]] == Dir {
      if p[..i] !in e {
        assert p[..i] in WithParents(e, root, p);
      }
    }
    forall q, i | q in f && root <= q && |root| <= i < |q| ensures q[..i] in f && f[q[..i]] == Dir {
      if q in e && q != p {
        assert q[..i] in e && e[q[..i]] == Dir;
        if q[..i] == p {
          assert p in e && e[p].Dir?;
        }
      } else if q != p {
        assert q == p[..|q|];
        assert q[..i] == p[..i];
      }
    }
  }

  /** Whatever is extracted, wherever it stops: the tree stays a tree, and a destination that is a directory
      stays one. */
  lemma {:induction false} ExtractionKeepsTree(e: Entries, dest: Path, members: seq<Member>, kind: Kind,
                                               stop: Option<nat>)
    requires IsTree(e, dest) && dest in e && e[dest] == Dir
    ensures var f := WriteAll(e, dest, members, kind, stop).0; IsTree(f, dest) && dest in f && f[dest] == Dir
    decreases |members|
  {
    if members != [] && stop != Some(0) && Accepts(e, dest, members[0], kind) {
      var p := kind.Target(dest, members[0].name).value;
      WriteKeepsTree(e, dest, p, kind.EntryOf(members[0]));
      ExtractionKeepsTree(Write(e, dest, p, kind.EntryOf(members[0])), dest, members[1..], kind,
                          if stop.Some? then Some(stop.value - 1) else None);
    }
  }

  /** Extraction that stops at a member has written exactly the members before it; an extraction that
      completes is not stopped by a member past the end. */
  lemma {:induction false} StopsBefore(e: Entries, dest: Path, members: seq<Member>, kind: Kind, k: nat)
    requires WriteAll(e, dest, members, kind, None).1
    ensures WriteAll(e, dest, members, kind, Some(k)) ==
              if k < |members| then (WriteAll(e, dest, members[..k], kind, None).0, false)
              else WriteAll(e, dest, members, kind, None)
    decreases |members|
  {
    if members != [] && k > 0 {
      var next := Write(e, dest, kind.Target(dest, members[0].name).value, kind.EntryOf(members[0]));
      StopsBefore(next, dest, members[1..], kind, k - 1);
      if k < |members| {
        assert members[..k][1..] == members[1..][..k - 1];
      }
    }
  }

  lemma UnsafeText(name: string)
    ensures Unsafe(Zip, name) == "unsafe path in backup zip: " + name
    ensures Unsafe(Tar, name) == "unsafe path in backup tar: " + name
  {
    assert "unsafe path in backup " + "zip" + ": " == "unsafe path in backup zip: ";
    assert "unsafe path in backup " + "tar" + ": " == "unsafe path in backup tar: ";
  }
}
