/** Absolute POSIX paths, as strings and as lists of components, and the tests the program uses
    to confine a path to a directory. Symbolic links are not modelled: realpath() is the lexical
    normalisation of an absolute path. */
module Paths {

  type Path = seq<string>

  /** A name a directory entry can have. */
  predicate Plain(c: string) {
    c != "" && '/' !in c && c != "." && c != ".."
  }

  predicate Normal(p: Path) {
    forall c | c in p :: Plain(c)
  }

  predicate StrictlyUnder(root: Path, p: Path) {
    root < p
  }

  // -----------------------------------------------------------------------------------
  // Strings
  // -----------------------------------------------------------------------------------

  function Slashed(p: Path): string {
    if p == [] then "" else "/" + p[0] + Slashed(p[1..])
  }

  function Render(p: Path): string {
    if p == [] then "/" else Slashed(p)
  }

  /** s.split("/") */
  function Split(s: string): (r: seq<string>)
    ensures r != [] && forall c | c in r :: '/' !in c
  {
    if s == "" then [""]
    else
      var rest := Split(s[1..]);
      if s[0] == '/' then [""] + rest else [[s[0]] + rest[0]] + rest[1..]
  }

  /** os.path.join(a, b) */
  function Join(a: string, b: string): string {
    if b != "" && b[0] == '/' then b
    else if a == "" || a[|a| - 1] == '/' then a + b
    else a + "/" + b
  }

  /** Follows components from a directory: "" and "." stay, ".." goes up. */
  function Walk(at: Path, comps: seq<string>): Path
    decreases |comps|
  {
    if comps == [] then at
    else if comps[0] == "" || comps[0] == "." then Walk(at, comps[1..])
    else if comps[0] == ".." then Walk(if at == [] then [] else at[..|at| - 1], comps[1..])
    else Walk(at + [comps[0]], comps[1..])
  }

  /** os.path.realpath(s) in a process whose working directory is `cwd`. */
  function RealPath(cwd: Path, s: string): string {
    Render(Walk(if s != "" && s[0] == '/' then [] else cwd, Split(s)))
  }

  /** Where a name given relative to a directory ends up. */
  function Resolve(root: Path, name: string): Path {
    Walk(if name != "" && name[0] == '/' then [] else root, Split(name))
  }

  function Kept(comps: seq<string>): Path {
    if comps == [] then []
    else if comps[0] == "" || comps[0] == "." then Kept(comps[1..])
    else [comps[0]] + Kept(comps[1..])
  }

  function Shared(a: Path, b: Path): Path {
    if a == [] || b == [] || a[0] != b[0] then [] else [a[0]] + Shared(a[1..], b[1..])
  }

  /** os.path.commonpath([a, b]) of two absolute paths. */
  function CommonPath(a: string, b: string): string {
    Render(Shared(Kept(Split(a)), Kept(Split(b))))
  }

  // -----------------------------------------------------------------------------------
  // Strings and components
  // -----------------------------------------------------------------------------------

  lemma {:induction false} SplitComponent(c: string, s: string)
    requires '/' !in c
    ensures Split(c) == [c]
    ensures Split(c + "/" + s) == [c] + Split(s)
  {
    var t := c + "/" + s;
    if c == "" {
      assert t[1..] == s;
    } else {
      assert c[0] in c && forall x | x in c[1..] :: x in c;
      SplitComponent(c[1..], s);
      assert t[1..] == c[1..] + "/" + s;
      assert [c[0]] + c[1..] == c;
    }
  }

  /** A component in front of text that is empty or begins with a slash. */
  lemma PrependComponent(c: string, t: string, ts: seq<string>)
    requires '/' !in c && (t == "" || t[0] == '/') && Split(t) == [""] + ts
    ensures Split(c + t) == [c] + ts
  {
    if t == "" {
      assert c + t == c && |[""] + ts| == 1;
      SplitComponent(c, "");
    } else {
      assert t == "/" + t[1..] && c + t == c + "/" + t[1..];
      SplitAfterSlash(t[1..]);
      SplitComponent(c, t[1..]);
      assert ([""] + ts)[1..] == ts && ([""] + Split(t[1..]))[1..] == Split(t[1..]);
    }
  }

  lemma {:induction false} SplitSlashedThen(p: Path, t: string, ts: seq<string>)
    requires Normal(p) && (t == "" || t[0] == '/') && Split(t) == [""] + ts
    ensures Split(Slashed(p) + t) == [""] + (p + ts)
  {
    if p == [] {
      assert Slashed(p) + t == t && p + ts == ts;
    } else {
      NormalParts(p);
      SplitSlashedThen(p[1..], t, ts);
      PrependSlashed(p[0], Slashed(p[1..]) + t, p[1..] + ts);
      Regroup(p[0], Slashed(p[1..]), t);
      assert [p[0]] + (p[1..] + ts) == p + ts;
    }
  }

  lemma NormalParts(p: Path)
    requires p != [] && Normal(p)
    ensures Plain(p[0]) && Normal(p[1..])
  {
    assert p[0] in p && forall c | c in p[1..] :: c in p;
  }

  lemma PrependSlashed(c: string, t: string, ts: seq<string>)
    requires '/' !in c && (t == "" || t[0] == '/') && Split(t) == [""] + ts
    ensures Split("/" + (c + t)) == [""] + ([c] + ts)
  {
    PrependComponent(c, t, ts);
    SplitAfterSlash(c + t);
  }

  lemma Regroup(c: string, s: string, t: string)
    ensures "/" + c + s + t == "/" + (c + (s + t))
  {
  }

  lemma SplitSlashed(p: Path, s: string)
    requires Normal(p)
    ensures Split(Slashed(p)) == [""] + p
    ensures Split(Slashed(p) + "/" + s) == [""] + (p + Split(s))
  {
    SplitSlashedThen(p, "", []);
    assert Slashed(p) + "" == Slashed(p) && p + [] == p;
    SplitAfterSlash(s);
    SplitSlashedThen(p, "/" + s, Split(s));
    assert Slashed(p) + ("/" + s) == Slashed(p) + "/" + s;
  }

  lemma SplitAfterSlash(s: string)
    ensures Split("/" + s) == [""] + Split(s)
  {
    assert ("/" + s)[1..] == s;
  }

  lemma {:induction false} WalkPlain(at: Path, p: Path, comps: seq<string>)
    requires Normal(p)
    ensures Walk(at, p + comps) == Walk(at + p, comps)
    decreases |p|
  {
    if p == [] {
      assert p + comps == comps && at + p == at;
    } else {
      assert Plain(p[0]) && forall c | c in p[1..] :: c in p;
      assert (p + comps)[1..] == p[1..] + comps && at + [p[0]] + p[1..] == at + p;
      WalkPlain(at + [p[0]], p[1..], comps);
    }
  }

  lemma {:induction false} WalkIsNormal(at: Path, comps: seq<string>)
    requires Normal(at) && forall c | c in comps :: '/' !in c
    ensures Normal(Walk(at, comps))
    decreases |comps|
  {
    if comps != [] {
      assert comps[0] in comps && forall c | c in comps[1..] :: c in comps;
      if comps[0] == "" || comps[0] == "." {
        WalkIsNormal(at, comps[1..]);
      } else if comps[0] == ".." {
        WalkIsNormal(if at == [] then [] else at[..|at| - 1], comps[1..]);
      } else {
        WalkIsNormal(at + [comps[0]], comps[1..]);
      }
    }
  }

  lemma ResolveIsNormal(root: Path, name: string)
    requires Normal(root)
    ensures Normal(Resolve(root, name))
  {
    WalkIsNormal(if name != "" && name[0] == '/' then [] else root, Split(name));
  }

  /** realpath(join(root, name)) is the component walk. */
  lemma RealPathOfJoin(cwd: Path, root: Path, name: string)
    requires Normal(root)
    ensures RealPath(cwd, Join(Render(root), name)) == Render(Resolve(root, name))
  {
    if !(name != "" && name[0] == '/') {
      var s := Join(Render(root), name);
      if root == [] {
        SplitAfterSlash(name);
      } else {
        assert Normal(root) && Plain(root[|root| - 1]);
        SlashedEnd(root);
        SplitSlashed(root, name);
        assert ([""] + (root + Split(name)))[1..] == root + Split(name);
        WalkPlain([], root, Split(name));
        assert [] + root == root;
      }
    }
  }

  lemma {:induction false} SlashedEnd(p: Path)
    requires p != [] && Normal(p)
    ensures Slashed(p) != "" && Slashed(p)[0] == '/' && Slashed(p)[|Slashed(p)| - 1] != '/'
  {
    assert Plain(p[0]) && forall c | c in p[1..] :: c in p;
    if |p| > 1 {
      SlashedEnd(p[1..]);
    } else {
      assert p[1..] == [] && Slashed(p) == "/" + p[0];
      assert p[0][|p[0]| - 1] in p[0];
    }
  }

  lemma {:induction false} KeptPlain(p: Path)
    requires Normal(p)
    ensures Kept(p) == p
  {
    if p != [] {
      assert Plain(p[0]) && forall c | c in p[1..] :: c in p;
      KeptPlain(p[1..]);
      assert [p[0]] + p[1..] == p;
    }
  }

  /** A normal path is recovered from its string. */
  lemma ComponentsOfRender(p: Path)
    requires Normal(p)
    ensures Kept(Split(Render(p))) == p
  {
    if p == [] {
      assert Split("/") == [""] + Split("");
    } else {
      SplitSlashed(p, "");
      assert ([""] + p)[1..] == p;
      KeptPlain(p);
    }
  }

  lemma RenderIsInjective(p: Path, q: Path)
    requires Normal(p) && Normal(q) && Render(p) == Render(q)
    ensures p == q
  {
    ComponentsOfRender(p);
    ComponentsOfRender(q);
  }

  lemma {:induction false} SharedIsPrefix(a: Path, b: Path)
    ensures Shared(a, b) <= a && (Shared(a, b) == a <==> a <= b)
  {
    if a != [] && b != [] && a[0] == b[0] {
      SharedIsPrefix(a[1..], b[1..]);
      assert a == [a[0]] + a[1..] && b == [b[0]] + b[1..];
    }
  }

  /** The string prefix of one slashed path, with its separator, in another one. */
  lemma {:induction false} SlashedPrefix(r: Path, t: Path)
    requires Normal(r) && Normal(t)
    ensures Slashed(r) + "/" <= Slashed(t) <==> r < t
  {
    if t == [] {
      assert !(Slashed(r) + "/" <= Slashed(t));
    } else if r == [] {
      assert Slashed(r) + "/" == "/";
    } else {
      NormalParts(r);
      NormalParts(t);
      SlashedPrefix(r[1..], t[1..]);
      FirstComponents(r, t);
      assert r == [r[0]] + r[1..] && t == [t[0]] + t[1..];
    }
  }

  lemma SlashedCons(p: Path, tail: string)
    requires p != []
    ensures Slashed(p) + tail == "/" + (p[0] + (Slashed(p[1..]) + tail))
  {
  }

  /** Two slashed paths compare by their first components, and then by the rest. */
  lemma FirstComponents(r: Path, t: Path)
    requires r != [] && t != [] && Plain(r[0]) && Plain(t[0])
    ensures Slashed(r) + "/" <= Slashed(t) <==> r[0] == t[0] && Slashed(r[1..]) + "/" <= Slashed(t[1..])
  {
    var rs, ts := Slashed(r[1..]) + "/", Slashed(t[1..]);
    SlashedCons(r, "/");
    SlashedCons(t, "");
    assert Slashed(t) + "" == Slashed(t) && ts + "" == ts;
    ConsPrefix("/", r[0] + rs, t[0] + ts);
    ComponentsCompare(r[0], rs, t[0], ts);
  }

  lemma ComponentsCompare(c: string, a: string, d: string, b: string)
    requires '/' !in c && '/' !in d && a != "" && a[0] == '/' && (b == "" || b[0] == '/')
    ensures c + a <= d + b <==> c == d && a <= b
  {
    if c == d {
      ConsPrefix(c, a, b);
    } else {
      FirstComponentDiffers(c, a, d, b);
    }
  }

  lemma ConsPrefix(x: string, a: string, b: string)
    ensures x + a <= x + b <==> a <= b
  {
    assert (x + a)[|x|..] == a && (x + b)[|x|..] == b;
    if x + a <= x + b {
      assert (x + b)[..|x + a|][|x|..] == b[..|a|];
    }
  }

  lemma FirstComponentDiffers(c: string, a: string, d: string, b: string)
    requires '/' !in c && '/' !in d && c != d
    requires a != "" && a[0] == '/' && (b == "" || b[0] == '/')
    ensures !(c + a <= d + b)
  {
    var x, y := c + a, d + b;
    var n := if |c| <= |d| then |c| else |d|;
    if c[..n] != d[..n] {
      var i :| 0 <= i < n && c[..n][i] != d[..n][i];
      assert x[i] == c[i] && y[i] == d[i];
    } else if |c| < |d| {
      assert d[n] in d && x[n] == '/' && y[n] == d[n];
    } else {
      assert c[..n] == c ==> |c| > |d|;
      assert c[n] in c && x[n] == c[n];
      assert |y| > n ==> y[n] == '/';
    }
  }

  // -----------------------------------------------------------------------------------
  // The confinement tests
  // -----------------------------------------------------------------------------------

  /** target.startswith(root + os.sep) */
  predicate StartsUnder(root: string, target: string) {
    root + "/" <= target
  }

  /** target != root and os.path.commonpath([root, target]) == root */
  predicate CommonUnder(root: string, target: string) {
    target != root && CommonPath(root, target) == root
  }

  /** The commonpath test is true exactly of the paths strictly below the root. */
  lemma CommonTest(root: Path, target: Path)
    requires Normal(root) && Normal(target)
    ensures CommonUnder(Render(root), Render(target)) <==> StrictlyUnder(root, target)
  {
    ComponentsOfRender(root);
    ComponentsOfRender(target);
    var shared := Shared(root, target);
    SharedIsPrefix(root, target);
    assert Normal(shared) by {
      assert forall c | c in shared :: c in root;
    }
    SameString(shared, root);
    SameString(target, root);
    assert CommonPath(Render(root), Render(target)) == Render(shared);
  }

  /** The prefix test is true exactly of the paths strictly below the root, unless the root is "/",
      below which it finds nothing. */
  lemma PrefixTest(root: Path, target: Path)
    requires Normal(root) && Normal(target)
    ensures StartsUnder(Render(root), Render(target)) <==> root != [] && StrictlyUnder(root, target)
  {
    if root == [] {
      if target != [] {
        assert Plain(target[0]);
        assert Slashed(target)[1] == target[0][0] && target[0][0] in target[0];
      }
    } else {
      SlashedPrefix(root, target);
      if target == [] {
        SlashedEnd(root);
      }
    }
  }

  /** The two tests decide the same thing for every target exactly when the root is not "/" (there
      they agree only on the root itself). */
  lemma TestsAgree(root: Path, target: Path)
    requires Normal(root) && Normal(target)
    ensures (StartsUnder(Render(root), Render(target)) <==> CommonUnder(Render(root), Render(target)))
       <==> (root != [] || target == [])
  {
    CommonTest(root, target);
    PrefixTest(root, target);
  }

  lemma SameString(p: Path, q: Path)
    requires Normal(p) && Normal(q)
    ensures Render(p) == Render(q) <==> p == q
  {
    if Render(p) == Render(q) {
      RenderIsInjective(p, q);
    }
  }

  // -----------------------------------------------------------------------------------
  // What the parts mean
  // -----------------------------------------------------------------------------------

  function JoinComponents(comps: seq<string>): string
    requires comps != []
  {
    if |comps| == 1 then comps[0] else comps[0] + "/" + JoinComponents(comps[1..])
  }

  /** Splitting is at every slash: the components, none of which holds one, join back to the string. */
  lemma {:induction false} SplitJoins(s: string)
    ensures JoinComponents(Split(s)) == s
  {
    if s != "" {
      SplitJoins(s[1..]);
      var rest := Split(s[1..]);
      assert s == [s[0]] + s[1..];
      if s[0] == '/' {
        assert ([""] + rest)[1..] == rest;
      } else {
        var first := [s[0]] + rest[0];
        assert ([first] + rest[1..])[1..] == rest[1..];
        if |rest| > 1 {
          assert first + "/" + JoinComponents(rest[1..]) == [s[0]] + (rest[0] + "/" + JoinComponents(rest[1..]));
        }
      }
    }
  }

  /** The last component of a walk: "" and "." stay, ".." goes to the parent, which of the root is the root,
      and any other name goes down. */
  lemma {:induction false} WalkLast(at: Path, comps: seq<string>, c: string)
    ensures var before := Walk(at, comps);
            Walk(at, comps + [c]) ==
              if c == "" || c == "." then before
              else if c == ".." then (if before == [] then [] else before[..|before| - 1])
              else before + [c]
    decreases |comps|
  {
    if comps == [] {
      assert comps + [c] == [c] && [c][1..] == [];
    } else {
      assert (comps + [c])[1..] == comps[1..] + [c];
      if comps[0] == "" || comps[0] == "." {
        WalkLast(at, comps[1..], c);
      } else if comps[0] == ".." {
        WalkLast(if at == [] then [] else at[..|at| - 1], comps[1..], c);
      } else {
        WalkLast(at + [comps[0]], comps[1..], c);
      }
    }
  }
}
