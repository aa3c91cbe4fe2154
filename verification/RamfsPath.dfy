/**
 * The path under which ramfs syncs a file to disk: climb from the file's dentry to the root, at
 * most 32 steps, then append the directory names into a buffer measured on the way up.
 */
module RamfsPath {

  const MAX_DEPTH: nat := 32

  class Dentry {
    var name: string
    var parent: Dentry?

    constructor (name: string, parent: Dentry?)
      ensures this.name == name && this.parent == parent
    {
      this.name := name;
      this.parent := parent;
    }
  }

  /** Names a dentry can have: not empty, no slash, no NUL. */
  predicate IsName(s: string) {
    s != "" && '/' !in s && '\0' !in s
  }

  /** The dentries that can be reached by climbing.  The root itself may be called anything; it is named "/". */
  ghost predicate Closed(tree: set<Dentry>, root: Dentry)
    reads tree
  {
    forall d :: d in tree ==> (d.parent == null || d.parent in tree) && (d != root ==> IsName(d.name))
  }

  /** The names from d up to the root, own name first, at most `limit` of them. */
  ghost function Climb(d: Dentry?, root: Dentry, limit: nat, tree: set<Dentry>): (ns: seq<string>)
    requires Closed(tree, root) && (d == null || d in tree)
    reads tree
    ensures |ns| <= limit && forall i :: 0 <= i < |ns| ==> IsName(ns[i])
  {
    if d == null || d == root || limit == 0 then [] else [d.name] + Climb(d.parent, root, limit - 1, tree)
  }

  // ----- Strings -----

  /** Joined by slashes, the last name first. */
  function Joined(ns: seq<string>): string {
    if |ns| == 0 then "" else if |ns| == 1 then ns[0] else Joined(ns[1..]) + "/" + ns[0]
  }

  /** What build_relative_dir adds up: each name and its slash. */
  function Total(ns: seq<string>): nat {
    if ns == [] then 0 else |ns[0]| + 1 + Total(ns[1..])
  }

  lemma {:induction false} JoinedLength(ns: seq<string>)
    requires ns != []
    ensures |Joined(ns)| + 1 == Total(ns)
  {
    if |ns| == 1 {
      assert Total(ns) == |ns[0]| + 1 + Total(ns[1..]);
    } else {
      JoinedLength(ns[1..]);
    }
  }

  lemma {:induction false} TotalSplit(ns: seq<string>, i: nat)
    requires i <= |ns|
    ensures Total(ns) == Total(ns[..i]) + Total(ns[i..])
  {
    if i == 0 {
      assert ns[0..] == ns;
    } else {
      TotalSplit(ns[1..], i - 1);
      assert ns[..i][1..] == ns[1..][..i - 1] && ns[i..] == ns[1..][i - 1..];
    }
  }

  lemma {:induction false} JoinedHasNoNul(ns: seq<string>)
    requires forall i :: 0 <= i < |ns| ==> '\0' !in ns[i]
    ensures '\0' !in Joined(ns)
  {
    if |ns| > 1 {
      JoinedHasNoNul(ns[1..]);
    }
  }

  /** The buffer holds the C string s. */
  predicate Holds(buf: seq<char>, s: string) {
    |s| < |buf| && buf[..|s|] == s && buf[|s|] == '\0' && '\0' !in s
  }

  /** strcat: the caller must have left room. */
  method Strcat(dst: array<char>, src: string, ghost was: string)
    requires Holds(dst[..], was) && '\0' !in src
    requires |was| + |src| < dst.Length
    modifies dst
    ensures Holds(dst[..], was + src)
  {
    assert forall k :: 0 <= k < |was| ==> dst[k] == dst[..][..|was|][k] == was[k];
    assert dst[|was|] == '\0';
    var n := 0;
    while dst[n] != '\0'
      invariant n <= |was|
      decreases |was| - n
    {
      n := n + 1;
    }
    assert n == |was|;
    var j := 0;
    while j < |src|
      invariant j <= |src|
      invariant dst[..n] == was && dst[n..n + j] == src[..j]
    {
      dst[n + j] := src[j];
      j := j + 1;
    }
    dst[n + j] := '\0';
    assert dst[..n + j] == was + src;
  }

  // ----- build_relative_dir -----

  /** The directory part of a position: empty for a file in the root, a dot for the root itself. */
  function RelativeDir(ns: seq<string>): string {
    if ns == [] then "." else Joined(ns[1..])
  }

  /** The first loop: the names on the way up, and the length they need. */
  method ClimbUp(dentry: Dentry, root: Dentry, pathComponents: array<string>, ghost tree: set<Dentry>)
    returns (depth: nat, totalLen: nat)
    requires Closed(tree, root) && dentry in tree && pathComponents.Length == MAX_DEPTH
    modifies pathComponents
    ensures depth <= MAX_DEPTH && pathComponents[..depth] == Climb(dentry, root, MAX_DEPTH, tree)
    ensures totalLen == Total(pathComponents[..depth])
  {
    hide Total, IsName;
    var temp: Dentry? := dentry;
    depth, totalLen := 0, 0;
    assert Total([]) == 0 by { TotalNone(); }
    ghost var names := Climb(dentry, root, MAX_DEPTH, tree);
    while temp != null && temp != root && depth < MAX_DEPTH
      invariant depth <= MAX_DEPTH && (temp == null || temp in tree)
      invariant names == pathComponents[..depth] + Climb(temp, root, MAX_DEPTH - depth, tree)
      invariant totalLen == Total(pathComponents[..depth])
      decreases MAX_DEPTH - depth
    {
      ghost var before, rest := pathComponents[..depth], Climb(temp.parent, root, MAX_DEPTH - depth - 1, tree);
      assert names == before + ([temp.name] + rest) == before + [temp.name] + rest;
      TotalSnoc(before, temp.name);
      pathComponents[depth] := temp.name;
      assert pathComponents[..depth + 1] == before + [temp.name];
      totalLen := totalLen + |temp.name| + 1;
      temp := temp.parent;
      depth := depth + 1;
    }
  }

  lemma TotalNone()
    ensures Total([]) == 0
  {
  }

  lemma TotalSnoc(ns: seq<string>, n: string)
    ensures Total(ns + [n]) == Total(ns) + |n| + 1
  {
    TotalSplit(ns + [n], |ns|);
    assert (ns + [n])[..|ns|] == ns && (ns + [n])[|ns|..] == [n];
    assert Total([n]) == |n| + 1;
  }

  /** The second loop: append from the top down, leaving out the file's own name. */
  method Append(result: array<char>, pathComponents: array<string>, depth: nat)
    requires 0 < depth <= pathComponents.Length && result.Length == Total(pathComponents[..depth]) + 1
    requires forall k :: 0 <= k < depth ==> IsName(pathComponents[k])
    modifies result
    ensures Holds(result[..], Joined(pathComponents[1..depth]))
  {
    ghost var names := pathComponents[..depth];
    result[0] := '\0';
    var i := depth - 1;
    assert names[i + 1..] == [];
    while i > 0
      invariant 0 <= i < depth && names == pathComponents[..depth]
      invariant Holds(result[..], Joined(names[i + 1..]))
    {
      RoomFor(names, i);
      ghost var so := Joined(names[i + 1..]);
      if i < depth - 1 {
        Strcat(result, "/", so);
        Strcat(result, pathComponents[i], so + "/");
      } else {
        Strcat(result, pathComponents[i], so);
      }
      i := i - 1;
    }
    assert names[1..] == pathComponents[1..depth];
  }

  /** build_relative_dir; `alloc` says whether the one allocation that is checked succeeds. */
  method BuildRelativeDir(dentry: Dentry, root: Dentry, alloc: bool, ghost tree: set<Dentry>)
    returns (result: array?<char>)
    requires Closed(tree, root) && dentry in tree
    ensures result == null <==> !alloc
    ensures result != null ==> Holds(result[..], RelativeDir(Climb(dentry, root, MAX_DEPTH, tree)))
  {
    var pathComponents := new string[MAX_DEPTH](_ => "");
    var depth, totalLen := ClimbUp(dentry, root, pathComponents, tree);
    ghost var names := pathComponents[..depth];
    assert forall k :: 0 <= k < depth ==> names[k] == pathComponents[k];
    if !alloc {
      return null;
    }
    if depth == 0 {
      result := new char[2](i => if i == 0 then '.' else '\0');
      assert result[..][..1] == ".";
    } else {
      result := new char[totalLen + 1](_ => '\0');
      Append(result, pathComponents, depth);
      assert names[1..] == pathComponents[1..depth];
    }
  }

  /** What is in the buffer after name i, and that there is room for it. */
  lemma RoomFor(ns: seq<string>, i: nat)
    requires 0 < i < |ns| && forall k :: 0 <= k < |ns| ==> IsName(ns[k])
    ensures Joined(ns[i..]) == if i < |ns| - 1 then Joined(ns[i + 1..]) + "/" + ns[i] else ns[i]
    ensures |Joined(ns[i..])| < Total(ns)
  {
    assert ns[i..][1..] == ns[i + 1..];
    JoinedLength(ns[i..]);
    TotalSplit(ns, i);
  }

  // ----- The sync path, and back -----

  /** "%s/%s/%s" in ramfs_sync_file_to_disk. */
  function SyncPath(dir: string, relative: string, name: string): string {
    dir + "/" + relative + "/" + name
  }

  /** The index of the last slash. */
  function LastSlash(s: string): (k: int)
    ensures -1 <= k < |s|
    ensures k >= 0 ==> s[k] == '/'
    ensures forall i :: k < i < |s| ==> s[i] != '/'
  {
    if s == "" then -1 else if s[|s| - 1] == '/' then |s| - 1 else LastSlash(s[..|s| - 1])
  }

  /** Cut at the slashes, the last piece first. */
  function Pieces(s: string): seq<string>
    decreases |s|
  {
    var k := LastSlash(s);
    if k < 0 then [s] else [s[k + 1..]] + Pieces(s[..k])
  }

  lemma {:induction false} PiecesOfJoined(ns: seq<string>)
    requires ns != [] && forall i :: 0 <= i < |ns| ==> '/' !in ns[i]
    ensures Pieces(Joined(ns)) == ns
  {
    var s := Joined(ns);
    if |ns| == 1 {
      assert LastSlash(s) == -1;
    } else {
      var head := Joined(ns[1..]);
      assert s[|head|] == '/';
      assert s[|head| + 1..] == ns[0];
      forall i | |head| < i < |s| ensures s[i] != '/' { assert s[i] == ns[0][i - |head| - 1]; }
      assert LastSlash(s) == |head|;
      assert s[..|head|] == head;
      PiecesOfJoined(ns[1..]);
    }
  }

  predicate IsPosition(ns: seq<string>) {
    ns != [] && forall i :: 0 <= i < |ns| ==> IsName(ns[i])
  }

  /** The sync path of the file at a position of at most 32 names. */
  function PathOf(dir: string, ns: seq<string>): string
    requires IsPosition(ns)
  {
    SyncPath(dir, RelativeDir(ns), ns[0])
  }

  /** Read a position back off a sync path. */
  function PositionOf(dir: string, path: string): seq<string>
    requires |path| > |dir|
  {
    var ps := Pieces(path[|dir| + 1..]);
    if |ps| == 2 && ps[1] == "" then ps[..1] else ps
  }

  /** The path can be split back into the names. */
  lemma PathRoundTrip(dir: string, ns: seq<string>)
    requires IsPosition(ns)
    ensures |PathOf(dir, ns)| > |dir| && PositionOf(dir, PathOf(dir, ns)) == ns
  {
    var path := PathOf(dir, ns);
    var parts := if |ns| == 1 then [ns[0], ""] else ns;
    assert |ns| == 1 ==> parts[1..] == [""];
    assert path[|dir| + 1..] == Joined(parts);
    PiecesOfJoined(parts);
  }

  /** The names that are left of a position however deep. */
  function Kept(ns: seq<string>): seq<string> {
    if |ns| > MAX_DEPTH then ns[..MAX_DEPTH] else ns
  }

  /** Two positions of any depth have the same sync path exactly when their last 32 names agree. */
  lemma SamePathIff(dir: string, ns: seq<string>, ms: seq<string>)
    requires IsPosition(ns) && IsPosition(ms)
    ensures PathOf(dir, Kept(ns)) == PathOf(dir, Kept(ms)) <==> Kept(ns) == Kept(ms)
  {
    PathRoundTrip(dir, Kept(ns));
    PathRoundTrip(dir, Kept(ms));
  }

  /** Files 33 deep that differ in the topmost directory only collide. */
  lemma Collision(dir: string)
    ensures var ns, ms := seq(MAX_DEPTH, _ => "a") + ["b"], seq(MAX_DEPTH, _ => "a") + ["c"];
            IsPosition(ns) && IsPosition(ms) && ns != ms && PathOf(dir, Kept(ns)) == PathOf(dir, Kept(ms))
  {
    var ns, ms := seq(MAX_DEPTH, _ => "a") + ["b"], seq(MAX_DEPTH, _ => "a") + ["c"];
    assert ns[MAX_DEPTH] == "b" && ms[MAX_DEPTH] == "c";
    assert Kept(ns) == seq(MAX_DEPTH, _ => "a") == Kept(ms);
  }

  // ----- From the dentry tree -----

  ghost predicate Reaches(d: Dentry?, root: Dentry, limit: nat, tree: set<Dentry>)
    requires Closed(tree, root) && (d == null || d in tree)
    reads tree
  {
    d == root || (d != null && limit > 0 && Reaches(d.parent, root, limit - 1, tree))
  }

  /** The limit cuts a longer climb short and does nothing else. */
  lemma {:induction false} ClimbIsKept(d: Dentry?, root: Dentry, limit: nat, more: nat, tree: set<Dentry>)
    requires Closed(tree, root) && (d == null || d in tree) && limit <= more
    ensures var ns, all := Climb(d, root, limit, tree), Climb(d, root, more, tree);
            ns == if |all| > limit then all[..limit] else all
  {
    if d != null && d != root && limit > 0 {
      ClimbIsKept(d.parent, root, limit - 1, more - 1, tree);
    }
  }

  ghost predicate SiblingsDiffer(tree: set<Dentry>)
    reads tree
  {
    forall d, e :: d in tree && e in tree && d.parent == e.parent && d.name == e.name ==> d == e
  }

  lemma {:induction false} PositionIsDentry(d: Dentry, e: Dentry, root: Dentry, limit: nat, tree: set<Dentry>)
    requires Closed(tree, root) && SiblingsDiffer(tree) && d in tree && e in tree
    requires Reaches(d, root, limit, tree) && Reaches(e, root, limit, tree)
    requires Climb(d, root, limit, tree) == Climb(e, root, limit, tree)
    ensures d == e
  {
    if d != root {
      assert e != root && limit > 0;
      var ds, es := Climb(d, root, limit, tree), Climb(e, root, limit, tree);
      assert ds == [d.name] + Climb(d.parent, root, limit - 1, tree);
      assert es == [e.name] + Climb(e.parent, root, limit - 1, tree);
      assert ds[0] == es[0] && ds[1..] == es[1..];
      assert d.parent != null && e.parent != null;
      PositionIsDentry(d.parent, e.parent, root, limit - 1, tree);
    }
  }

  /** Within 32 levels of the root, files with the same sync path are the same file. */
  lemma SyncPathInjective(dir: string, d: Dentry, e: Dentry, root: Dentry, tree: set<Dentry>)
    requires Closed(tree, root) && SiblingsDiffer(tree) && d in tree && e in tree && d != root && e != root
    requires Reaches(d, root, MAX_DEPTH, tree) && Reaches(e, root, MAX_DEPTH, tree)
    requires SyncPath(dir, RelativeDir(Climb(d, root, MAX_DEPTH, tree)), d.name) ==
             SyncPath(dir, RelativeDir(Climb(e, root, MAX_DEPTH, tree)), e.name)
    ensures d == e
  {
    var ns, ms := Climb(d, root, MAX_DEPTH, tree), Climb(e, root, MAX_DEPTH, tree);
    PathRoundTrip(dir, ns);
    PathRoundTrip(dir, ms);
    PositionIsDentry(d, e, root, MAX_DEPTH, tree);
  }

  /** A root named "/" with a directory and a file in it is such a tree, and the file is synced to "dir/a/b". */
  method RealTree() returns (root: Dentry, file: Dentry, ghost tree: set<Dentry>)
    ensures Closed(tree, root) && SiblingsDiffer(tree) && root in tree && file in tree && root.name == "/"
    ensures Reaches(file, root, MAX_DEPTH, tree)
    ensures SyncPath("dir", RelativeDir(Climb(file, root, MAX_DEPTH, tree)), file.name) == "dir/a/b"
  {
    root := new Dentry("/", null);
    root.parent := root;
    var a := new Dentry("a", root);
    file := new Dentry("b", a);
    tree := {root, a, file};
    assert IsName("a") && IsName("b");
    assert Climb(root, root, MAX_DEPTH - 2, tree) == [];
    assert Climb(a, root, MAX_DEPTH - 1, tree) == ["a"];
    assert Climb(file, root, MAX_DEPTH, tree) == ["b", "a"];
    assert ["b", "a"][1..] == ["a"];
  }
}
