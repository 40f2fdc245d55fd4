/** The path helpers of `MiraboxGithubInstaller`: where a bundle's root is, which
    blobs belong to it and where they go. */
module BundlePaths {
  import opened Seqs
  import opened Wrappers

  const MANIFEST := "manifest.json"
  const MAX_FILES := 512
  const MAX_TOTAL_BYTES := 64 * 1024 * 1024

  /** One entry of the recursive tree listing. */
  datatype TreeEntry = TreeEntry(path: string, isBlob: bool, size: int)

  /** A blob to fetch and the staging path it goes to. */
  datatype Blob = Blob(path: string, destRel: string)

  predicate EndsWith(s: string, suffix: string) {
    |s| >= |suffix| && s[|s| - |suffix|..] == suffix
  }

  /** The directory of a manifest path; nothing for any other path. */
  function ManifestRoot(p: string): Option<string> {
    if p == MANIFEST then Some("")
    else if EndsWith(p, "/" + MANIFEST) then Some(p[..|p| - |MANIFEST| - 1])
    else None
  }

  function CountSlashes(s: string): nat {
    if s == "" then 0 else (if s[0] == '/' then 1 else 0) + CountSlashes(s[1..])
  }

  function Depth(root: string): nat {
    if root == "" then 0 else CountSlashes(root) + 1
  }

  /** `findBundleRoot`: the first of the shallowest manifest directories. */
  function FindRoot(paths: seq<string>): Option<string> {
    RootAmong(paths, |paths|)
  }

  /** The same of the first `n` paths. */
  function RootAmong(paths: seq<string>, n: nat): Option<string>
    requires n <= |paths|
  {
    if n == 0 then None else Shallower(RootAmong(paths, n - 1), ManifestRoot(paths[n - 1]))
  }

  /** The best root so far, and one more. */
  function Shallower(best: Option<string>, root: Option<string>): Option<string> {
    if root.None? then best
    else if best.None? || Depth(root.value) < Depth(best.value) then root
    else best
  }

  method FindBundleRoot(blobPaths: seq<string>) returns (r: Option<string>)
    ensures r == FindRoot(blobPaths)
  {
    var best := "";
    var found := false;
    var bestDepth := 0;
    for i := 0 to |blobPaths|
      invariant RootAmong(blobPaths, i) == if found then Some(best) else None
      invariant found ==> bestDepth == Depth(best)
    {
      var p := blobPaths[i];
      var root := "";
      var isManifest := false;
      if p == MANIFEST {
        isManifest := true;
      } else if EndsWith(p, "/" + MANIFEST) {
        root := p[..|p| - |MANIFEST| - 1];
        isManifest := true;
      }
      assert ManifestRoot(p) == if isManifest then Some(root) else None;
      if isManifest {
        var depth := if root == "" then 0 else CountSlashes(root) + 1;
        if !found || depth < bestDepth {
          best, bestDepth, found := root, depth, true;
        }
      }
    }
    return if found then Some(best) else None;
  }

  predicate IsManifest(p: string) {
    ManifestRoot(p).Some?
  }

  function ManifestDepth(p: string): nat
    requires IsManifest(p)
  {
    Depth(ManifestRoot(p).value)
  }

  /** `paths[i]` is the first of the shallowest manifests among the first `n` paths. */
  ghost predicate IsShallowestOf(paths: seq<string>, n: nat, i: nat)
    requires n <= |paths|
  {
    && i < n && IsManifest(paths[i])
    && (forall j | 0 <= j < n && IsManifest(paths[j]) :: ManifestDepth(paths[i]) <= ManifestDepth(paths[j]))
    && (forall j | 0 <= j < i && IsManifest(paths[j]) :: ManifestDepth(paths[i]) < ManifestDepth(paths[j]))
  }

  /** `paths[i]` is the first of the shallowest manifests. */
  ghost predicate IsFirstShallowest(paths: seq<string>, i: nat) {
    IsShallowestOf(paths, |paths|, i)
  }

  lemma {:induction false} RootAmongIsShallowest(paths: seq<string>, n: nat) returns (i: nat)
    requires n <= |paths|
    ensures RootAmong(paths, n).None? ==> forall j | 0 <= j < n :: !IsManifest(paths[j])
    ensures RootAmong(paths, n).Some? ==>
              IsShallowestOf(paths, n, i) && ManifestRoot(paths[i]) == RootAmong(paths, n)
  {
    i := 0;
    if n > 0 {
      var p := paths[n - 1];
      i := RootAmongIsShallowest(paths, n - 1);
      if IsManifest(p) && (RootAmong(paths, n - 1).None? || ManifestDepth(p) < ManifestDepth(paths[i])) {
        i := n - 1;
      }
    }
  }

  /** The root is that of the first of the shallowest manifests; there is none exactly
      when no path is a manifest. */
  lemma FindRootIsShallowest(paths: seq<string>)
    ensures FindRoot(paths).None? ==> forall p | p in paths :: !IsManifest(p)
    ensures FindRoot(paths).Some? ==>
              exists i: nat :: IsFirstShallowest(paths, i) && ManifestRoot(paths[i]) == FindRoot(paths)
  {
    var i := RootAmongIsShallowest(paths, |paths|);
    assert FindRoot(paths).Some? ==> IsFirstShallowest(paths, i);
  }

  // ---- Safe paths ---------------------------------------------------------------------------

  /** `split('/', SkipEmptyParts)`, with `current` the component being read. */
  function Components(p: string, current: string): seq<string>
    decreases |p|
  {
    var done := if current == "" then [] else [current];
    if p == "" then done
    else if p[0] == '/' then done + Components(p[1..], "")
    else Components(p[1..], current + [p[0]])
  }

  predicate IsSafeRelPath(p: string) {
    && p != ""
    && p[0] != '/' && p[0] != '\\'
    && '\\' !in p
    && ':' !in p
    && ".." !in Components(p, "")
  }

  /** `..` between slashes or the ends of the path. */
  ghost predicate HasDotDot(p: string) {
    exists i: nat :: DotDotAt(p, i)
  }

  predicate DotDotAt(p: string, i: nat) {
    && i + 2 <= |p| && p[i..i + 2] == ".."
    && (i == 0 || p[i - 1] == '/')
    && (i + 2 == |p| || p[i + 2] == '/')
  }

  lemma DotDotInOne(c: string)
    requires '/' !in c
    ensures HasDotDot(c) <==> c == ".."
  {
    if i: nat :| DotDotAt(c, i) {
      assert i == 0 && |c| == 2 && c[0..2] == c;
    }
    if c == ".." {
      assert DotDotAt(c, 0);
    }
  }

  lemma DotDotAfterSlash(c: string, rest: string, i: nat)
    requires '/' !in c
    ensures DotDotAt(c + "/" + rest, |c| + 1 + i) <==> DotDotAt(rest, i)
  {
    var p := c + "/" + rest;
    if i + 2 <= |rest| {
      assert p[|c| + 1 + i..|c| + 3 + i] == rest[i..i + 2];
    }
  }

  lemma DotDotBeforeSlash(c: string, rest: string, i: nat)
    requires '/' !in c && i <= |c|
    ensures DotDotAt(c + "/" + rest, i) <==> i == 0 && c == ".."
  {
    var p := c + "/" + rest;
    if DotDotAt(p, i) {
      assert p[i..i + 2][0] == '.' && p[i..i + 2][1] == '.';
      assert i == 0;
      assert p[2] == '/' && |c| == 2 && p[..2] == c;
    }
    if i == 0 && c == ".." {
      assert p[0..2] == "..";
    }
  }

  lemma DotDotAtSlash(c: string, rest: string)
    requires '/' !in c
    ensures HasDotDot(c + "/" + rest) <==> c == ".." || HasDotDot(rest)
  {
    if i: nat :| DotDotAt(c + "/" + rest, i) {
      if i <= |c| {
        DotDotBeforeSlash(c, rest, i);
      } else {
        DotDotAfterSlash(c, rest, i - |c| - 1);
      }
    }
    DotDotBeforeSlash(c, rest, 0);
    if i: nat :| DotDotAt(rest, i) {
      DotDotAfterSlash(c, rest, i);
    }
  }

  /** `..` is a component if and only if it stands between slashes or ends. */
  lemma {:induction false} ComponentsFindDotDot(p: string, current: string)
    requires '/' !in current
    ensures ".." in Components(p, current) <==> HasDotDot(current + p)
    decreases |p|
  {
    if p == "" {
      EmptyIsUnit(current);
      DotDotInOne(current);
    } else if p[0] == '/' {
      ComponentsFindDotDot(p[1..], "");
      EmptyIsUnit(p[1..]);
      DotDotAtSlash(current, p[1..]);
      assert current + p == current + "/" + p[1..];
    } else {
      ComponentsFindDotDot(p[1..], current + [p[0]]);
      assert current + p == current + [p[0]] + p[1..];
    }
  }

  /** A path is safe if and only if it is not empty, starts with no slash, has no backslash and no
      colon, and nowhere `..` between slashes or its ends. */
  lemma SafePathsHaveNoDotDot(p: string)
    ensures IsSafeRelPath(p) <==> p != "" && p[0] != '/' && '\\' !in p && ':' !in p && !HasDotDot(p)
  {
    ComponentsFindDotDot(p, "");
    EmptyIsUnit(p);
    assert p != "" ==> p[0] in p;
  }

  // ---- The fetch list ---------------------------------------------------------------------------

  function BlobPaths(tree: seq<TreeEntry>): seq<string> {
    if tree == [] then []
    else BlobPaths(tree[..|tree| - 1])
         + if tree[|tree| - 1].isBlob then [tree[|tree| - 1].path] else []
  }

  function Prefix(root: string): string {
    if root == "" then "" else root + "/"
  }

  predicate Belongs(e: TreeEntry, root: string) {
    e.isBlob && Prefix(root) <= e.path
  }

  function ToBlob(e: TreeEntry, root: string): Blob
    requires Belongs(e, root)
  {
    Blob(e.path, e.path[|Prefix(root)|..])
  }

  /** The blobs under the bundle root, renamed relative to it, in tree order. */
  function BundleBlobs(tree: seq<TreeEntry>, root: string): seq<Blob> {
    if tree == [] then []
    else
      var e := tree[|tree| - 1];
      BundleBlobs(tree[..|tree| - 1], root) + if Belongs(e, root) then [ToBlob(e, root)] else []
  }

  function DeclaredBytes(tree: seq<TreeEntry>, root: string): int {
    if tree == [] then 0
    else
      var e := tree[|tree| - 1];
      DeclaredBytes(tree[..|tree| - 1], root) + if Belongs(e, root) then e.size else 0
  }

  /** No check of the collecting loop fails. */
  predicate WithinLimits(tree: seq<TreeEntry>, root: string) {
    tree == [] ||
    (var e := tree[|tree| - 1];
     && WithinLimits(tree[..|tree| - 1], root)
     && (Belongs(e, root) ==>
           && IsSafeRelPath(ToBlob(e, root).destRel)
           && DeclaredBytes(tree, root) <= MAX_TOTAL_BYTES
           && |BundleBlobs(tree, root)| <= MAX_FILES))
  }

  lemma {:induction false} PrefixWithinLimits(tree: seq<TreeEntry>, root: string, n: nat)
    requires WithinLimits(tree, root) && n <= |tree|
    ensures WithinLimits(tree[..n], root)
  {
    if n < |tree| {
      PrefixWithinLimits(tree[..|tree| - 1], root, n);
      assert tree[..|tree| - 1][..n] == tree[..n];
    } else {
      assert tree[..n] == tree;
    }
  }

  /** The three running values of the collecting loop after one more entry. */
  lemma OneMoreEntry(tree: seq<TreeEntry>, root: string, i: nat)
    requires i < |tree|
    ensures var e := tree[i];
            var blobs := BundleBlobs(tree[..i], root) + if Belongs(e, root) then [ToBlob(e, root)] else [];
            var total := DeclaredBytes(tree[..i], root) + if Belongs(e, root) then e.size else 0;
            && BundleBlobs(tree[..i + 1], root) == blobs
            && DeclaredBytes(tree[..i + 1], root) == total
            && (WithinLimits(tree[..i + 1], root) <==>
                  WithinLimits(tree[..i], root)
                  && (Belongs(e, root) ==>
                        IsSafeRelPath(ToBlob(e, root).destRel) && total <= MAX_TOTAL_BYTES && |blobs| <= MAX_FILES))
    ensures WithinLimits(tree, root) ==> WithinLimits(tree[..i + 1], root)
  {
    var seen := tree[..i + 1];
    assert seen[..|seen| - 1] == tree[..i] && seen[|seen| - 1] == tree[i];
    if WithinLimits(tree, root) {
      PrefixWithinLimits(tree, root, i + 1);
    }
  }

  /** The fetch list `onTree` builds, or nothing when a check fails. */
  method CollectBlobs(tree: seq<TreeEntry>, root: string) returns (pending: Option<seq<Blob>>)
    ensures pending == if WithinLimits(tree, root) then Some(BundleBlobs(tree, root)) else None
  {
    var prefix := if root == "" then "" else root + "/";
    var blobs: seq<Blob> := [];
    var declaredTotal := 0;
    for i := 0 to |tree|
      invariant blobs == BundleBlobs(tree[..i], root)
      invariant declaredTotal == DeclaredBytes(tree[..i], root)
      invariant WithinLimits(tree[..i], root)
    {
      var e := tree[i];
      OneMoreEntry(tree, root, i);
      if e.isBlob && (root == "" || prefix <= e.path) {
        var destRel := if root == "" then e.path else e.path[|prefix|..];
        assert ToBlob(e, root) == Blob(e.path, destRel);
        if !IsSafeRelPath(destRel) {
          return None;
        }
        declaredTotal := declaredTotal + e.size;
        if declaredTotal > MAX_TOTAL_BYTES {
          return None;
        }
        blobs := blobs + [Blob(e.path, destRel)];
        if |blobs| > MAX_FILES {
          return None;
        }
      }
    }
    assert tree[..|tree|] == tree;
    return Some(blobs);
  }

  /** The bundle is the blobs under the root, and the renaming is injective. */
  lemma {:induction false} BundleBlobsAreTheBundle(tree: seq<TreeEntry>, root: string)
    ensures forall b :: b in BundleBlobs(tree, root) <==>
              exists e | e in tree :: Belongs(e, root) && ToBlob(e, root) == b
    ensures forall b | b in BundleBlobs(tree, root) :: b.path == Prefix(root) + b.destRel
  {
    if tree != [] {
      var front, last := tree[..|tree| - 1], tree[|tree| - 1];
      BundleBlobsAreTheBundle(front, root);
      assert forall e :: e in tree <==> e in front || e == last;
    }
  }

  lemma {:induction false} BlobPathsAreTheBlobs(tree: seq<TreeEntry>, p: string)
    ensures p in BlobPaths(tree) <==> exists e | e in tree :: e.isBlob && e.path == p
  {
    if tree != [] {
      var front, last := tree[..|tree| - 1], tree[|tree| - 1];
      BlobPathsAreTheBlobs(front, p);
      assert forall e :: e in tree <==> e in front || e == last;
    }
  }

  lemma {:induction false} SafeBlobs(tree: seq<TreeEntry>, root: string, e: TreeEntry)
    requires WithinLimits(tree, root) && e in tree && Belongs(e, root)
    ensures IsSafeRelPath(ToBlob(e, root).destRel)
  {
    if e != tree[|tree| - 1] {
      assert tree == tree[..|tree| - 1] + [tree[|tree| - 1]];
      SafeBlobs(tree[..|tree| - 1], root, e);
    }
  }

  lemma ManifestUnder(p: string, root: string)
    requires ManifestRoot(p) == Some(root)
    ensures if p == MANIFEST then root == "" else p == root + "/" + MANIFEST
  {
  }

  lemma SlashManifestIsUnsafe()
    ensures !IsSafeRelPath("/" + MANIFEST)
  {
  }

  lemma RootManifestBelongs(e: TreeEntry, root: string)
    requires e.isBlob && ManifestRoot(e.path) == Some(root)
    ensures Belongs(e, root)
    ensures ToBlob(e, root).destRel == if root == "" then e.path else MANIFEST
  {
    ManifestUnder(e.path, root);
    if root != "" {
      assert e.path[..|root| + 1] == Prefix(root) && e.path[|root| + 1..] == MANIFEST;
    }
  }

  /** The blob whose manifest decided the root. */
  lemma RootHasManifest(tree: seq<TreeEntry>, root: string) returns (e: TreeEntry)
    requires FindRoot(BlobPaths(tree)) == Some(root)
    ensures e in tree && e.isBlob && ManifestRoot(e.path) == Some(root)
  {
    var paths := BlobPaths(tree);
    FindRootIsShallowest(paths);
    var i: nat :| IsFirstShallowest(paths, i) && ManifestRoot(paths[i]) == Some(root);
    BlobPathsAreTheBlobs(tree, paths[i]);
    e :| e in tree && e.isBlob && e.path == paths[i];
  }

  /** A manifest without a directory is the top one, or `/manifest.json`. */
  lemma RootlessManifest(p: string)
    requires ManifestRoot(p) == Some("") && p != MANIFEST
    ensures !IsSafeRelPath(p)
  {
    SlashManifestIsUnsafe();
    ManifestUnder(p, "");
    EmptyIsUnit("/");
  }

  lemma SafeManifest(e: TreeEntry, root: string)
    requires e.isBlob && ManifestRoot(e.path) == Some(root) && IsSafeRelPath(ToBlob(e, root).destRel)
    ensures ToBlob(e, root).destRel == MANIFEST
  {
    RootManifestBelongs(e, root);
    if root == "" && e.path != MANIFEST {
      RootlessManifest(e.path);
    }
  }

  /** An accepted bundle has its manifest at the root of the staging directory: a
      manifest at `/manifest.json`, which has no directory either, is refused as unsafe. */
  lemma ManifestAtTheRoot(tree: seq<TreeEntry>, root: string)
    requires FindRoot(BlobPaths(tree)) == Some(root) && WithinLimits(tree, root)
    ensures exists b | b in BundleBlobs(tree, root) :: b.destRel == MANIFEST
  {
    var e := RootHasManifest(tree, root);
    RootManifestBelongs(e, root);
    SafeBlobs(tree, root, e);
    SafeManifest(e, root);
    BundleBlobsAreTheBundle(tree, root);
    assert ToBlob(e, root) in BundleBlobs(tree, root);
  }

  /** An accepted bundle is within the file cap. */
  lemma {:induction false} FewFiles(tree: seq<TreeEntry>, root: string)
    requires WithinLimits(tree, root)
    ensures |BundleBlobs(tree, root)| <= MAX_FILES
  {
    if tree != [] {
      FewFiles(tree[..|tree| - 1], root);
    }
  }
}
