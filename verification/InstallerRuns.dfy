/** When an installation succeeds, said of the listing, the tree and the blobs the server answers with. */
module InstallerRuns {
  import opened Wrappers
  import opened Seqs
  import opened BundlePaths
  import opened BundleInstaller

  // ---- The bundle's root -------------------------------------------------------------------------

  /** The path is that of a manifest in the directory `root`. */
  predicate IsManifestIn(p: string, root: string) {
    (root == "" && p == "manifest.json") || p == root + "/manifest.json"
  }

  /** How many directories the bundle's root is down. */
  function Levels(root: string): nat {
    if root == "" then 0 else multiset(root)['/'] + 1
  }

  /** Entry `i` is the first blob among those that are manifests the fewest levels down. */
  ghost predicate DecidesRoot(tree: seq<TreeEntry>, i: nat, root: string) {
    && i < |tree| && tree[i].isBlob && IsManifestIn(tree[i].path, root)
    && forall j, r | 0 <= j < |tree| && tree[j].isBlob && IsManifestIn(tree[j].path, r) ::
         Levels(root) <= Levels(r) && (j < i ==> Levels(root) < Levels(r))
  }

  ghost predicate HasManifest(tree: seq<TreeEntry>) {
    exists i, r | 0 <= i < |tree| && tree[i].isBlob :: IsManifestIn(tree[i].path, r)
  }

  lemma {:induction false} SlashesAreCounted(s: string)
    ensures CountSlashes(s) == multiset(s)['/']
  {
    if s != "" {
      SlashesAreCounted(s[1..]);
      ConsOfTail(s);
      assert multiset(s) == multiset([s[0]]) + multiset(s[1..]);
    }
  }

  lemma LevelsAreDepth(root: string)
    ensures Levels(root) == Depth(root)
  {
    SlashesAreCounted(root);
  }

  lemma SlashManifest()
    ensures "/" + MANIFEST == "/manifest.json"
  {
  }

  lemma SlashManifestEnds(root: string)
    ensures ManifestRoot(root + "/manifest.json") == Some(root)
  {
    var p := root + "/manifest.json";
    SlashManifest();
    assert p[|p| - 14..] == "/manifest.json" && p[..|p| - 14] == root;
    assert |p| > |MANIFEST|;
  }

  lemma ManifestRootIs(p: string, root: string)
    ensures ManifestRoot(p) == Some(root) <==> IsManifestIn(p, root)
  {
    SlashManifest();
    if ManifestRoot(p) == Some(root) {
      ManifestUnder(p, root);
      Associates(root, "/", MANIFEST);
    }
    SlashManifestEnds(root);
  }

  lemma {:induction false} RootAmongPush(paths: seq<string>, p: string, n: nat)
    requires n <= |paths|
    ensures RootAmong(paths + [p], n) == RootAmong(paths, n)
  {
    if n > 0 {
      RootAmongPush(paths, p, n - 1);
    }
  }

  /** The root of a tree's blobs. */
  function RootOf(tree: seq<TreeEntry>): Option<string> {
    FindRoot(BlobPaths(tree))
  }

  lemma RootOfPush(front: seq<TreeEntry>, e: TreeEntry)
    ensures RootOf(front + [e]) == if e.isBlob then Shallower(RootOf(front), ManifestRoot(e.path)) else RootOf(front)
  {
    FrontOfPush(front, e);
    if e.isBlob {
      RootAmongPush(BlobPaths(front), e.path, |BlobPaths(front)|);
    } else {
      EmptyIsUnit(BlobPaths(front));
    }
  }

  lemma OtherRoots(p: string, r: string)
    requires ManifestRoot(p).None?
    ensures !IsManifestIn(p, r)
  {
    ManifestRootIs(p, r);
  }

  lemma OneRoot(p: string, r: string, q: string)
    requires IsManifestIn(p, r) && IsManifestIn(p, q)
    ensures r == q
  {
    ManifestRootIs(p, r);
    ManifestRootIs(p, q);
  }

  lemma KeepsDeciding(front: seq<TreeEntry>, e: TreeEntry, i: nat, root: string)
    requires DecidesRoot(front, i, root)
    requires e.isBlob ==> forall r | IsManifestIn(e.path, r) :: Levels(root) <= Levels(r)
    ensures DecidesRoot(front + [e], i, root)
  {
    var tree := front + [e];
    assert tree[i] == front[i];
    forall j, r | 0 <= j < |tree| && tree[j].isBlob && IsManifestIn(tree[j].path, r)
      ensures Levels(root) <= Levels(r) && (j < i ==> Levels(root) < Levels(r))
    {
      if j < |front| {
        assert tree[j] == front[j];
      }
    }
  }

  lemma StartsDeciding(front: seq<TreeEntry>, e: TreeEntry, root: string)
    requires e.isBlob && IsManifestIn(e.path, root)
    requires forall j, r | 0 <= j < |front| && front[j].isBlob && IsManifestIn(front[j].path, r) ::
               Levels(root) < Levels(r)
    ensures DecidesRoot(front + [e], |front|, root)
  {
    var tree := front + [e];
    forall j, r | 0 <= j < |tree| && tree[j].isBlob && IsManifestIn(tree[j].path, r)
      ensures Levels(root) <= Levels(r) && (j < |front| ==> Levels(root) < Levels(r))
    {
      if j < |front| {
        assert tree[j] == front[j];
      } else {
        OneRoot(e.path, root, r);
      }
    }
  }

  /** The root found is the decided one, and there is none exactly when no blob is a manifest. */
  lemma {:induction false} RootIsDecided(tree: seq<TreeEntry>) returns (i: nat)
    ensures RootOf(tree).None? ==> !HasManifest(tree)
    ensures RootOf(tree).Some? ==> DecidesRoot(tree, i, RootOf(tree).value)
  {
    i := 0;
    if tree != [] {
      var front, e := tree[..|tree| - 1], tree[|tree| - 1];
      assert tree == front + [e];
      i := RootIsDecided(front);
      RootOfPush(front, e);
      if !e.isBlob || ManifestRoot(e.path).None? {
        if e.isBlob {
          forall r
            ensures !IsManifestIn(e.path, r)
          {
            OtherRoots(e.path, r);
          }
        }
        if RootOf(front).Some? {
          KeepsDeciding(front, e, i, RootOf(front).value);
        }
      } else {
        i := OneMoreManifest(front, e, i);
      }
    }
  }

  lemma OneMoreManifest(front: seq<TreeEntry>, e: TreeEntry, i: nat) returns (next: nat)
    requires e.isBlob && ManifestRoot(e.path).Some?
    requires RootOf(front).None? ==> !HasManifest(front)
    requires RootOf(front).Some? ==> DecidesRoot(front, i, RootOf(front).value)
    ensures RootOf(front + [e]).Some? && DecidesRoot(front + [e], next, RootOf(front + [e]).value)
  {
    var root := ManifestRoot(e.path).value;
    ManifestRootIs(e.path, root);
    LevelsAreDepth(root);
    RootOfPush(front, e);
    if RootOf(front).None? {
      StartsDeciding(front, e, root);
      next := |front|;
    } else {
      var best := RootOf(front).value;
      LevelsAreDepth(best);
      if Levels(root) < Levels(best) {
        StartsDeciding(front, e, root);
        next := |front|;
      } else {
        forall r | IsManifestIn(e.path, r)
          ensures Levels(best) <= Levels(r)
        {
          OneRoot(e.path, root, r);
        }
        KeepsDeciding(front, e, i, best);
        next := i;
      }
    }
  }

  lemma Decides(tree: seq<TreeEntry>, i: nat, r: string, j: nat, q: string)
    requires DecidesRoot(tree, i, r) && j < |tree| && tree[j].isBlob && IsManifestIn(tree[j].path, q)
    ensures Levels(r) <= Levels(q) && (j < i ==> Levels(r) < Levels(q))
  {
  }

  lemma OneDecides(tree: seq<TreeEntry>, i: nat, r: string, j: nat, q: string)
    requires DecidesRoot(tree, i, r) && DecidesRoot(tree, j, q)
    ensures r == q
  {
    Decides(tree, i, r, j, q);
    Decides(tree, j, q, i, r);
    if i == j {
      OneRoot(tree[i].path, r, q);
    }
  }

  /** Main result: the bundle's root is the directory of the first blob that is a manifest the fewest
      levels down, and there is no root if and only if no blob is a manifest. */
  lemma RootIs(tree: seq<TreeEntry>, root: string)
    ensures RootOf(tree) == Some(root) <==> exists i: nat :: DecidesRoot(tree, i, root)
    ensures RootOf(tree) == None <==> !HasManifest(tree)
  {
    var i := RootIsDecided(tree);
    if j: nat :| DecidesRoot(tree, j, root) {
      assert HasManifest(tree);
      OneDecides(tree, i, RootOf(tree).value, j, root);
    }
    if RootOf(tree).Some? {
      assert tree[i].isBlob && IsManifestIn(tree[i].path, RootOf(tree).value);
    }
  }

  // ---- The bundle ---------------------------------------------------------------------------------------

  /** A blob anywhere under the root. */
  predicate IsMember(e: TreeEntry, root: string) {
    e.isBlob && (root == "" || (|root| < |e.path| && e.path[..|root| + 1] == root + "/"))
  }

  function MembersOf(tree: seq<TreeEntry>, root: string): (members: seq<TreeEntry>)
    ensures forall e | e in members :: IsMember(e, root)
  {
    if tree == [] then []
    else MembersOf(tree[..|tree| - 1], root) + if IsMember(tree[|tree| - 1], root) then [tree[|tree| - 1]] else []
  }

  /** The path from the root. */
  function Relative(e: TreeEntry, root: string): string
    requires IsMember(e, root)
  {
    if root == "" then e.path else e.path[|root| + 1..]
  }

  function Sizes(es: seq<TreeEntry>): int {
    if es == [] then 0 else Sizes(es[..|es| - 1]) + es[|es| - 1].size
  }

  lemma MemberBelongs(e: TreeEntry, root: string)
    ensures Belongs(e, root) <==> IsMember(e, root)
    ensures IsMember(e, root) ==> ToBlob(e, root) == Blob(e.path, Relative(e, root))
  {
    if root != "" && |root| < |e.path| {
      assert Prefix(root) <= e.path <==> e.path[..|root| + 1] == root + "/";
    }
  }

  /** The blob fetches this entry, and puts it at its path from the root. */
  predicate Fetches(blob: Blob, e: TreeEntry, root: string) {
    IsMember(e, root) && blob == Blob(e.path, Relative(e, root))
  }

  ghost predicate FetchesEach(blobs: seq<Blob>, members: seq<TreeEntry>, root: string) {
    |blobs| == |members| && forall i | 0 <= i < |members| :: Fetches(blobs[i], members[i], root)
  }

  lemma FetchesEachPush(blobs: seq<Blob>, members: seq<TreeEntry>, root: string, blob: Blob, e: TreeEntry)
    requires FetchesEach(blobs, members, root) && Fetches(blob, e, root)
    ensures FetchesEach(blobs + [blob], members + [e], root)
  {
  }

  /** The fetch list is the members in tree order, each with its path from the root. */
  lemma {:induction false} FetchListIsMembers(tree: seq<TreeEntry>, root: string)
    ensures FetchesEach(BundleBlobs(tree, root), MembersOf(tree, root), root)
  {
    if tree != [] {
      var front, e := tree[..|tree| - 1], tree[|tree| - 1];
      FetchListIsMembers(front, root);
      MemberBelongs(e, root);
      if IsMember(e, root) {
        FetchesEachPush(BundleBlobs(front, root), MembersOf(front, root), root, ToBlob(e, root), e);
      } else {
        EmptyIsUnit(BundleBlobs(front, root));
        EmptyIsUnit(MembersOf(front, root));
      }
    }
  }

  lemma {:induction false} DeclaredIsSizes(tree: seq<TreeEntry>, root: string)
    ensures DeclaredBytes(tree, root) == Sizes(MembersOf(tree, root))
  {
    if tree != [] {
      var front, e := tree[..|tree| - 1], tree[|tree| - 1];
      DeclaredIsSizes(front, root);
      MemberBelongs(e, root);
      if IsMember(e, root) {
        FrontOfPush(MembersOf(front, root), e);
      } else {
        EmptyIsUnit(MembersOf(front, root));
      }
    }
  }

  /** All within the caps at every step, and every path from the root safe. */
  ghost predicate Acceptable(members: seq<TreeEntry>, root: string)
    requires forall e | e in members :: IsMember(e, root)
  {
    |members| <= 512 && SizesFit(members) && SafeThroughout(members, root)
  }

  /** Not empty, no leading slash, no backslash, no colon, and no `..` between slashes or ends. */
  ghost predicate SafeRelative(p: string) {
    p != "" && p[0] != '/' && '\\' !in p && ':' !in p && !HasDotDot(p)
  }

  lemma AcceptablePush(members: seq<TreeEntry>, e: TreeEntry, root: string)
    requires (forall x | x in members :: IsMember(x, root)) && IsMember(e, root)
    ensures Acceptable(members + [e], root) <==>
            && Acceptable(members, root) && |members| < 512
            && Sizes(members + [e]) <= 64 * 1024 * 1024 && SafeRelative(Relative(e, root))
  {
    SizesPush(members, e);
    var all := members + [e];
    assert forall x :: x in all <==> x in members || x == e;
    assert SafeThroughout(all, root) <==> SafeThroughout(members, root) && SafeRelative(Relative(e, root));
  }

  /** No beginning of the list declares too much. */
  ghost predicate SizesFit(members: seq<TreeEntry>) {
    forall n | 0 <= n <= |members| :: Sizes(members[..n]) <= 64 * 1024 * 1024
  }

  ghost predicate SafeThroughout(members: seq<TreeEntry>, root: string)
    requires forall e | e in members :: IsMember(e, root)
  {
    forall e | e in members :: SafeRelative(Relative(e, root))
  }

  lemma SizesPush(members: seq<TreeEntry>, e: TreeEntry)
    ensures SizesFit(members + [e]) <==> SizesFit(members) && Sizes(members + [e]) <= 64 * 1024 * 1024
  {
    var all := members + [e];
    assert all[..|all|] == all && forall n | 0 <= n <= |members| :: all[..n] == members[..n];
    if SizesFit(all) {
      forall n | 0 <= n <= |members|
        ensures Sizes(members[..n]) <= 64 * 1024 * 1024
      {
        assert Sizes(all[..n]) <= 64 * 1024 * 1024;
      }
    }
  }

  /** The checks of the collecting loop all pass if and only if the bundle is acceptable. */
  lemma {:induction false} LimitsAreAcceptable(tree: seq<TreeEntry>, root: string)
    ensures WithinLimits(tree, root) <==> Acceptable(MembersOf(tree, root), root)
  {
    if tree == [] {
      var none: seq<TreeEntry> := [];
      assert forall n | 0 <= n <= |none| :: none[..n] == [] && Sizes(none[..n]) == 0;
    } else {
      var front, e := tree[..|tree| - 1], tree[|tree| - 1];
      LimitsAreAcceptable(front, root);
      MemberBelongs(e, root);
      FetchListIsMembers(tree, root);
      DeclaredIsSizes(tree, root);
      if IsMember(e, root) {
        AcceptablePush(MembersOf(front, root), e, root);
        SafePathsHaveNoDotDot(Relative(e, root));
      } else {
        EmptyIsUnit(MembersOf(front, root));
      }
    }
  }

  // ---- The whole chain -------------------------------------------------------------------------------------

  predicate AllBlobReplies(replies: seq<Reply>) {
    forall r | r in replies :: r.BlobReply?
  }

  predicate AllWritable(replies: seq<Reply>)
    requires AllBlobReplies(replies)
  {
    forall r | r in replies :: r.inside && r.canOpen && r.written
  }

  function BytesOf(replies: seq<Reply>): nat
    requires AllBlobReplies(replies)
    decreases replies
  {
    if replies == [] then 0 else |replies[0].body| + BytesOf(replies[1..])
  }

  ghost predicate Succeeds(s: State, replies: seq<Reply>) {
    ValidRun(s, replies) && Run(s, replies).finished == [true]
  }

  lemma NoMoreReplies(s: State, replies: seq<Reply>)
    requires s.waiting.Nothing?
    ensures Succeeds(s, replies) <==> replies == [] && s.finished == [true]
    ensures s.finished == [] + [false] ==> !Succeeds(s, replies)
    ensures s.finished == [] + [true] ==> s.finished == [true]
  {
    assert ([] + [false])[0] != [true][0];
    EmptyIsUnit([true]);
    assert replies != [] ==> !Enabled(s, replies[0]);
  }

  lemma SucceedsStep(s: State, r: Reply, rest: seq<Reply>)
    ensures Succeeds(s, [r] + rest) <==> Enabled(s, r) && Succeeds(Apply(s, r), rest)
  {
    assert ([r] + rest)[1..] == rest;
  }

  /** With blobs still to come: one writable reply for each, within the byte cap, and nothing else. */
  lemma {:induction false} BlobsSucceedWhen(s: State, replies: seq<Reply>)
    requires s.waiting.ForBlob? && s.idx < |s.pending| && !s.done && s.finished == []
    requires s.totalBytes <= MAX_TOTAL_BYTES && AllBlobReplies(replies)
    ensures Succeeds(s, replies) <==>
            && |replies| == |s.pending| - s.idx && AllWritable(replies)
            && s.totalBytes + BytesOf(replies) <= MAX_TOTAL_BYTES
    decreases replies
  {
    if replies != [] {
      var r, rest := replies[0], replies[1..];
      ConsOfTail(replies);
      assert r in replies && forall x :: x in replies <==> x == r || x in rest;
      SucceedsStep(s, r, rest);
      var next := Apply(s, r);
      if s.totalBytes + |r.body| <= MAX_TOTAL_BYTES && r.inside && r.canOpen && r.written && s.idx + 1 < |s.pending| {
        BlobsSucceedWhen(next, rest);
      } else {
        NoMoreReplies(next, rest);
      }
    }
  }

  /** Entry `i` is the first in the listing that is the plugin's own directory. */
  predicate IsTheDirectory(entries: seq<ListingEntry>, repoPath: string, i: nat) {
    && i < |entries| && entries[i].path == repoPath && entries[i].isDir
    && forall j | 0 <= j < i :: !(entries[j].path == repoPath && entries[j].isDir)
  }

  /** The listing names the directory, with a hash. */
  ghost predicate Lists(entries: seq<ListingEntry>, repoPath: string) {
    exists i: nat :: IsTheDirectory(entries, repoPath, i) && entries[i].sha != ""
  }

  lemma {:induction false} ShaIsListed(entries: seq<ListingEntry>, repoPath: string)
    ensures FindSha(entries, repoPath) != "" <==> Lists(entries, repoPath)
  {
    if entries != [] {
      var e, rest := entries[0], entries[1..];
      if e.path == repoPath && e.isDir {
        assert IsTheDirectory(entries, repoPath, 0);
      } else {
        ShaIsListed(rest, repoPath);
        if i: nat :| IsTheDirectory(rest, repoPath, i) && rest[i].sha != "" {
          assert IsTheDirectory(entries, repoPath, i + 1) && entries[i + 1].sha != "";
        }
        if i: nat :| IsTheDirectory(entries, repoPath, i) && entries[i].sha != "" {
          assert IsTheDirectory(rest, repoPath, i - 1) && rest[i - 1].sha != "";
        }
      }
    }
  }

  lemma {:induction false} LastSlashIs(s: string)
    ensures -1 <= LastSlash(s) < |s|
    ensures LastSlash(s) > 0 <==> exists i | 0 < i < |s| :: s[i] == '/'
  {
    if s != "" {
      var front := s[..|s| - 1];
      LastSlashIs(front);
      if s[|s| - 1] != '/' {
        assert forall i | 0 < i < |s| && s[i] == '/' :: i < |front| && front[i] == '/';
        assert forall i | 0 < i < |front| :: front[i] == s[i];
      }
    }
  }

  /** The tree has a manifest whose bundle is acceptable, and each member's blob arrives, is writable, and
      all are within the byte cap. */
  ghost predicate Delivers(tree: seq<TreeEntry>, root: string, blobs: seq<Reply>)
    requires AllBlobReplies(blobs)
  {
    && (exists i: nat :: DecidesRoot(tree, i, root))
    && Acceptable(MembersOf(tree, root), root)
    && |blobs| == |MembersOf(tree, root)| && AllWritable(blobs) && BytesOf(blobs) <= 64 * 1024 * 1024
  }

  lemma TreeSucceedsWhen(s: State, tree: seq<TreeEntry>, blobs: seq<Reply>)
    requires s.waiting.ForTree? && !s.done && s.finished == [] && s.totalBytes == 0 && AllBlobReplies(blobs)
    ensures Succeeds(s, [TreeReply(tree)] + blobs) <==> exists root :: Delivers(tree, root, blobs)
  {
    SucceedsStep(s, TreeReply(tree), blobs);
    var next := OnTree(s, tree);
    RootIs(tree, "");
    match RootOf(tree)
    case None =>
      NoMoreReplies(next, blobs);
      forall root
        ensures !Delivers(tree, root, blobs)
      {
        RootIs(tree, root);
      }
    case Some(root) =>
      RootIs(tree, root);
      forall r
        ensures Delivers(tree, r, blobs) ==> r == root
      {
        RootIs(tree, r);
      }
      TreeWithRootSucceedsWhen(s, tree, root, blobs);
      assert Delivers(tree, root, blobs) ==> exists r :: Delivers(tree, r, blobs);
  }

  lemma TreeWithRootSucceedsWhen(s: State, tree: seq<TreeEntry>, root: string, blobs: seq<Reply>)
    requires s.waiting.ForTree? && !s.done && s.finished == [] && s.totalBytes == 0 && AllBlobReplies(blobs)
    requires RootOf(tree) == Some(root)
    ensures Succeeds(OnTree(s, tree), blobs) <==> Delivers(tree, root, blobs)
  {
    var next := OnTree(s, tree);
    RootIs(tree, root);
    LimitsAreAcceptable(tree, root);
    FetchListIsMembers(tree, root);
    if WithinLimits(tree, root) {
      ManifestAtTheRoot(tree, root);
      BlobsSucceedWhen(next, blobs);
    } else {
      NoMoreReplies(next, blobs);
    }
  }

  /** Main result: with a listing, a tree and then blobs for replies, the installation succeeds if and
      only if there is a network, the plugin's path has a parent directory, the listing names the
      plugin's directory with a hash, the tree has a manifest whose bundle is acceptable, and each
      blob of the bundle arrives, can be written, and all are within the byte cap. */
  lemma InstallSucceedsWhen(hasNetwork: bool, repoPath: string, entries: Option<seq<ListingEntry>>,
                            tree: seq<TreeEntry>, blobs: seq<Reply>)
    requires AllBlobReplies(blobs)
    ensures Succeeds(Start(hasNetwork, repoPath), [ListingReply(entries)] + ([TreeReply(tree)] + blobs)) <==>
            && hasNetwork && (exists i | 0 < i < |repoPath| :: repoPath[i] == '/')
            && entries.Some? && Lists(entries.value, repoPath)
            && exists root :: Delivers(tree, root, blobs)
  {
    var s, rest := Start(hasNetwork, repoPath), [TreeReply(tree)] + blobs;
    SucceedsStep(s, ListingReply(entries), rest);
    LastSlashIs(repoPath);
    if s.waiting.ForListing? {
      var next := OnListing(s, entries);
      if entries.Some? {
        ShaIsListed(entries.value, repoPath);
      }
      if next.waiting.ForTree? {
        TreeSucceedsWhen(next, tree, blobs);
      } else {
        NoMoreReplies(next, rest);
      }
    }
  }
}
