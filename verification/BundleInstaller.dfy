/** The asynchronous chain of `MiraboxGithubInstaller`: listing, tree, then one blob
    at a time, ending with one `finished` signal. */
module BundleInstaller {
  import opened Wrappers
  import opened Bytes
  import opened BundlePaths

  type Body = seq<Byte>

  /** The request in flight, if any. */
  datatype Waiting = Nothing | ForListing | ForTree | ForBlob

  datatype ListingEntry = ListingEntry(path: string, isDir: bool, sha: string)

  /** A network reply, and for a blob what the file system made of writing it. A
      listing that is no JSON array has no entries. */
  datatype Reply =
    | NetworkError
    | ListingReply(entries: Option<seq<ListingEntry>>)
    | TreeReply(tree: seq<TreeEntry>)
    | BlobReply(body: Body, inside: bool, canOpen: bool, written: bool)

  /** `tree` and `bodies` record the replies used so far; `finished` the signals emitted. */
  datatype State = State(
    waiting: Waiting,
    repoPath: string,
    pending: seq<Blob>,
    idx: nat,
    totalBytes: int,
    staging: map<string, Body>,
    done: bool,
    finished: seq<bool>,
    tree: seq<TreeEntry>,
    bodies: seq<Body>)

  function LastSlash(s: string): int {
    if s == "" then -1 else if s[|s| - 1] == '/' then |s| - 1 else LastSlash(s[..|s| - 1])
  }

  /** A repo path with no parent directory cannot be listed. */
  predicate HasParent(repoPath: string) {
    LastSlash(repoPath) > 0
  }

  function Fail(s: State): State {
    if s.done then s else s.(done := true, finished := s.finished + [false], waiting := Nothing)
  }

  function FetchNext(s: State): State {
    if s.idx >= |s.pending| then
      if s.done then s else s.(done := true, finished := s.finished + [true], waiting := Nothing)
    else s.(waiting := ForBlob)
  }

  function Start(hasNetwork: bool, repoPath: string): State {
    var s := State(Nothing, repoPath, [], 0, 0, map[], false, [], [], []);
    if !hasNetwork || !HasParent(repoPath) then Fail(s) else s.(waiting := ForListing)
  }

  /** The tree SHA of the plugin directory: that of the first matching entry. */
  function FindSha(entries: seq<ListingEntry>, repoPath: string): string {
    if entries == [] then ""
    else if entries[0].path == repoPath && entries[0].isDir then entries[0].sha
    else FindSha(entries[1..], repoPath)
  }

  function OnListing(s: State, entries: Option<seq<ListingEntry>>): State {
    if entries.None? || FindSha(entries.value, s.repoPath) == "" then Fail(s) else s.(waiting := ForTree)
  }

  function OnTree(s: State, tree: seq<TreeEntry>): State {
    match FindRoot(BlobPaths(tree))
    case None => Fail(s)
    case Some(root) =>
      if !WithinLimits(tree, root) || BundleBlobs(tree, root) == [] then Fail(s)
      else FetchNext(s.(pending := BundleBlobs(tree, root), idx := 0, tree := tree))
  }

  /** The state after one more blob is written, before the next is asked for. */
  function Write(s: State, body: Body): State
    requires s.idx < |s.pending|
  {
    s.(totalBytes := s.totalBytes + |body|, staging := s.staging[s.pending[s.idx].destRel := body],
       bodies := s.bodies + [body], idx := s.idx + 1)
  }

  function OnBlob(s: State, body: Body, writable: bool): State
    requires s.idx < |s.pending|
  {
    if s.totalBytes + |body| > MAX_TOTAL_BYTES || !writable then Fail(s.(totalBytes := s.totalBytes + |body|))
    else FetchNext(Write(s, body))
  }

  /** A reply answers the request in flight. */
  predicate Enabled(s: State, r: Reply) {
    match r
    case NetworkError => !s.waiting.Nothing?
    case ListingReply(_) => s.waiting.ForListing?
    case TreeReply(_) => s.waiting.ForTree?
    case BlobReply(_, _, _, _) => s.waiting.ForBlob? && s.idx < |s.pending|
  }

  function Apply(s: State, r: Reply): State
    requires Enabled(s, r)
  {
    match r
    case NetworkError => Fail(s)
    case ListingReply(entries) => OnListing(s, entries)
    case TreeReply(tree) => OnTree(s, tree)
    case BlobReply(body, inside, canOpen, written) => OnBlob(s, body, inside && canOpen && written)
  }

  predicate ValidRun(s: State, replies: seq<Reply>)
    decreases replies
  {
    replies == [] || (Enabled(s, replies[0]) && ValidRun(Apply(s, replies[0]), replies[1..]))
  }

  function Run(s: State, replies: seq<Reply>): State
    requires ValidRun(s, replies)
    decreases replies
  {
    if replies == [] then s else Run(Apply(s, replies[0]), replies[1..])
  }

  // ---- The class -------------------------------------------------------------------------------

  class MiraboxGithubInstaller {
    var waiting: Waiting
    var m_repoPath: string
    var m_pending: seq<Blob>
    var m_idx: nat
    var m_totalBytes: int
    var m_done: bool
    var staging: map<string, Body>
    var finished: seq<bool>
    ghost var tree: seq<TreeEntry>
    ghost var bodies: seq<Body>

    ghost function Abs(): State
      reads this
    {
      State(waiting, m_repoPath, m_pending, m_idx, m_totalBytes, staging, m_done, finished, tree, bodies)
    }

    constructor (hasNetwork: bool, repoPath: string)
      ensures Abs() == Start(hasNetwork, repoPath)
    {
      m_repoPath, m_pending, m_idx, m_totalBytes, m_done := repoPath, [], 0, 0, false;
      staging, finished, tree, bodies := map[], [], [], [];
      waiting := Nothing;
      new;
      if !hasNetwork {
        EmitFailure();
        return;
      }
      if LastSlash(repoPath) <= 0 {
        EmitFailure();
        return;
      }
      waiting := ForListing;
    }

    method EmitFailure()
      modifies this
      ensures Abs() == Fail(old(Abs()))
    {
      if m_done {
        return;
      }
      m_done := true;
      finished := finished + [false];
      waiting := Nothing;
    }

    method OnParentListing(entries: Option<seq<ListingEntry>>)
      requires waiting.ForListing?
      modifies this
      ensures Abs() == OnListing(old(Abs()), entries)
    {
      if entries.None? {
        EmitFailure();
        return;
      }
      var sha := "";
      var i := 0;
      while i < |entries.value|
        invariant 0 <= i <= |entries.value|
        invariant sha == "" && FindSha(entries.value, m_repoPath) == FindSha(entries.value[i..], m_repoPath)
        invariant Abs() == old(Abs())
      {
        if entries.value[i].path == m_repoPath && entries.value[i].isDir {
          sha := entries.value[i].sha;
          break;
        }
        i := i + 1;
      }
      if sha == "" {
        EmitFailure();
        return;
      }
      waiting := ForTree;
    }

    method OnTreeReply(reply: seq<TreeEntry>)
      requires waiting.ForTree? && m_pending == []
      modifies this
      ensures Abs() == OnTree(old(Abs()), reply)
    {
      var blobPaths: seq<string> := [];
      for i := 0 to |reply|
        invariant blobPaths == BlobPaths(reply[..i])
      {
        assert reply[..i + 1][..i] == reply[..i];
        if reply[i].isBlob {
          blobPaths := blobPaths + [reply[i].path];
        }
      }
      assert reply[..|reply|] == reply;
      var bundleRoot := FindBundleRoot(blobPaths);
      if bundleRoot.None? {
        EmitFailure();
        return;
      }
      var collected := CollectBlobs(reply, bundleRoot.value);
      if collected.None? {
        EmitFailure();
        return;
      }
      m_pending := collected.value;
      if m_pending == [] {
        EmitFailure();
        return;
      }
      tree := reply;
      m_idx := 0;
      FetchNextBlob();
    }

    method FetchNextBlob()
      modifies this
      ensures Abs() == FetchNext(old(Abs()))
    {
      if m_idx >= |m_pending| {
        if m_done {
          return;
        }
        m_done := true;
        finished := finished + [true];
        waiting := Nothing;
        return;
      }
      waiting := ForBlob;
    }

    method OnBlobReply(body: Body, inside: bool, canOpen: bool, written: bool)
      requires waiting.ForBlob? && m_idx < |m_pending|
      modifies this
      ensures Abs() == OnBlob(old(Abs()), body, inside && canOpen && written)
    {
      m_totalBytes := m_totalBytes + |body|;
      if m_totalBytes > MAX_TOTAL_BYTES {
        EmitFailure();
        return;
      }
      if !inside {
        EmitFailure();
        return;
      }
      if !canOpen {
        EmitFailure();
        return;
      }
      if !written {
        EmitFailure();
        return;
      }
      staging := staging[m_pending[m_idx].destRel := body];
      bodies := bodies + [body];
      m_idx := m_idx + 1;
      FetchNextBlob();
    }
  }

  // ---- Exactly one signal, after a bounded number of replies --------------------------------------

  ghost predicate SignalsOnce(s: State) {
    && |s.finished| <= 1
    && (s.done <==> |s.finished| == 1)
    && (s.waiting.Nothing? <==> s.done)
    && (s.waiting.ForBlob? ==> s.idx < |s.pending| <= MAX_FILES)
  }

  /** How many more replies the chain can take. */
  function RepliesLeft(s: State): nat {
    match s.waiting
    case Nothing => 0
    case ForListing => 2 + MAX_FILES
    case ForTree => 1 + MAX_FILES
    case ForBlob => if s.idx < |s.pending| then |s.pending| - s.idx else 0
  }

  lemma ReplyAdvances(s: State, r: Reply)
    requires SignalsOnce(s) && Enabled(s, r)
    ensures SignalsOnce(Apply(s, r)) && RepliesLeft(Apply(s, r)) < RepliesLeft(s)
  {
    match r
    case TreeReply(tree) =>
      var root := FindRoot(BlobPaths(tree));
      if root.Some? && WithinLimits(tree, root.value) {
        FewFiles(tree, root.value);
      }
    case _ =>
  }

  lemma {:induction false} RunAdvances(s: State, replies: seq<Reply>)
    requires SignalsOnce(s) && ValidRun(s, replies)
    ensures SignalsOnce(Run(s, replies))
    ensures |replies| + RepliesLeft(Run(s, replies)) <= RepliesLeft(s)
    decreases replies
  {
    if replies != [] {
      ReplyAdvances(s, replies[0]);
      RunAdvances(Apply(s, replies[0]), replies[1..]);
    }
  }

  /** Main result: a run takes at most 514 replies and emits `finished` at most once;
      it has emitted it exactly when no request is in flight. */
  lemma FinishesExactlyOnce(hasNetwork: bool, repoPath: string, replies: seq<Reply>)
    requires ValidRun(Start(hasNetwork, repoPath), replies)
    ensures var s := Run(Start(hasNetwork, repoPath), replies);
            && |replies| <= 2 + MAX_FILES
            && |s.finished| == (if s.waiting.Nothing? then 1 else 0)
  {
    RunAdvances(Start(hasNetwork, repoPath), replies);
  }

  // ---- What success leaves in the staging area ---------------------------------------------------------

  /** The files written for the first `|bodies|` blobs; a repeated name keeps the last. */
  function Staged(pending: seq<Blob>, bodies: seq<Body>): map<string, Body>
    requires |bodies| <= |pending|
  {
    if bodies == [] then map[]
    else
      var n := |bodies| - 1;
      Staged(pending, bodies[..n])[pending[n].destRel := bodies[n]]
  }

  function TotalSize(bodies: seq<Body>): int {
    if bodies == [] then 0 else TotalSize(bodies[..|bodies| - 1]) + |bodies[|bodies| - 1]|
  }

  /** The fetch list is the bundle of the tree received, under its shallowest manifest. */
  ghost predicate FetchesTheBundle(s: State) {
    && FindRoot(BlobPaths(s.tree)).Some?
    && WithinLimits(s.tree, FindRoot(BlobPaths(s.tree)).value)
    && s.pending == BundleBlobs(s.tree, FindRoot(BlobPaths(s.tree)).value)
  }

  ghost predicate StagesTheBodies(s: State) {
    && |s.bodies| == s.idx <= |s.pending|
    && s.staging == Staged(s.pending, s.bodies)
    && s.totalBytes == TotalSize(s.bodies) <= MAX_TOTAL_BYTES
  }

  ghost predicate Fresh(s: State) {
    s.idx == 0 && s.bodies == [] && s.staging == map[] && s.totalBytes == 0
  }

  predicate Succeeded(s: State) {
    s.finished != [] && s.finished[0]
  }

  ghost predicate Inv(s: State) {
    && SignalsOnce(s)
    && (s.waiting.ForListing? || s.waiting.ForTree? ==> Fresh(s))
    && (s.waiting.ForBlob? || Succeeded(s) ==> FetchesTheBundle(s) && StagesTheBodies(s))
    && (Succeeded(s) ==> s.idx == |s.pending|)
  }

  lemma WriteStagesTheBodies(s: State, body: Body)
    requires StagesTheBodies(s) && s.idx < |s.pending| && s.totalBytes + |body| <= MAX_TOTAL_BYTES
    ensures StagesTheBodies(Write(s, body))
  {
    assert (s.bodies + [body])[..|s.bodies|] == s.bodies;
  }

  lemma BlobKeepsInv(s: State, body: Body, writable: bool)
    requires Inv(s) && s.waiting.ForBlob? && s.idx < |s.pending|
    ensures Inv(OnBlob(s, body, writable))
  {
    ReplyAdvances(s, BlobReply(body, writable, true, true));
    if s.totalBytes + |body| <= MAX_TOTAL_BYTES && writable {
      WriteStagesTheBodies(s, body);
    }
  }

  lemma ReplyKeepsInv(s: State, r: Reply)
    requires Inv(s) && Enabled(s, r)
    ensures Inv(Apply(s, r))
  {
    ReplyAdvances(s, r);
    match r
    case BlobReply(body, inside, canOpen, written) => BlobKeepsInv(s, body, inside && canOpen && written);
    case _ =>
  }

  lemma {:induction false} RunKeepsInv(s: State, replies: seq<Reply>)
    requires Inv(s) && ValidRun(s, replies)
    ensures Inv(Run(s, replies))
    decreases replies
  {
    if replies != [] {
      ReplyKeepsInv(s, replies[0]);
      RunKeepsInv(Apply(s, replies[0]), replies[1..]);
    }
  }

  lemma {:induction false} StagedKeys(pending: seq<Blob>, bodies: seq<Body>, name: string)
    requires |bodies| <= |pending|
    ensures name in Staged(pending, bodies) <==> exists i | 0 <= i < |bodies| :: pending[i].destRel == name
  {
    if bodies != [] {
      StagedKeys(pending, bodies[..|bodies| - 1], name);
    }
  }

  /** Main result: on success the staging area holds exactly one file for each blob
      under the directory of the shallowest manifest, renamed relative to it, with
      `manifest.json` at its root; at most 512 files, and at most 64 MiB received. */
  lemma SuccessStagesTheBundle(hasNetwork: bool, repoPath: string, replies: seq<Reply>)
    requires ValidRun(Start(hasNetwork, repoPath), replies)
    requires Run(Start(hasNetwork, repoPath), replies).finished == [true]
    ensures var s := Run(Start(hasNetwork, repoPath), replies);
            && FetchesTheBundle(s)
            && |s.bodies| == |s.pending| && s.staging == Staged(s.pending, s.bodies)
            && (forall name :: name in s.staging <==> exists b | b in s.pending :: b.destRel == name)
            && MANIFEST in s.staging
            && |s.pending| <= MAX_FILES
            && TotalSize(s.bodies) <= MAX_TOTAL_BYTES
  {
    RunKeepsInv(Start(hasNetwork, repoPath), replies);
    var s := Run(Start(hasNetwork, repoPath), replies);
    var root := FindRoot(BlobPaths(s.tree)).value;
    forall name
      ensures name in s.staging <==> exists b | b in s.pending :: b.destRel == name
    {
      StagedKeys(s.pending, s.bodies, name);
    }
    ManifestAtTheRoot(s.tree, root);
    FewFiles(s.tree, root);
  }

  ghost predicate DistinctDestinations(pending: seq<Blob>) {
    forall i, j | 0 <= i < j < |pending| :: pending[i].destRel != pending[j].destRel
  }

  /** With distinct destinations every file is its own blob's body. */
  lemma {:induction false} StagedBody(pending: seq<Blob>, bodies: seq<Body>, i: nat)
    requires |bodies| <= |pending| && DistinctDestinations(pending) && i < |bodies|
    ensures pending[i].destRel in Staged(pending, bodies)
    ensures Staged(pending, bodies)[pending[i].destRel] == bodies[i]
  {
    var n := |bodies| - 1;
    if i < n {
      StagedBody(pending, bodies[..n], i);
    }
  }

  ghost predicate DistinctPaths(blobs: seq<Blob>) {
    forall i, j | 0 <= i < j < |blobs| :: blobs[i].path != blobs[j].path
  }

  /** Blobs with distinct paths get distinct destinations: the renaming is injective. */
  lemma DistinctPathsStayDistinct(tree: seq<TreeEntry>, root: string)
    requires DistinctPaths(BundleBlobs(tree, root))
    ensures DistinctDestinations(BundleBlobs(tree, root))
  {
    var blobs := BundleBlobs(tree, root);
    BundleBlobsAreTheBundle(tree, root);
    forall i, j | 0 <= i < j < |blobs|
      ensures blobs[i].destRel != blobs[j].destRel
    {
      assert blobs[i].path != blobs[j].path;
      assert blobs[i] in blobs && blobs[j] in blobs;
      assert blobs[i].path == Prefix(root) + blobs[i].destRel && blobs[j].path == Prefix(root) + blobs[j].destRel;
    }
  }
}
