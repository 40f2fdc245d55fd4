/** The command of `generate-docs.py`: its loop over the target files, and the generated header. */
module GenerateDocs {
  import opened Autogen
  import opened AutogenIdempotence
  import opened Wrappers

  type Path = string
  type Files = map<Path, Text>

  /** `rewrite_file` differs from the file; a missing file reads and rewrites as empty. */
  predicate Stale(files: Files, p: Path, render: Renderers) {
    p in files && Rewrite(files[p], render) != files[p]
  }

  /** The files after the loop, the targets reported, and whether it ended by raising. */
  datatype Outcome = Outcome(files: Files, reported: seq<Path>, raised: bool)

  /** The loop of `main` over its targets. A stale target that does not lie under the
      repository's root cannot be reported: that raises, in a writing run after the file
      is written. */
  function Pass(files: Files, targets: seq<Path>, check: bool, render: Renderers, underRoot: Path -> bool): Outcome
    decreases targets
  {
    if targets == [] then Outcome(files, [], false)
    else
      var p := targets[0];
      if Stale(files, p, render) then
        var next := if check then files else files[p := Rewrite(files[p], render)];
        if !underRoot(p) then Outcome(next, [], true)
        else
          var rest := Pass(next, targets[1..], check, render, underRoot);
          rest.(reported := [p] + rest.reported)
      else Pass(files, targets[1..], check, render, underRoot)
  }

  /** A loop that went on from what was reported so far. */
  function Joined(reported: seq<Path>, rest: Outcome): Outcome {
    rest.(reported := reported + rest.reported)
  }

  lemma JoinedTwice(reported: seq<Path>, p: Path, rest: Outcome)
    ensures Joined(reported, Joined([p], rest)) == Joined(reported + [p], rest)
  {
    assert reported + ([p] + rest.reported) == reported + [p] + rest.reported;
  }

  lemma PassFrom(files: Files, targets: seq<Path>, k: nat, check: bool, render: Renderers, underRoot: Path -> bool)
    requires k < |targets|
    ensures var p := targets[k];
            Pass(files, targets[k..], check, render, underRoot) ==
            if !Stale(files, p, render) then Pass(files, targets[k + 1..], check, render, underRoot)
            else
              var next := if check then files else files[p := Rewrite(files[p], render)];
              if !underRoot(p) then Outcome(next, [], true)
              else Joined([p], Pass(next, targets[k + 1..], check, render, underRoot))
  {
    assert targets[k..][1..] == targets[k + 1..];
  }

  predicate HeaderStale(header: Option<string>, rendered: string) {
    (match header case None => "" case Some(text) => text) != rendered
  }

  class Tree {
    var files: Files
    var header: Option<string>

    /** The loop of `main`. */
    method RewriteTargets(check: bool, targets: seq<Path>, render: Renderers, underRoot: Path -> bool)
      returns (reported: seq<Path>, raised: bool)
      modifies this`files
      ensures Outcome(files, reported, raised) == Pass(old(files), targets, check, render, underRoot)
    {
      reported := [];
      ghost var pass := Pass(files, targets, check, render, underRoot);
      assert targets[0..] == targets && [] + pass.reported == pass.reported;
      for k := 0 to |targets|
        invariant pass == Joined(reported, Pass(files, targets[k..], check, render, underRoot))
      {
        var p := targets[k];
        PassFrom(files, targets, k, check, render, underRoot);
        var original: Text, updated: Text := [], [];
        if p in files {
          original := files[p];
          updated := Rewrite(original, render);
        }
        if original != updated {
          if !check {
            files := files[p := updated];
          }
          if !underRoot(p) {
            assert reported + [] == reported;
            return reported, true;
          }
          JoinedTwice(reported, p, Pass(files, targets[k + 1..], check, render, underRoot));
          reported := reported + [p];
        }
      }
      assert reported + [] == reported;
      raised := false;
    }

    /** `main`; no exit code means that it raised. */
    method Generate(check: bool, targets: seq<Path>, render: Renderers, rendered: string, underRoot: Path -> bool)
      returns (reported: seq<Path>, headerReported: bool, exit: Option<int>)
      modifies this
      ensures var pass := Pass(old(files), targets, check, render, underRoot);
              && files == pass.files && reported == pass.reported && (exit.None? <==> pass.raised)
      ensures headerReported == (exit.Some? && HeaderStale(old(header), rendered))
      ensures header == if !check && headerReported then Some(rendered) else old(header)
      ensures exit.Some? && !check ==> header == Some(rendered) || (header == None && rendered == "")
      ensures exit.Some? ==> exit.value == if check && (reported != [] || headerReported) then 1 else 0
    {
      headerReported := false;
      var raised: bool;
      reported, raised := RewriteTargets(check, targets, render, underRoot);
      if raised {
        return reported, false, None;
      }
      var anyChanged := reported != [];
      headerReported := (match header case None => "" case Some(text) => text) != rendered;
      if headerReported {
        anyChanged := true;
        if !check {
          header := Some(rendered);
        }
      }
      exit := Some(if check && anyChanged then 1 else 0);
    }
  }

  /** Check mode changes no file; it reports exactly the stale targets, unless one of them
      lies outside the root, and then it raises. */
  lemma {:induction false} CheckWritesNothing(files: Files, targets: seq<Path>, render: Renderers,
                                              underRoot: Path -> bool)
    ensures var pass := Pass(files, targets, true, render, underRoot);
            && pass.files == files
            && (pass.raised <==> exists p | p in targets :: Stale(files, p, render) && !underRoot(p))
            && (!pass.raised ==> forall p :: p in pass.reported <==> p in targets && Stale(files, p, render))
    decreases targets
  {
    if targets != [] {
      CheckWritesNothing(files, targets[1..], render, underRoot);
      assert targets == [targets[0]] + targets[1..];
    }
  }

  /** The loop after its first target, when that one did not end it. */
  function AfterFirst(files: Files, q: Path, render: Renderers): Files {
    if Stale(files, q, render) then files[q := Rewrite(files[q], render)] else files
  }

  lemma AfterFirstIsFresh(files: Files, q: Path, p: Path, render: Renderers)
    requires Settled(render)
    ensures Stale(AfterFirst(files, q, render), p, render) <==> p != q && Stale(files, p, render)
  {
    if q in files {
      RewriteIsIdempotent(files[q], render);
    }
  }

  /** A writing run raises if and only if some stale target lies outside the root. */
  lemma {:induction false} WriteRaisesWhen(files: Files, targets: seq<Path>, render: Renderers, underRoot: Path -> bool)
    requires Settled(render)
    ensures Pass(files, targets, false, render, underRoot).raised
            <==> exists p | p in targets :: Stale(files, p, render) && !underRoot(p)
    decreases targets
  {
    if targets != [] {
      var q, rest := targets[0], targets[1..];
      assert targets == [q] + rest;
      if !Stale(files, q, render) || underRoot(q) {
        var next := AfterFirst(files, q, render);
        WriteRaisesWhen(next, rest, render, underRoot);
        forall p
          ensures Stale(next, p, render) <==> p != q && Stale(files, p, render)
        {
          AfterFirstIsFresh(files, q, p, render);
        }
      }
    }
  }

  /** A writing run rewrites each target once, however often it is listed, and no other
      file; one that raises may leave targets as they were. */
  lemma {:induction false} EachTargetIsRewrittenOnce(files: Files, targets: seq<Path>, p: Path, render: Renderers,
                                                     underRoot: Path -> bool)
    requires Settled(render)
    ensures var pass := Pass(files, targets, false, render, underRoot);
            && (p in pass.files <==> p in files)
            && (p in files && !pass.raised ==>
                  pass.files[p] == if p in targets then Rewrite(files[p], render) else files[p])
            && (p in files ==>
                  pass.files[p] == files[p] || (p in targets && pass.files[p] == Rewrite(files[p], render)))
    decreases targets
  {
    if targets != [] {
      var q := targets[0];
      assert targets == [targets[0]] + targets[1..];
      if q in files {
        RewriteIsIdempotent(files[q], render);
      }
      if !Stale(files, q, render) || underRoot(q) {
        EachTargetIsRewrittenOnce(AfterFirst(files, q, render), targets[1..], p, render, underRoot);
      }
    }
  }

  /** Main result for the command: a check right after a writing run that ended, with the
      same renderers, raises nothing and reports no file and no header, so it exits with 0. */
  lemma CheckAfterWriteIsClean(files: Files, header: Option<string>, targets: seq<Path>, render: Renderers,
                               rendered: string, underRoot: Path -> bool)
    requires Settled(render)
    ensures var written := Pass(files, targets, false, render, underRoot);
            !written.raised ==>
              Pass(written.files, targets, true, render, underRoot) == Outcome(written.files, [], false)
    ensures !HeaderStale(if HeaderStale(header, rendered) then Some(rendered) else header, rendered)
  {
    var written := Pass(files, targets, false, render, underRoot);
    if !written.raised {
      var after := written.files;
      forall p | p in targets
        ensures !Stale(after, p, render)
      {
        EachTargetIsRewrittenOnce(files, targets, p, render, underRoot);
        if p in files {
          RewriteIsIdempotent(files[p], render);
        }
      }
      NothingStale(after, targets, render, underRoot);
    }
  }

  lemma {:induction false} NothingStale(files: Files, targets: seq<Path>, render: Renderers, underRoot: Path -> bool)
    requires forall p | p in targets :: !Stale(files, p, render)
    ensures Pass(files, targets, true, render, underRoot) == Outcome(files, [], false)
    decreases targets
  {
    if targets != [] {
      assert targets[0] in targets;
      NothingStale(files, targets[1..], render, underRoot);
    }
  }

  /** A writing run that ends reports exactly the targets that were stale, each once. */
  lemma {:induction false} WriteReportsTheStale(files: Files, targets: seq<Path>, render: Renderers,
                                                underRoot: Path -> bool)
    requires Settled(render) && !Pass(files, targets, false, render, underRoot).raised
    ensures var reported := Pass(files, targets, false, render, underRoot).reported;
            && (forall p :: p in reported <==> p in targets && Stale(files, p, render))
            && (forall i, j | 0 <= i < j < |reported| :: reported[i] != reported[j])
    decreases targets
  {
    if targets != [] {
      var q, rest := targets[0], targets[1..];
      assert targets == [q] + rest;
      var next := AfterFirst(files, q, render);
      WriteReportsTheStale(next, rest, render, underRoot);
      forall p
        ensures Stale(next, p, render) <==> p != q && Stale(files, p, render)
      {
        AfterFirstIsFresh(files, q, p, render);
      }
    }
  }
}
