/** The optimization passes as functions on rule sets, and what the whole pipeline does to a set:
    canonicalize, select one per signature, classify, collapse siblings, drop the subsumed, select. */
module RuleSets {
  import opened Strings
  import opened PathPatterns
  import opened Ir
  import opened PatternRelation
  import opened Canonical
  import opened Generalize
  import opened PrefixGeneralize

  function CanonKeys(ks: set<Key>): set<Key> { set k | k in ks :: CanonKey(k) }

  function GenKeys(ks: set<Key>): set<Key> { set k | k in ks :: GenKey(k) }

  /** `broad` strictly covers `narrow` for the same subject, action and verdict. */
  predicate Subsumes(broad: Key, narrow: Key) {
    && broad.subject == narrow.subject && broad.action == narrow.action && broad.verdict == narrow.verdict
    && broad.obj.File? && narrow.obj.File?
    && RelationTo(broad.obj.file.pattern, narrow.obj.file.pattern) == Superset
  }

  predicate SubsumedIn(ks: set<Key>, k: Key) { exists b :: b in ks && Subsumes(b, k) }

  function SubsumeKeys(ks: set<Key>): set<Key> { set k | k in ks && !SubsumedIn(ks, k) }

  /** Set-level effect of the pipeline; `chosen` is what the first deduplication kept. */
  ghost predicate PipelineStep(cfg: PassConfig, input: set<Key>, chosen: set<Key>, output: set<Key>) {
    && Selection(CanonKeys(input), chosen)
    && Selection(SubsumeKeys(PrefixGenKeys(cfg, GenKeys(chosen))), output)
  }

  predicate CanonicalSet(ks: set<Key>) { forall k :: k in ks ==> CanonKey(k) == k }

  predicate IsExact(k: Key) { k.obj.File? && k.obj.file.pattern.ExactPath? }

  // ---- directories of canonical paths ----

  predicate EndsWithSlash(s: string) { s != "" && s[|s| - 1] == '/' }

  /** A path that does not end in '/' is its parent directory plus one slash-free name. */
  lemma ParentDirSplits(path: string)
    requires ParentDir(path).Some? && !EndsWithSlash(path)
    ensures var dir := ParentDir(path).value;
      dir <= path && EndsWithSlash(dir) && |dir| > 1 && '/' !in path[|dir|..]
  {
  }

  /** A directory-shaped prefix of a path is a prefix of the path's parent directory. */
  lemma PrefixOfParent(d: string, path: string)
    requires ParentDir(path).Some? && !EndsWithSlash(path) && EndsWithSlash(d) && d <= path
    ensures d <= ParentDir(path).value
  {
    var dir := ParentDir(path).value;
    ParentDirSplits(path);
    assert path[|d| - 1] == '/';
    assert forall i :: |dir| <= i < |path| ==> path[i] == path[|dir|..][i - |dir|];
  }

  lemma CanonicalExactHasName(path: string)
    requires CanonicalPath(path) == path && ParentDir(path).Some?
    ensures !EndsWithSlash(path)
  {
    CanonicalPathEnding(path);
  }

  lemma ParentOfChild(head: string, name: string)
    requires head != "" && name != "" && '/' !in name
    ensures ParentDir(head + "/" + name) == Some(head + "/")
  {
    var path := head + "/" + name;
    assert forall j :: |head| < j < |path| ==> path[j] == name[j - |head| - 1];
    LastIndexOfUnique(path, '/', |head|);
    assert path[..|head| + 1] == head + "/";
  }

  lemma RenderChild(abs: bool, init: seq<string>, last: string)
    requires Normal(abs, init + [last]) && init != []
    ensures Normal(abs, init) && IsName(last)
    ensures Render(abs, init) != "" && Render(abs, init + [last]) == Render(abs, init) + "/" + last
  {
    var out := init + [last];
    assert forall i :: 0 <= i < |init| ==> init[i] == out[i];
    assert out[|init|] == last;
    JoinNames(out);
    JoinNames(init);
    JoinAppend(init, [last], '/');
  }

  lemma ParentOfRender(abs: bool, init: seq<string>, last: string)
    requires Normal(abs, init + [last]) && init != []
    ensures Normal(abs, init)
    ensures ParentDir(Render(abs, init + [last])) == Some(Render(abs, init) + "/")
  {
    RenderChild(abs, init, last);
    ParentOfChild(Render(abs, init), last);
  }

  lemma RenderWithoutParent(abs: bool, out: seq<string>)
    requires Normal(abs, out) && |out| <= 1
    ensures ParentDir(Render(abs, out)) == None
  {
    if |out| == 1 {
      assert IsName(out[0]);
      LastIndexOfUnique(Render(abs, out), '/', if abs then 0 else -1);
    } else if abs {
      assert Render(abs, out) == "/";
    } else {
      LastIndexOfUnique(".", '/', -1);
    }
  }

  /** The parent directory of a canonical path is a canonical prefix. */
  lemma ParentDirCanonical(path: string)
    requires CanonicalPath(path) == path && ParentDir(path).Some?
    ensures CanonicalPrefix(ParentDir(path).value) == ParentDir(path).value
  {
    hide ParentDir, Render, CanonicalPath;
    var abs, out := IsAbsolute(path), Components(path);
    CanonicalIsRender(path);
    ComponentsNormal(path);
    if |out| <= 1 {
      RenderWithoutParent(abs, out);
    } else {
      var init, last := out[..|out| - 1], out[|out| - 1];
      assert out == init + [last];
      ParentOfRender(abs, init, last);
      RenderedDirCanonical(abs, init);
    }
  }

  lemma CanonicalIsRender(path: string)
    requires ParentDir(path).Some?
    ensures CanonicalPath(path) == Render(IsAbsolute(path), Components(path))
  {
  }

  lemma RenderedDirCanonical(abs: bool, out: seq<string>)
    requires Normal(abs, out) && out != []
    ensures CanonicalPrefix(Render(abs, out) + "/") == Render(abs, out) + "/"
  {
    var head := Render(abs, out);
    ComponentsOfRender(abs, out);
    ComponentsTrailingSlash(head);
    assert CanonicalPath(head + "/") == head;
    JoinNames(out);
  }

  /** A path inside a strict subdirectory of "/proc/" is always classified. */
  lemma ClassifiedBelowProc(path: string, dir: string)
    requires PROC <= dir <= path && dir != PROC && EndsWithSlash(dir)
    ensures TryClassify(path).Some?
  {
    var remainder := path[6..];
    assert remainder[|dir| - 7] == path[|dir| - 1] == '/';
    assert '/' in remainder;
    assert remainder[..|remainder|] == remainder;
  }

  lemma DirsUpToProc(dir: string)
    requires dir <= PROC && EndsWithSlash(dir) && |dir| > 1
    ensures dir == PROC
  {
    assert PROC[|dir| - 1] == '/';
    assert PROC[1] == 'p' && PROC[2] == 'r' && PROC[3] == 'o' && PROC[4] == 'c';
  }

  /** An unclassified path whose directory touches "/proc/" lies directly in "/proc/". */
  lemma UnclassifiedNearProc(path: string)
    requires ParentDir(path).Some? && !EndsWithSlash(path) && TryClassify(path).None?
    requires PROC <= ParentDir(path).value || ParentDir(path).value <= PROC
    ensures ParentDir(path).value == PROC
  {
    var dir := ParentDir(path).value;
    ParentDirSplits(path);
    if dir != PROC && PROC <= dir {
      ClassifiedBelowProc(path, dir);
    } else {
      DirsUpToProc(dir);
    }
  }
}
