/** The whole compiler, from rules to the linked list that is loaded, and what the linked list means to
    the hooks: every program the profile saw executed can be executed. */
module Compile {
  import opened Strings
  import opened PathPatterns
  import opened Ir
  import opened Canonical
  import opened Dedup
  import opened Generalize
  import opened PrefixGeneralize
  import opened RuleSets
  import opened FixedPoint
  import opened Pipeline
  import opened PipelineRuns
  import opened Linker
  import L = Loader
  import opened Refinement

  method CompileProfile(rawRules: seq<Rule>, noOptimize: bool, cfg: PassConfig)
    returns (linked: seq<Rule>, conflicts: seq<Conflict>)
    ensures noOptimize ==>
              linked == Link(CanonRules(rawRules)) && conflicts == Conflicts(CanonRules(rawRules), |rawRules|)
    ensures !noOptimize ==>
              && conflicts == []
              && exists run :: ValidRun(cfg, run) && run.input == rawRules && linked == Link(run.output)
  {
    hide ValidRun, Conflicts, CanonRules;
    var optimized: seq<Rule>;
    if noOptimize {
      optimized := CanonRules(rawRules);
      conflicts := Detect(optimized);
    } else {
      var stats;
      optimized, conflicts, stats := RunPipelineReported(rawRules, cfg);
      ghost var run :| ValidRun(cfg, run) && run.input == rawRules && run.output == optimized;
      RunReportsNoConflict(cfg, run);
    }
    linked := LinkCrossCategory(optimized);
  }

  // ---- profiles of observed behaviour ----

  /** Observed behaviour is translated into allowing rules only. */
  predicate AllAllow(rules: seq<Rule>) { forall i :: 0 <= i < |rules| ==> rules[i].verdict == Allow }

  predicate AllAllowKeys(ks: set<Key>) { forall k :: k in ks ==> k.verdict == Allow }

  /** Entries that are not about files pass through all passes. */
  lemma OthersPassThrough(cfg: PassConfig, ks: set<Key>, k: Key)
    requires k in ks && !k.obj.File?
    ensures k in PipelineKeys(cfg, ks)
  {
    hide Fires, ParentDir;
    assert CanonKey(k) == k && GenKey(k) == k;
    assert k in CanonKeys(ks) && k in GenKeys(CanonKeys(ks));
    assert !Collapses(cfg, GenKeys(CanonKeys(ks)), k);
    assert forall b :: !Subsumes(b, k);
  }

  lemma PassesKeepAllow(cfg: PassConfig, ks: set<Key>)
    requires AllAllowKeys(ks)
    ensures AllAllowKeys(PipelineKeys(cfg, ks)) && NoClash(GenKeys(CanonKeys(ks)))
  {
    hide Collapses, CanonObject, GenObject, SubsumedIn, ParentDir;
    OneVerdictNoClash(ks);
    var gen := GenKeys(CanonKeys(ks));
    assert AllAllowKeys(gen);
    forall k | k in gen && Collapses(cfg, gen, k) ensures GroupOf(k).Some? && PrefixKey(GroupOf(k).value).verdict == Allow {
      CollapsesHasGroup(cfg, gen, k);
    }
  }

  lemma CollapsesHasGroup(cfg: PassConfig, ks: set<Key>, k: Key)
    requires Collapses(cfg, ks, k)
    ensures GroupOf(k).Some? && GroupOf(k).value.verdict == k.verdict
  {
    hide Fires, ParentDir;
  }

  lemma RunKeepsAllow(cfg: PassConfig, run: Run)
    requires ValidRun(cfg, run) && AllAllow(run.input)
    ensures AllAllow(run.output) && Keys(run.output) == PipelineKeys(cfg, Keys(run.input))
  {
    hide ValidRun, PipelineKeys, PipelineStep, NoClash;
    RunRefines(cfg, run);
    assert AllAllowKeys(Keys(run.input));
    PassesKeepAllow(cfg, Keys(run.input));
    OutputIsAFunction(cfg, Keys(run.input), Keys(run.deduped), Keys(run.output));
    forall i | 0 <= i < |run.output| ensures run.output[i].verdict == Allow {
      assert run.output[i] in run.output && run.output[i].ToKey() in Keys(run.output);
    }
  }

  lemma LinkKeepsAllow(rules: seq<Rule>)
    requires AllAllow(rules)
    ensures AllAllow(Link(rules)) && rules <= Link(rules)
  {
    LinkCloses(rules);
    var out := Link(rules);
    forall i | 0 <= i < |out| ensures out[i].verdict == Allow {
      assert out[i] in out;
      assert out[i] in rules || Justified(rules, out[i]);
    }
  }

  /** In a linked list of allowing rules, a binary some rule executes may be executed and opened for
      reading, whatever class the kernel finds for it. */
  lemma LinkedExecRuns(rules: seq<Rule>, exec: Rule, c: PathPattern)
    requires AllAllow(rules) && exec in rules && ExecPath(exec).Some?
    ensures var path := Utf8(ExecPath(exec).value);
      ExecAllowed(Link(rules), path) && FileAllowed(Link(rules), path, c, READING)
  {
    hide Utf8, Link, ClassSettled, ClassAllowed, FirstPrefixAt;
    LinkKeepsAllow(rules);
    LinkCloses(rules);
    var out, p := Link(rules), ExecPath(exec).value;
    var path := Utf8(p);
    assert exec in out && Implied()[1] == FileRead;
    assert FileRead in Implied();
    assert Provided(out, exec.subject, ExactFile(p), FileRead);
    var r :| r in out && Provides(r, exec.subject, ExactFile(p), FileRead);
    var i :| 0 <= i < |out| && out[i] == r;
    assert ForPath(out[i], path) && Profiled(out, path, false);
    OnlyAllowsProfiled(out, path, false);
    assert ListedPath(out, path);
    var j :| 0 <= j < |out| && out[j] == exec;
    LastBinaryAllows(out, path, j);
  }

  lemma {:induction false} LastBinaryAllows(rules: seq<Rule>, path: seq<u8>, j: nat)
    requires AllAllow(rules) && j < |rules| && ForBinary(rules[j], path)
    ensures ExecAllowed(rules, path)
    decreases |rules| - j
  {
    hide Utf8, ForBinary;
    if l :| j < l < |rules| && ForBinary(rules[l], path) {
      LastBinaryAllows(rules, path, l);
    }
  }

  /** From observation to enforcement: compiled, with or without optimization, from allowing rules one
      of which executes a binary, the list lets the binary be executed and opened for reading. */
  lemma ObservedExecRuns(cfg: PassConfig, run: Run, exec: Rule, c: PathPattern)
    requires ValidRun(cfg, run) && AllAllow(run.input) && exec in run.input && ExecPath(exec).Some?
    ensures var path := Utf8(ExecPath(exec).value);
      && ExecAllowed(Link(run.output), path) && FileAllowed(Link(run.output), path, c, READING)
      && ExecAllowed(Link(run.canonical), path) && FileAllowed(Link(run.canonical), path, c, READING)
  {
    hide Link, ExecAllowed, FileAllowed, Utf8, IsDedup, IsPrefixGen, GenRules, Unsubsumed, PipelineKeys;
    RunKeepsAllow(cfg, run);
    OthersPassThrough(cfg, Keys(run.input), exec.ToKey());
    var i := KeysHasIndex(run.output, exec.ToKey());
    assert run.output[i] in run.output && ExecPath(run.output[i]) == ExecPath(exec);
    LinkedExecRuns(run.output, run.output[i], c);
    var j :| 0 <= j < |run.input| && run.input[j] == exec;
    assert run.canonical[j] == exec && run.canonical[j] in run.canonical;
    assert AllAllow(run.canonical);
    LinkedExecRuns(run.canonical, exec, c);
  }
}
