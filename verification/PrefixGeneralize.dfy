/** Collapsing clusters of sibling exact paths into one directory prefix, behind seven guards. */
module PrefixGeneralize {
  import opened Strings
  import opened PathPatterns
  import opened Ir
  import opened PatternRelation

  datatype PassConfig = PassConfig(
    minCluster: u64, minDepth: u64, minAffix: u64, sensitiveRoots: seq<string>)

  /** Immediate parent directory, with its slash; none at the root or without a slash. */
  function ParentDir(path: string): Option<string> {
    var trimmed := if path != "" && path[|path| - 1] == '/' then path[..|path| - 1] else path;
    var idx := LastIndexOf(trimmed, '/');
    if idx <= 0 then None else Some(trimmed[..idx + 1])
  }

  function CountNonEmpty(parts: seq<string>): nat {
    if parts == [] then 0 else (if parts[0] != "" then 1 else 0) + CountNonEmpty(parts[1..])
  }

  /** Guards 2 and 3. */
  predicate DirGeneralizable(cfg: PassConfig, dir: string) {
    dir !in cfg.sensitiveRoots && CountNonEmpty(Split(dir, '/')) >= cfg.minDepth
  }

  // ---- guard 6: machine-generated leaf names ----

  type Bytes = seq<u8>

  predicate SharePrefix(leaves: set<Bytes>, n: nat) {
    && (forall x :: x in leaves ==> n <= |x|)
    && (forall x, y :: x in leaves && y in leaves ==> x[..n] == y[..n])
  }

  predicate ShareSuffix(leaves: set<Bytes>, n: nat) {
    && (forall x :: x in leaves ==> n <= |x|)
    && (forall x, y :: x in leaves && y in leaves ==> x[|x| - n..] == y[|y| - n..])
  }

  predicate IsHex(b: u8) { IsDigit(b) || 0x41 <= b <= 0x46 || 0x61 <= b <= 0x66 }

  predicate HexToken(x: Bytes) {
    x != [] && (forall b :: b in x ==> IsHex(b)) && (exists b :: b in x && IsDigit(b))
  }

  predicate LooksGenerated(leaves: set<Bytes>, count: nat, minAffix: nat) {
    && count >= 2
    && (SharePrefix(leaves, minAffix) || ShareSuffix(leaves, minAffix) || forall x :: x in leaves ==> HexToken(x))
  }

  function Elems(xs: seq<Bytes>): set<Bytes> { set x | x in xs }

  /** Leaf `j` (or the end of the first leaf) stops agreement with the first leaf at `n`. */
  predicate StopsAt(leaves: seq<Bytes>, n: nat, j: nat)
    requires leaves != []
  {
    && n <= |leaves[0]|
    && (n == |leaves[0]| || (j < |leaves| && (n == |leaves[j]| || (n < |leaves[j]| && leaves[j][n] != leaves[0][n]))))
  }

  lemma SharesExactly(leaves: seq<Bytes>, n: nat, j: nat)
    requires leaves != [] && StopsAt(leaves, n, j)
    requires n == 0 || forall i :: 0 <= i < |leaves| ==> n <= |leaves[i]| && leaves[i][..n] == leaves[0][..n]
    ensures forall m: nat :: m <= n <==> SharePrefix(Elems(leaves), m)
  {
    var first := leaves[0];
    forall m: nat | m <= n ensures SharePrefix(Elems(leaves), m) {
      forall x | x in Elems(leaves) ensures m <= |x| && x[..m] == first[..m] {
        if n > 0 { assert x[..m] == x[..n][..m] && first[..m] == first[..n][..m]; }
      }
    }
    forall m: nat | SharePrefix(Elems(leaves), m) ensures m <= n {
      assert first in Elems(leaves) && (j < |leaves| ==> leaves[j] in Elems(leaves));
      assert m <= |first| && (j < |leaves| ==> m <= |leaves[j]| && leaves[j][..m] == first[..m]);
      assert forall i :: 0 <= i < m && j < |leaves| ==> leaves[j][..m][i] == leaves[j][i];
    }
  }

  /** Length of the longest byte prefix shared by all leaves. */
  method CommonPrefixLen(leaves: seq<Bytes>) returns (len: nat)
    requires leaves != []
    ensures forall n: nat :: n <= len <==> SharePrefix(Elems(leaves), n)
  {
    var first := leaves[0];
    len := |first|;
    ghost var stop := 0;
    var k := 1;
    while k < |leaves|
      invariant 1 <= k <= |leaves|
      invariant StopsAt(leaves, len, stop)
      invariant forall j :: 0 <= j < k ==> len <= |leaves[j]| && leaves[j][..len] == first[..len]
    {
      var b := leaves[k];
      var i := 0;
      while i < len && i < |b| && b[i] == first[i]
        invariant 0 <= i <= len && i <= |b|
        invariant b[..i] == first[..i]
      {
        i := i + 1;
      }
      forall j | 0 <= j < k ensures leaves[j][..i] == first[..i] {
        assert leaves[j][..i] == leaves[j][..len][..i];
      }
      if i < len { stop := k; }
      len := i;
      if len == 0 {
        break;
      }
      k := k + 1;
    }
    SharesExactly(leaves, len, stop);
  }

  function Reversed(x: Bytes): (r: Bytes)
    ensures |r| == |x| && forall i :: 0 <= i < |x| ==> r[i] == x[|x| - 1 - i]
  {
    seq(|x|, i requires 0 <= i < |x| => x[|x| - 1 - i])
  }

  function ReversedAll(xs: seq<Bytes>): (r: seq<Bytes>)
    ensures |r| == |xs| && forall i :: 0 <= i < |xs| ==> r[i] == Reversed(xs[i])
  {
    seq(|xs|, i requires 0 <= i < |xs| => Reversed(xs[i]))
  }

  lemma ReversedSlice(x: Bytes, n: nat)
    requires n <= |x|
    ensures Reversed(x)[..n] == Reversed(x[|x| - n..])
  {
  }

  lemma ReversedInjective(x: Bytes, y: Bytes)
    ensures Reversed(x) == Reversed(y) <==> x == y
  {
    assert Reversed(Reversed(x)) == x && Reversed(Reversed(y)) == y;
  }

  lemma SuffixIsReversedPrefix(leaves: seq<Bytes>, n: nat)
    ensures SharePrefix(Elems(ReversedAll(leaves)), n) <==> ShareSuffix(Elems(leaves), n)
  {
    var rev := Elems(ReversedAll(leaves));
    assert forall i :: 0 <= i < |leaves| ==> ReversedAll(leaves)[i] in rev && leaves[i] in Elems(leaves);
    forall x, y | x in Elems(leaves) && y in Elems(leaves) && n <= |x| && n <= |y|
      ensures Reversed(x)[..n] == Reversed(y)[..n] <==> x[|x| - n..] == y[|y| - n..]
    {
      ReversedSlice(x, n);
      ReversedSlice(y, n);
      ReversedInjective(x[|x| - n..], y[|y| - n..]);
    }
  }

  /** Length of the longest byte suffix shared by all leaves. */
  method CommonSuffixLen(leaves: seq<Bytes>) returns (len: nat)
    requires leaves != []
    ensures forall n: nat :: n <= len <==> ShareSuffix(Elems(leaves), n)
  {
    var first := leaves[0];
    len := |first|;
    ghost var rev := ReversedAll(leaves);
    ghost var stop := 0;
    var k := 1;
    while k < |leaves|
      invariant 1 <= k <= |leaves|
      invariant StopsAt(rev, len, stop)
      invariant forall j :: 0 <= j < k ==> len <= |rev[j]| && rev[j][..len] == rev[0][..len]
    {
      var b := leaves[k];
      var i := 0;
      while i < len && i < |b| && b[|b| - 1 - i] == first[|first| - 1 - i]
        invariant 0 <= i <= len && i <= |b|
        invariant rev[k][..i] == rev[0][..i]
      {
        i := i + 1;
      }
      forall j | 0 <= j < k ensures rev[j][..i] == rev[0][..i] {
        assert rev[j][..i] == rev[j][..len][..i];
      }
      if i < len { stop := k; }
      len := i;
      if len == 0 {
        break;
      }
      k := k + 1;
    }
    SharesExactly(rev, len, stop);
    forall n: nat ensures n <= len <==> ShareSuffix(Elems(leaves), n) {
      SuffixIsReversedPrefix(leaves, n);
    }
  }

  method LeavesLookGenerated(leaves: seq<Bytes>, minAffix: nat) returns (r: bool)
    ensures r == LooksGenerated(Elems(leaves), |leaves|, minAffix)
  {
    if |leaves| < 2 {
      return false;
    }
    var prefix := CommonPrefixLen(leaves);
    var suffix := CommonSuffixLen(leaves);
    if Max(prefix, suffix) >= minAffix {
      return true;
    }
    r := forall x :: x in leaves ==> HexToken(x);
  }

  // ---- guard 7 and the grouping, on rule sets ----

  datatype Group = Group(subject: Subject, action: Action, verdict: Verdict, dir: string)

  /** The sibling group an entry belongs to; sensitive files (guard 5) belong to none. */
  function GroupOf(k: Key): Option<Group> {
    if k.obj.File? && !k.obj.file.isSensitive && k.obj.file.pattern.ExactPath? then
      match ParentDir(k.obj.file.pattern.path)
      case Some(dir) => Some(Group(k.subject, k.action, k.verdict, dir))
      case None => None
    else None
  }

  /** Some same-subject entry of another verdict could touch a file under `dir`. */
  predicate Opposes(k: Key, subject: Subject, verdict: Verdict, dir: string) {
    && k.subject == subject && k.verdict != verdict && k.obj.File?
    && RelationTo(Prefix(dir), k.obj.file.pattern) != Disjoint
  }

  function Siblings(ks: set<Key>, g: Group): set<Key> { set k | k in ks && GroupOf(k) == Some(g) }

  /** Bytes of an exact path after its directory. */
  function Leaf(k: Key, dir: string): Bytes {
    if k.obj.File? && k.obj.file.pattern.ExactPath? && |dir| <= |k.obj.file.pattern.path| then
      Utf8(k.obj.file.pattern.path[|dir|..])
    else []
  }

  function Leaves(ks: set<Key>, g: Group): set<Bytes> {
    set k | k in ks && GroupOf(k) == Some(g) :: Leaf(k, g.dir)
  }

  /** All guards for one group, given how many siblings it has. */
  predicate GuardsPass(cfg: PassConfig, ks: set<Key>, g: Group, count: nat) {
    && count >= cfg.minCluster
    && DirGeneralizable(cfg, g.dir)
    && |Utf8(g.dir)| <= PREFIX_MAX_LEN
    && LooksGenerated(Leaves(ks, g), count, cfg.minAffix)
    && !(exists k :: k in ks && Opposes(k, g.subject, g.verdict, g.dir))
  }

  predicate Fires(cfg: PassConfig, ks: set<Key>, g: Group) { GuardsPass(cfg, ks, g, |Siblings(ks, g)|) }

  predicate Collapses(cfg: PassConfig, ks: set<Key>, k: Key) {
    GroupOf(k).Some? && Fires(cfg, ks, GroupOf(k).value)
  }

  function PrefixKey(g: Group): Key {
    Key(g.subject, File(FileObject(Prefix(g.dir), false)), g.action, g.verdict)
  }

  /** The pass on rule sets. */
  function PrefixGenKeys(cfg: PassConfig, ks: set<Key>): set<Key> {
    (set k | k in ks && !Collapses(cfg, ks, k)) +
    (set k | k in ks && Collapses(cfg, ks, k) :: PrefixKey(GroupOf(k).value))
  }

  // ---- the pass on rule lists ----

  /** Indices below `n` of the rules in `g`, ascending. */
  function Members(rules: seq<Rule>, n: nat, g: Group): (r: seq<nat>)
    requires n <= |rules|
    ensures forall j :: 0 <= j < |r| ==> r[j] < n && GroupOf(rules[r[j]].ToKey()) == Some(g)
    ensures forall i :: 0 <= i < n && GroupOf(rules[i].ToKey()) == Some(g) ==> i in r
  {
    if n == 0 then []
    else if GroupOf(rules[n - 1].ToKey()) == Some(g) then Members(rules, n - 1, g) + [n - 1]
    else Members(rules, n - 1, g)
  }

  predicate FiresOn(cfg: PassConfig, rules: seq<Rule>, g: Group) {
    GuardsPass(cfg, Keys(rules), g, |Members(rules, |rules|, g)|)
  }

  predicate CollapsesOn(cfg: PassConfig, rules: seq<Rule>, i: nat)
    requires i < |rules|
  {
    var g := GroupOf(rules[i].ToKey());
    g.Some? && FiresOn(cfg, rules, g.value)
  }

  function Kept(cfg: PassConfig, rules: seq<Rule>, n: nat): seq<Rule>
    requires n <= |rules|
  {
    if n == 0 then []
    else if CollapsesOn(cfg, rules, n - 1) then Kept(cfg, rules, n - 1)
    else Kept(cfg, rules, n - 1) + [rules[n - 1]]
  }

  predicate Indices(rules: seq<Rule>, idxs: seq<nat>) { forall j :: 0 <= j < |idxs| ==> idxs[j] < |rules| }

  /** Folded metadata of the rules at `idxs`: saturating count, earliest and latest times. */
  function FoldedObs(rules: seq<Rule>, idxs: seq<nat>): u64
    requires Indices(rules, idxs)
  {
    if idxs == [] then 0
    else Min(FoldedObs(rules, idxs[..|idxs| - 1]) + rules[idxs[|idxs| - 1]].metadata.observations, U64_MAX)
  }

  function FoldedFirst(rules: seq<Rule>, idxs: seq<nat>): u64
    requires Indices(rules, idxs)
  {
    if idxs == [] then U64_MAX
    else Min(FoldedFirst(rules, idxs[..|idxs| - 1]), rules[idxs[|idxs| - 1]].metadata.firstSeen)
  }

  function FoldedLast(rules: seq<Rule>, idxs: seq<nat>): u64
    requires Indices(rules, idxs)
  {
    if idxs == [] then 0
    else Max(FoldedLast(rules, idxs[..|idxs| - 1]), rules[idxs[|idxs| - 1]].metadata.lastSeen)
  }

  function Synthesized(rules: seq<Rule>, g: Group): Rule
    requires Members(rules, |rules|, g) != []
  {
    var idxs := Members(rules, |rules|, g);
    var first := FoldedFirst(rules, idxs);
    var k := PrefixKey(g);
    Rule(rules[idxs[0]].id, k.subject, k.obj, k.action, k.verdict,
         Metadata(rules[idxs[0]].metadata.source, FoldedObs(rules, idxs),
                  if first == U64_MAX then 0 else first, FoldedLast(rules, idxs)))
  }

  /** `order` lists, once each, the groups that fire: the hash map chooses the order. */
  ghost predicate Enumerates(cfg: PassConfig, rules: seq<Rule>, order: seq<Group>) {
    && AllInhabited(rules, order)
    && (forall i :: 0 <= i < |order| ==> FiresOn(cfg, rules, order[i]))
    && (forall i, j :: 0 <= i < j < |order| ==> order[i] != order[j])
    && (forall i :: 0 <= i < |rules| && CollapsesOn(cfg, rules, i) ==> GroupOf(rules[i].ToKey()).value in order)
  }

  predicate AllInhabited(rules: seq<Rule>, order: seq<Group>) {
    forall i :: 0 <= i < |order| ==> Members(rules, |rules|, order[i]) != []
  }

  function SynthesizedAll(rules: seq<Rule>, order: seq<Group>): seq<Rule>
    requires AllInhabited(rules, order)
  {
    seq(|order|, i requires 0 <= i < |order| => Synthesized(rules, order[i]))
  }

  ghost predicate IsPrefixGen(cfg: PassConfig, rules: seq<Rule>, out: seq<Rule>) {
    exists order :: Enumerates(cfg, rules, order) &&
      out == Kept(cfg, rules, |rules|) + SynthesizedAll(rules, order)
  }

  // ---- the program ----

  method Bucket(rules: seq<Rule>) returns (groups: map<Group, seq<nat>>)
    ensures forall g :: g in groups <==> Members(rules, |rules|, g) != []
    ensures forall g :: g in groups ==> groups[g] == Members(rules, |rules|, g)
  {
    hide ParentDir;
    groups := map[];
    var i := 0;
    while i < |rules|
      invariant 0 <= i <= |rules|
      invariant forall g :: g in groups <==> Members(rules, i, g) != []
      invariant forall g :: g in groups ==> groups[g] == Members(rules, i, g)
    {
      var rule := rules[i];
      if rule.obj.File? && !rule.obj.file.isSensitive && rule.obj.file.pattern.ExactPath? {
        var dir := ParentDir(rule.obj.file.pattern.path);
        if dir.Some? {
          var g := Group(rule.subject, rule.action, rule.verdict, dir.value);
          groups := groups[g := (if g in groups then groups[g] else []) + [i]];
        }
      }
      i := i + 1;
    }
  }

  method FoldMembers(rules: seq<Rule>, g: Group, idxs: seq<nat>) returns (r: Rule)
    requires idxs == Members(rules, |rules|, g) && idxs != []
    ensures r == Synthesized(rules, g)
  {
    hide GroupOf;
    var obs: u64 := 0;
    var first: u64 := U64_MAX;
    var last: u64 := 0;
    var n := 0;
    while n < |idxs|
      invariant 0 <= n <= |idxs|
      invariant obs == FoldedObs(rules, idxs[..n])
      invariant first == FoldedFirst(rules, idxs[..n])
      invariant last == FoldedLast(rules, idxs[..n])
    {
      assert idxs[..n + 1][..n] == idxs[..n];
      var m := rules[idxs[n]].metadata;
      obs := Min(obs + m.observations, U64_MAX);
      first := Min(first, m.firstSeen);
      last := Max(last, m.lastSeen);
      n := n + 1;
    }
    assert idxs[..n] == idxs;
    r := Rule(rules[idxs[0]].id, g.subject, File(FileObject(Prefix(g.dir), false)), g.action, g.verdict,
              Metadata(rules[idxs[0]].metadata.source, obs, if first == U64_MAX then 0 else first, last));
  }

  function LeafSeq(rules: seq<Rule>, idxs: seq<nat>, dir: string): (r: seq<Bytes>)
    requires Indices(rules, idxs)
    ensures |r| == |idxs| && forall n :: 0 <= n < |idxs| ==> r[n] == Leaf(rules[idxs[n]].ToKey(), dir)
  {
    if idxs == [] then []
    else LeafSeq(rules, idxs[..|idxs| - 1], dir) + [Leaf(rules[idxs[|idxs| - 1]].ToKey(), dir)]
  }

  lemma LeafSeqElems(rules: seq<Rule>, g: Group)
    ensures Elems(LeafSeq(rules, Members(rules, |rules|, g), g.dir)) == Leaves(Keys(rules), g)
  {
    hide GroupOf, Leaf;
    var idxs := Members(rules, |rules|, g);
    var ls := LeafSeq(rules, idxs, g.dir);
    forall x | x in Elems(ls) ensures x in Leaves(Keys(rules), g) {
      var n :| 0 <= n < |ls| && ls[n] == x;
      assert rules[idxs[n]].ToKey() in Keys(rules);
    }
    forall x | x in Leaves(Keys(rules), g) ensures x in Elems(ls) {
      var k :| k in Keys(rules) && GroupOf(k) == Some(g) && Leaf(k, g.dir) == x;
      var i := KeysHasIndex(rules, k);
      assert i in idxs;
      var n :| 0 <= n < |idxs| && idxs[n] == i;
      assert ls[n] == x;
    }
  }

  predicate OpposingVerdictUnder(rules: seq<Rule>, subject: Subject, verdict: Verdict, dir: string) {
    exists r :: r in rules && Opposes(r.ToKey(), subject, verdict, dir)
  }

  /** Every guard, evaluated the way the pass does. */
  method CheckGuards(cfg: PassConfig, rules: seq<Rule>, g: Group, idxs: seq<nat>) returns (fires: bool)
    requires idxs == Members(rules, |rules|, g)
    ensures fires == FiresOn(cfg, rules, g)
  {
    hide GroupOf, DirGeneralizable, LooksGenerated, Opposes;
    if |idxs| < cfg.minCluster { return false; }
    if !DirGeneralizable(cfg, g.dir) { return false; }
    if |Utf8(g.dir)| > PREFIX_MAX_LEN { return false; }
    var leaves := LeafSeq(rules, idxs, g.dir);
    LeafSeqElems(rules, g);
    var generated := LeavesLookGenerated(leaves, cfg.minAffix);
    if !generated { return false; }
    assert OpposingVerdictUnder(rules, g.subject, g.verdict, g.dir) <==>
           exists k :: k in Keys(rules) && Opposes(k, g.subject, g.verdict, g.dir);
    return !OpposingVerdictUnder(rules, g.subject, g.verdict, g.dir);
  }

  method KeepUncollapsed(cfg: PassConfig, rules: seq<Rule>, collapsed: set<nat>) returns (out: seq<Rule>)
    requires forall i :: 0 <= i < |rules| ==> (i in collapsed <==> CollapsesOn(cfg, rules, i))
    ensures out == Kept(cfg, rules, |rules|)
  {
    hide FiresOn, GroupOf;
    out := [];
    var i := 0;
    while i < |rules|
      invariant 0 <= i <= |rules|
      invariant out == Kept(cfg, rules, i)
    {
      if i !in collapsed {
        out := out + [rules[i]];
      }
      i := i + 1;
    }
  }

  lemma KeptAll(cfg: PassConfig, rules: seq<Rule>, n: nat)
    requires n <= |rules| && forall i :: 0 <= i < n ==> !CollapsesOn(cfg, rules, i)
    ensures Kept(cfg, rules, n) == rules[..n]
  {
    if n > 0 { KeptAll(cfg, rules, n - 1); }
  }

  /** Rule `i` sits in one of the groups of `order`. */
  predicate Covered(rules: seq<Rule>, order: seq<Group>, i: nat)
    requires i < |rules|
  {
    var g := GroupOf(rules[i].ToKey());
    g.Some? && g.value in order
  }

  lemma CoveredByMember(rules: seq<Rule>, order: seq<Group>, g: Group, i: nat)
    requires i < |rules|
    ensures Covered(rules, order + [g], i) <==> Covered(rules, order, i) || i in Members(rules, |rules|, g)
  {
    var ms := Members(rules, |rules|, g);
    assert forall j :: 0 <= j < |ms| ==> GroupOf(rules[ms[j]].ToKey()) == Some(g);
  }

  lemma FiredGroupCollapses(cfg: PassConfig, rules: seq<Rule>, g: Group) returns (i: nat)
    requires Members(rules, |rules|, g) != [] && FiresOn(cfg, rules, g)
    ensures i < |rules| && CollapsesOn(cfg, rules, i)
  {
    hide GuardsPass, GroupOf;
    i := Members(rules, |rules|, g)[0];
  }

  lemma NothingFired(cfg: PassConfig, rules: seq<Rule>, order: seq<Group>)
    requires Enumerates(cfg, rules, order) && forall i :: 0 <= i < |rules| ==> !CollapsesOn(cfg, rules, i)
    ensures IsPrefixGen(cfg, rules, rules)
  {
    hide GuardsPass, GroupOf;
    KeptAll(cfg, rules, |rules|);
    if order != [] {
      var i := FiredGroupCollapses(cfg, rules, order[0]);
    }
    assert rules == rules[..|rules|] + [];
  }

  /** Rules folded away once the groups of `order` have collapsed. */
  function CollapsedBy(rules: seq<Rule>, order: seq<Group>): set<nat> {
    set i: nat | i < |rules| && Covered(rules, order, i)
  }

  /** `order` lists, once each, the groups of `done` that fire. */
  ghost predicate FiredAmong(cfg: PassConfig, rules: seq<Rule>, done: set<Group>, order: seq<Group>) {
    && (forall g :: g in order <==> g in done && FiresOn(cfg, rules, g))
    && (forall i, j :: 0 <= i < j < |order| ==> order[i] != order[j])
  }

  lemma OneMoreCollapse(rules: seq<Rule>, order: seq<Group>, g: Group)
    requires AllInhabited(rules, order) && Members(rules, |rules|, g) != []
    ensures CollapsedBy(rules, order + [g]) == CollapsedBy(rules, order) + set i | i in Members(rules, |rules|, g)
    ensures AllInhabited(rules, order + [g])
    ensures SynthesizedAll(rules, order + [g]) == SynthesizedAll(rules, order) + [Synthesized(rules, g)]
  {
    hide Covered, Synthesized;
    var ms := Members(rules, |rules|, g);
    forall i: nat | i < |rules|
      ensures Covered(rules, order + [g], i) <==> Covered(rules, order, i) || i in ms
    {
      CoveredByMember(rules, order, g, i);
    }
  }

  lemma OneMoreGroup(cfg: PassConfig, rules: seq<Rule>, done: set<Group>, order: seq<Group>, g: Group)
    requires FiredAmong(cfg, rules, done, order) && g !in done
    ensures FiresOn(cfg, rules, g) ==> FiredAmong(cfg, rules, done + {g}, order + [g])
    ensures !FiresOn(cfg, rules, g) ==> FiredAmong(cfg, rules, done + {g}, order)
  {
    hide FiresOn;
  }

  lemma AllGroupsDone(cfg: PassConfig, rules: seq<Rule>, done: set<Group>, order: seq<Group>)
    requires FiredAmong(cfg, rules, done, order) && AllInhabited(rules, order)
    requires forall g :: g in done <==> Members(rules, |rules|, g) != []
    ensures Enumerates(cfg, rules, order)
    ensures forall i: nat :: i < |rules| ==> (i in CollapsedBy(rules, order) <==> CollapsesOn(cfg, rules, i))
  {
    hide FiresOn, GroupOf;
    forall i: nat | i < |rules|
      ensures i in CollapsedBy(rules, order) <==> CollapsesOn(cfg, rules, i)
    {
      if GroupOf(rules[i].ToKey()).Some? {
        assert i in Members(rules, |rules|, GroupOf(rules[i].ToKey()).value);
      }
    }
    assert forall i :: 0 <= i < |order| ==> order[i] in order;
  }

  method PrefixGeneralize(cfg: PassConfig, rules: seq<Rule>) returns (out: seq<Rule>)
    ensures IsPrefixGen(cfg, rules, out)
  {
    hide FiresOn, CollapsesOn, Synthesized, SynthesizedAll, CollapsedBy, Kept, FiredAmong, Enumerates;
    var groups := Bucket(rules);
    var collapsed: set<nat> := {};
    var synthesized: seq<Rule> := [];
    ghost var order: seq<Group> := [];
    var left := groups.Keys;
    NoGroups(cfg, rules);
    assert groups.Keys - left == {};
    while left != {}
      invariant left <= groups.Keys
      invariant FiredAmong(cfg, rules, groups.Keys - left, order)
      invariant AllInhabited(rules, order) && synthesized == SynthesizedAll(rules, order)
      invariant collapsed == CollapsedBy(rules, order)
      decreases |left|
    {
      var g :| g in left;
      OneMoreGroup(cfg, rules, groups.Keys - left, order, g);
      assert groups.Keys - (left - {g}) == groups.Keys - left + {g};
      left := left - {g};
      var idxs := groups[g];
      var fires := CheckGuards(cfg, rules, g, idxs);
      if fires {
        var r := FoldMembers(rules, g, idxs);
        OneMoreCollapse(rules, order, g);
        collapsed := collapsed + set i | i in idxs;
        synthesized := synthesized + [r];
        order := order + [g];
      }
    }
    assert groups.Keys - left == groups.Keys;
    AllGroupsDone(cfg, rules, groups.Keys, order);
    if collapsed == {} {
      NothingFired(cfg, rules, order);
      return rules;
    }
    var kept := KeepUncollapsed(cfg, rules, collapsed);
    out := kept + synthesized;
  }

  lemma NoGroups(cfg: PassConfig, rules: seq<Rule>)
    ensures AllInhabited(rules, []) && SynthesizedAll(rules, []) == []
    ensures FiredAmong(cfg, rules, {}, []) && CollapsedBy(rules, []) == {}
  {
  }

  // ---- what the folded rule says ----

  /** Observations of the group among the first `n` rules. */
  function GroupTotal(rules: seq<Rule>, n: nat, g: Group): nat
    requires n <= |rules|
  {
    if n == 0 then 0
    else GroupTotal(rules, n - 1, g) + (if GroupOf(rules[n - 1].ToKey()) == Some(g) then rules[n - 1].metadata.observations else 0)
  }

  lemma {:induction false} FoldedTotal(rules: seq<Rule>, n: nat, g: Group)
    requires n <= |rules|
    ensures FoldedObs(rules, Members(rules, n, g)) == Min(GroupTotal(rules, n, g), U64_MAX)
  {
    hide GroupOf, FoldedObs, Members, GroupTotal;
    if n == 0 {
      NothingFolded(rules, g);
    } else {
      FoldedTotal(rules, n - 1, g);
      OneMoreFolded(rules, n, g);
      OneMoreTotal(rules, n, g);
    }
  }

  lemma NothingFolded(rules: seq<Rule>, g: Group)
    ensures FoldedObs(rules, Members(rules, 0, g)) == 0 && GroupTotal(rules, 0, g) == 0
  {
  }

  lemma OneMoreTotal(rules: seq<Rule>, n: nat, g: Group)
    requires 0 < n <= |rules|
    ensures GroupTotal(rules, n, g) == GroupTotal(rules, n - 1, g)
              + if GroupOf(rules[n - 1].ToKey()) == Some(g) then rules[n - 1].metadata.observations else 0
  {
    hide GroupOf;
  }

  lemma OneMoreFolded(rules: seq<Rule>, n: nat, g: Group)
    requires 0 < n <= |rules|
    ensures FoldedObs(rules, Members(rules, n, g)) ==
            if GroupOf(rules[n - 1].ToKey()) == Some(g)
            then Min(FoldedObs(rules, Members(rules, n - 1, g)) + rules[n - 1].metadata.observations, U64_MAX)
            else FoldedObs(rules, Members(rules, n - 1, g))
  {
    hide GroupOf, FoldedObs, Members;
    var before := Members(rules, n - 1, g);
    OneMoreMember(rules, n, g);
    FoldedSnoc(rules, before, n - 1);
    assert before + [] == before;
  }

  predicate InGroup(rules: seq<Rule>, n: nat, g: Group, i: int)
    requires n <= |rules|
  {
    0 <= i < n && GroupOf(rules[i].ToKey()) == Some(g)
  }

  /** Among the first `n` rules the group's times lie between `first` and `last`, and reach both. */
  ghost predicate Spans(rules: seq<Rule>, n: nat, g: Group, first: u64, last: u64)
    requires n <= |rules|
  {
    && (forall i :: InGroup(rules, n, g, i) ==> first <= rules[i].metadata.firstSeen && rules[i].metadata.lastSeen <= last)
    && (exists i :: InGroup(rules, n, g, i) && rules[i].metadata.firstSeen == first)
    && (exists i :: InGroup(rules, n, g, i) && rules[i].metadata.lastSeen == last)
  }

  lemma GroupGrows(rules: seq<Rule>, n: nat, g: Group)
    requires 0 < n <= |rules|
    ensures forall i :: InGroup(rules, n, g, i) <==>
                        InGroup(rules, n - 1, g, i) || (i == n - 1 && GroupOf(rules[n - 1].ToKey()) == Some(g))
  {
    hide GroupOf;
  }

  lemma SpansSame(rules: seq<Rule>, n: nat, g: Group, first: u64, last: u64)
    requires 0 < n <= |rules| && Spans(rules, n - 1, g, first, last) && GroupOf(rules[n - 1].ToKey()) != Some(g)
    ensures Spans(rules, n, g, first, last)
  {
    hide GroupOf;
    GroupGrows(rules, n, g);
  }

  lemma SpansMore(rules: seq<Rule>, n: nat, g: Group, first: u64, last: u64)
    requires 0 < n <= |rules| && Spans(rules, n - 1, g, first, last) && GroupOf(rules[n - 1].ToKey()) == Some(g)
    ensures var m := rules[n - 1].metadata; Spans(rules, n, g, Min(first, m.firstSeen), Max(last, m.lastSeen))
  {
    hide GroupOf;
    GroupGrows(rules, n, g);
    var i :| InGroup(rules, n - 1, g, i) && rules[i].metadata.firstSeen == first;
    var j :| InGroup(rules, n - 1, g, j) && rules[j].metadata.lastSeen == last;
    assert InGroup(rules, n, g, i) && InGroup(rules, n, g, j) && InGroup(rules, n, g, n - 1);
  }

  lemma SpansOne(rules: seq<Rule>, n: nat, g: Group)
    requires 0 < n <= |rules| && Members(rules, n - 1, g) == [] && GroupOf(rules[n - 1].ToKey()) == Some(g)
    ensures var m := rules[n - 1].metadata; Spans(rules, n, g, m.firstSeen, m.lastSeen)
  {
    hide GroupOf;
    NoneInGroup(rules, n - 1, g);
    GroupGrows(rules, n, g);
    assert InGroup(rules, n, g, n - 1);
  }

  lemma OneMoreMember(rules: seq<Rule>, n: nat, g: Group)
    requires 0 < n <= |rules|
    ensures Members(rules, n, g) == Members(rules, n - 1, g) + if GroupOf(rules[n - 1].ToKey()) == Some(g) then [n - 1] else []
  {
    hide GroupOf;
  }

  lemma FoldedSnoc(rules: seq<Rule>, idxs: seq<nat>, i: nat)
    requires Indices(rules, idxs) && i < |rules|
    ensures FoldedFirst(rules, idxs + [i]) == Min(FoldedFirst(rules, idxs), rules[i].metadata.firstSeen)
    ensures FoldedLast(rules, idxs + [i]) == Max(FoldedLast(rules, idxs), rules[i].metadata.lastSeen)
    ensures FoldedObs(rules, idxs + [i]) == Min(FoldedObs(rules, idxs) + rules[i].metadata.observations, U64_MAX)
    ensures FoldedFirst(rules, []) == U64_MAX && FoldedLast(rules, []) == 0 && FoldedObs(rules, []) == 0
  {
    assert (idxs + [i])[..|idxs|] == idxs;
  }

  lemma {:induction false} FoldedBounds(rules: seq<Rule>, n: nat, g: Group)
    requires n <= |rules| && Members(rules, n, g) != []
    ensures Spans(rules, n, g, FoldedFirst(rules, Members(rules, n, g)), FoldedLast(rules, Members(rules, n, g)))
  {
    hide GroupOf, Spans, FoldedFirst, FoldedLast, FoldedObs;
    var before := Members(rules, n - 1, g);
    OneMoreMember(rules, n, g);
    FoldedSnoc(rules, before, n - 1);
    if before == [] {
      SpansOne(rules, n, g);
    } else {
      FoldedBounds(rules, n - 1, g);
      if GroupOf(rules[n - 1].ToKey()) == Some(g) {
        SpansMore(rules, n, g, FoldedFirst(rules, before), FoldedLast(rules, before));
      } else {
        SpansSame(rules, n, g, FoldedFirst(rules, before), FoldedLast(rules, before));
        assert Members(rules, n, g) == before;
      }
    }
  }

  lemma NoneInGroup(rules: seq<Rule>, n: nat, g: Group)
    requires n <= |rules| && Members(rules, n, g) == []
    ensures forall i :: !InGroup(rules, n, g, i)
  {
    hide GroupOf, Members;
  }

  lemma {:induction false} FirstMember(rules: seq<Rule>, n: nat, g: Group)
    requires n <= |rules| && Members(rules, n, g) != []
    ensures var m := Members(rules, n, g)[0];
      InGroup(rules, n, g, m) && forall i :: 0 <= i < m ==> !InGroup(rules, n, g, i)
  {
    hide GroupOf, InGroup;
    var before := Members(rules, n - 1, g);
    OneMoreMember(rules, n, g);
    GroupGrows(rules, n, g);
    if before != [] {
      FirstMember(rules, n - 1, g);
    } else {
      NoneInGroup(rules, n - 1, g);
    }
  }

  /** The rule a group collapses into: the directory's prefix, with the id and source of the group's first
      rule; it counts every observation of the group up to the 64-bit maximum, and its times are bounds of
      the group's, both attained, a first time that was never set being 0. */
  lemma SynthesizedIs(rules: seq<Rule>, g: Group)
    requires Members(rules, |rules|, g) != []
    ensures var r, n := Synthesized(rules, g), |rules|;
      && r.ToKey() == Key(g.subject, File(FileObject(Prefix(g.dir), false)), g.action, g.verdict)
      && (exists m :: InGroup(rules, n, g, m) && (forall i :: 0 <= i < m ==> !InGroup(rules, n, g, i))
                      && r.id == rules[m].id && r.metadata.source == rules[m].metadata.source)
      && r.metadata.observations == Min(GroupTotal(rules, n, g), 0xFFFF_FFFF_FFFF_FFFF)
      && (forall i :: InGroup(rules, n, g, i) ==>
            r.metadata.firstSeen <= rules[i].metadata.firstSeen && rules[i].metadata.lastSeen <= r.metadata.lastSeen)
      && (exists i :: InGroup(rules, n, g, i) && rules[i].metadata.lastSeen == r.metadata.lastSeen)
      && (exists i :: InGroup(rules, n, g, i) &&
                      r.metadata.firstSeen == if rules[i].metadata.firstSeen == 0xFFFF_FFFF_FFFF_FFFF then 0 else rules[i].metadata.firstSeen)
  {
    hide GroupOf, FoldedObs, FoldedFirst, FoldedLast, GroupTotal, Members, InGroup;
    FoldedTotal(rules, |rules|, g);
    FoldedBounds(rules, |rules|, g);
    FirstMember(rules, |rules|, g);
  }
}
