/** Lowering rules to an AppArmor profile. */
module AppArmorPrinter {
  import opened Strings
  import opened Text
  import opened PathPatterns
  import opened Ir

  datatype LossKind = Approximated | AbiGated | Dropped

  datatype LoweringWarning = LoweringWarning(ruleId: RuleId, kind: LossKind)

  datatype GlobMap = Exact(glob: string) | Approx(glob: string) | Unmappable

  /** Only three classes have a placeholder in their text; the other texts are AARE globs already. */
  function FileGlob(pattern: FilePattern): GlobMap {
    match pattern
    case ExactPath(path) => Exact(path)
    case Prefix(prefix) => Exact(prefix + "**")
    case Classified(Regular) => Unmappable
    case Classified(ProcPidOther) => Approx("/proc/*/**")
    case Classified(ProcGlobal) => Approx("/proc/*")
    case Classified(c) => Exact(c.AsStr())
  }

  function QuoteIfNeeded(s: string): string { if HasWs(s) then "\"" + s + "\"" else s }

  /** The four octets of an address in the enforcement convention (little-endian). */
  function Ipv4Dotted(ip: u32): string {
    Dec(ip % 0x100) + "." + Dec(ip / 0x100 % 0x100) + "." + Dec(ip / 0x1_0000 % 0x100) + "." + Dec(ip / 0x100_0000)
  }

  function NetConditional(n: NetworkObject, isPeer: bool): string {
    var ip := if n.dstIp.Some? then ["ip=" + Ipv4Dotted(n.dstIp.value)] else [];
    var port := if n.dstPort.Some? then ["port=" + Dec(n.dstPort.value)] else [];
    var parts := ip + port;
    if parts == [] then ""
    else if isPeer then "peer=(" + Join(parts, ' ') + ")"
    else Join(parts, ' ')
  }

  datatype Section = Executables | Files | NetworkRules

  /** What lowering does with one rule: at most one line, at most one warning. */
  datatype Lowered = Lowered(section: Section, line: Option<string>, loss: Option<LossKind>)

  function DenyWord(v: Verdict): string { if v == Deny then "deny " else "" }

  function FileRuleLine(v: Verdict, glob: string, action: Action): string {
    "  " + (DenyWord(v) + (QuoteIfNeeded(glob) + " " + (if action == FileWrite then "w" else "r"))) + ","
  }

  function ExecRuleLine(v: Verdict, path: string): string {
    "  " + (DenyWord(v) + (QuoteIfNeeded(path) + " " + "ix")) + ","
  }

  function SocketType(n: NetworkObject): string { if n.protocol == Some(17) then "dgram" else "stream" }

  function NetRuleBody(n: NetworkObject, isPeer: bool): string {
    var cond := NetConditional(n, isPeer);
    "network" + (" inet " + SocketType(n) + (if cond == "" then "" else " " + cond))
  }

  function LowerRule(rule: Rule): Lowered {
    if rule.obj.File? && rule.action in {FileOpen, FileRead, FileWrite} then
      match FileGlob(rule.obj.file.pattern)
      case Exact(glob) => Lowered(Files, Some(FileRuleLine(rule.verdict, glob, rule.action)), None)
      case Approx(glob) => Lowered(Files, Some(FileRuleLine(rule.verdict, glob, rule.action)), Some(Approximated))
      case Unmappable => Lowered(Files, None, Some(Dropped))
    else if rule.obj.Process? && rule.action == ProcExec then
      match rule.obj.process.binary
      case BinaryPath(path) => Lowered(Executables, Some(ExecRuleLine(rule.verdict, path)), None)
      case Comm(_) => Lowered(Executables, None, Some(Dropped))
    else if rule.obj.Network? && rule.action in {NetConnect, NetBind} then
      var isPeer := rule.action == NetConnect;
      Lowered(NetworkRules, Some("  " + (DenyWord(rule.verdict) + NetRuleBody(rule.obj.net, isPeer)) + ","),
              if NetConditional(rule.obj.net, isPeer) == "" then None else Some(AbiGated))
    else Lowered(Files, None, Some(Dropped))
  }

  /** Lines a section collects from the first `n` rules, in rule order. */
  function SectionLines(rules: seq<Rule>, n: nat, s: Section): seq<string>
    requires n <= |rules|
  {
    if n == 0 then []
    else
      var l := LowerRule(rules[n - 1]);
      SectionLines(rules, n - 1, s) + (if l.section == s && l.line.Some? then [l.line.value] else [])
  }

  function Warnings(rules: seq<Rule>, n: nat): seq<LoweringWarning>
    requires n <= |rules|
  {
    if n == 0 then []
    else
      var l := LowerRule(rules[n - 1]);
      Warnings(rules, n - 1) + (if l.loss.Some? then [LoweringWarning(rules[n - 1].id, l.loss.value)] else [])
  }

  // ---- sorting and deduplicating lines ----

  predicate Less(a: string, b: string) {
    b != "" && (a == "" || a[0] < b[0] || (a[0] == b[0] && Less(a[1..], b[1..])))
  }

  lemma {:induction false} LessTotal(a: string, b: string)
    ensures Less(a, b) || a == b || Less(b, a)
    ensures !(Less(a, b) && Less(b, a)) && !Less(a, a)
  {
    if a != "" && b != "" {
      LessTotal(a[1..], b[1..]);
      assert a == [a[0]] + a[1..] && b == [b[0]] + b[1..];
    }
    if a != "" { LessTotal(a[1..], a[1..]); }
  }

  lemma {:induction false} LessTransitive(a: string, b: string, c: string)
    requires Less(a, b) && Less(b, c)
    ensures Less(a, c)
  {
    if a != "" && a[0] == b[0] && b[0] == c[0] { LessTransitive(a[1..], b[1..], c[1..]); }
  }

  predicate StrictlySorted(v: seq<string>) { forall i, j :: 0 <= i < j < |v| ==> Less(v[i], v[j]) }

  function Elements(v: seq<string>): set<string> { set l | l in v }

  /** `r` is the sorted, duplicate-free form of `v`. */
  predicate IsSortedSet(r: seq<string>, v: seq<string>) { StrictlySorted(r) && Elements(r) == Elements(v) }

  /** The first position not below `x`. */
  method LowerBound(v: seq<string>, x: string) returns (i: nat)
    requires StrictlySorted(v)
    ensures i <= |v|
    ensures forall j :: 0 <= j < i ==> Less(v[j], x)
    ensures forall j :: i <= j < |v| ==> v[j] == x || Less(x, v[j])
  {
    i := 0;
    while i < |v| && Less(v[i], x)
      invariant 0 <= i <= |v|
      invariant forall j :: 0 <= j < i ==> Less(v[j], x)
    {
      i := i + 1;
    }
    forall j | i <= j < |v| ensures v[j] == x || Less(x, v[j]) {
      LessTotal(v[i], x);
      if i < j && Less(x, v[i]) { LessTransitive(x, v[i], v[j]); }
    }
  }

  /** A growable list of lines. */
  class LineVec {
    var items: seq<string>

    constructor ()
      ensures items == []
    {
      items := [];
    }

    method Push(line: string)
      modifies this
      ensures items == old(items) + [line]
    {
      items := items + [line];
    }

    /** Sort and drop repeats, in place. */
    method DedupSort()
      modifies this
      ensures IsSortedSet(items, old(items))
    {
      var sorted: seq<string> := [];
      var n := 0;
      while n < |items|
        invariant 0 <= n <= |items| && items == old(items)
        invariant IsSortedSet(sorted, items[..n])
      {
        var i := LowerBound(sorted, items[n]);
        assert items[..n + 1] == items[..n] + [items[n]];
        if i == |sorted| || sorted[i] != items[n] {
          InsertKeepsSorted(sorted, i, items[n]);
          sorted := sorted[..i] + [items[n]] + sorted[i..];
        } else {
          assert sorted[i] in sorted;
        }
        n := n + 1;
      }
      assert items[..n] == items;
      items := sorted;
    }
  }

  lemma InsertKeepsSorted(v: seq<string>, i: nat, x: string)
    requires StrictlySorted(v) && i <= |v|
    requires forall j :: 0 <= j < i ==> Less(v[j], x)
    requires forall j :: i <= j < |v| ==> v[j] == x || Less(x, v[j])
    requires i == |v| || v[i] != x
    ensures var r := v[..i] + [x] + v[i..]; StrictlySorted(r) && Elements(r) == Elements(v) + {x}
  {
    forall j | i <= j < |v| ensures Less(x, v[j]) {
      if j > i { LessTransitive(x, v[i], v[j]); }
    }
    var r := v[..i] + [x] + v[i..];
    assert forall l :: l in r <==> l in v || l == x by {
      assert v == v[..i] + v[i..];
    }
  }

  /** A set of lines has one sorted form: the profile does not depend on rule order or repetition. */
  lemma {:induction false} SortedSetUnique(a: seq<string>, b: seq<string>)
    requires StrictlySorted(a) && StrictlySorted(b) && Elements(a) == Elements(b)
    ensures a == b
  {
    assert a != [] ==> a[0] in Elements(a);
    assert b != [] ==> b[0] in Elements(b);
    if a != [] && b != [] {
      assert a[0] in Elements(b) && b[0] in Elements(a);
      var i :| 0 <= i < |b| && b[i] == a[0];
      var j :| 0 <= j < |a| && a[j] == b[0];
      LessTotal(a[0], b[0]);
      TailElements(a);
      TailElements(b);
      SortedSetUnique(a[1..], b[1..]);
    }
  }

  lemma TailElements(v: seq<string>)
    requires StrictlySorted(v) && v != []
    ensures Elements(v[1..]) == Elements(v) - {v[0]}
  {
    LessTotal(v[0], v[0]);
    assert v == [v[0]] + v[1..];
    assert forall k :: 0 < k < |v| ==> v[k] == v[1..][k - 1] && Less(v[0], v[k]);
  }

  // ---- the profile text ----

  function SectionText(header: string, lines: seq<string>): seq<string> {
    if lines == [] then [] else ["  " + header] + lines
  }

  function Header(name: string): string {
    "profile " + name + (" flags=(" + "attach_disconnected" + "," + "mediate_deleted" + ") {")
  }

  function ProfileLines(name: string, execs: seq<string>, files: seq<string>, nets: seq<string>): seq<string> {
    [Header(name)] + SectionText("# executables", execs) + SectionText("# files", files)
      + SectionText("# network", nets) + ["}"]
  }

  /** `text` is the profile of `rules`. */
  ghost predicate IsProfile(rules: seq<Rule>, name: string, text: string) {
    exists execs, files, nets ::
      && IsSortedSet(execs, SectionLines(rules, |rules|, Executables))
      && IsSortedSet(files, SectionLines(rules, |rules|, Files))
      && IsSortedSet(nets, SectionLines(rules, |rules|, NetworkRules))
      && text == Unlines(ProfileLines(name, execs, files, nets))
  }

  class Output {
    var text: string

    constructor (start: string)
      ensures text == start
    {
      text := start;
    }

    method PushStr(s: string)
      modifies this
      ensures text == old(text) + s
    {
      text := text + s;
    }

    method PushSection(header: string, lines: seq<string>)
      modifies this
      ensures text == old(text) + Unlines(SectionText(header, lines))
    {
      hide Unlines;
      if lines == [] {
        EmptySection(header);
        assert text + "" == text;
        return;
      }
      PushStr("  ");
      PushStr(header);
      PushStr("\n");
      ghost var head := text;
      EmptySection(header);
      ghost var done := "";
      assert lines[..0] == [] && head == old(text) + ("  " + header + "\n");
      var i := 0;
      while i < |lines|
        invariant 0 <= i <= |lines|
        invariant text == head + done && done == Unlines(lines[..i])
      {
        UnlinesSnoc(lines, i);
        PushStr(lines[i]);
        PushStr("\n");
        assert text == head + (done + lines[i] + "\n");
        done := done + lines[i] + "\n";
        i := i + 1;
      }
      assert lines[..i] == lines;
      SectionTextLines(header, lines);
      assert text == old(text) + ("  " + header + "\n" + done);
    }
  }

  lemma UnlinesSnoc(lines: seq<string>, i: nat)
    requires i < |lines|
    ensures Unlines(lines[..i + 1]) == Unlines(lines[..i]) + lines[i] + "\n"
  {
    assert lines[..i + 1] == lines[..i] + [lines[i]];
    UnlinesAppend(lines[..i], [lines[i]]);
    assert Unlines([lines[i]]) == lines[i] + "\n";
  }

  lemma EmptySection(header: string)
    ensures Unlines(SectionText(header, [])) == "" && Unlines([]) == ""
  {
  }

  lemma SectionTextLines(header: string, lines: seq<string>)
    requires lines != []
    ensures Unlines(SectionText(header, lines)) == "  " + header + "\n" + Unlines(lines)
  {
    assert SectionText(header, lines)[1..] == lines;
  }

  method LowerToAppArmor(rules: seq<Rule>, profileName: string)
    returns (text: string, warnings: seq<LoweringWarning>)
    ensures IsProfile(rules, profileName, text)
    ensures warnings == Warnings(rules, |rules|)
  {
    hide LowerRule, IsSortedSet, Unlines, ProfileLines, SectionText;
    warnings := [];
    var execs := new LineVec();
    var files := new LineVec();
    var nets := new LineVec();
    var i := 0;
    while i < |rules|
      invariant 0 <= i <= |rules|
      invariant warnings == Warnings(rules, i)
      invariant execs.items == SectionLines(rules, i, Executables)
      invariant files.items == SectionLines(rules, i, Files)
      invariant nets.items == SectionLines(rules, i, NetworkRules)
    {
      var l := LowerRule(rules[i]);
      if l.line.Some? {
        match l.section {
          case Executables => execs.Push(l.line.value);
          case Files => files.Push(l.line.value);
          case NetworkRules => nets.Push(l.line.value);
        }
      }
      if l.loss.Some? {
        warnings := warnings + [LoweringWarning(rules[i].id, l.loss.value)];
      }
      i := i + 1;
    }
    execs.DedupSort();
    files.DedupSort();
    nets.DedupSort();
    var out := new Output(Header(profileName) + "\n");
    out.PushSection("# executables", execs.items);
    out.PushSection("# files", files.items);
    out.PushSection("# network", nets.items);
    out.PushStr("}\n");
    text := out.text;
    ProfileIsUnlines(profileName, execs.items, files.items, nets.items);
  }

  lemma ProfileIsUnlines(name: string, execs: seq<string>, files: seq<string>, nets: seq<string>)
    ensures Unlines(ProfileLines(name, execs, files, nets)) ==
      Header(name) + "\n" + Unlines(SectionText("# executables", execs)) + Unlines(SectionText("# files", files))
      + Unlines(SectionText("# network", nets)) + "}\n"
  {
    hide Header, SectionText;
    var a, b, c := SectionText("# executables", execs), SectionText("# files", files), SectionText("# network", nets);
    UnlinesAppend([Header(name)] + a + b + c, ["}"]);
    UnlinesAppend([Header(name)] + a + b, c);
    UnlinesAppend([Header(name)] + a, b);
    UnlinesAppend([Header(name)], a);
    assert Unlines([Header(name)]) == Header(name) + "\n" && Unlines(["}"]) == "}\n";
  }

  /** The profile text is a function of the set of lowered lines. */
  lemma ProfileIgnoresOrder(a: seq<Rule>, b: seq<Rule>, name: string, textA: string, textB: string)
    requires IsProfile(a, name, textA) && IsProfile(b, name, textB)
    requires forall s :: Elements(SectionLines(a, |a|, s)) == Elements(SectionLines(b, |b|, s))
    ensures textA == textB
  {
    hide ProfileLines, Elements, SectionLines;
    var ea, fa, na :| IsSortedSet(ea, SectionLines(a, |a|, Executables)) && IsSortedSet(fa, SectionLines(a, |a|, Files))
      && IsSortedSet(na, SectionLines(a, |a|, NetworkRules)) && textA == Unlines(ProfileLines(name, ea, fa, na));
    var eb, fb, nb :| IsSortedSet(eb, SectionLines(b, |b|, Executables)) && IsSortedSet(fb, SectionLines(b, |b|, Files))
      && IsSortedSet(nb, SectionLines(b, |b|, NetworkRules)) && textB == Unlines(ProfileLines(name, eb, fb, nb));
    SortedSetUnique(ea, eb);
    SortedSetUnique(fa, fb);
    SortedSetUnique(na, nb);
  }

  /** No rule disappears silently: a rule is printed, or reported as dropped. */
  lemma PrintedOrReported(rules: seq<Rule>, i: nat)
    requires i < |rules|
    ensures var l := LowerRule(rules[i]);
      (l.line.None? <==> l.loss == Some(Dropped)) &&
      (l.loss.Some? ==> LoweringWarning(rules[i].id, l.loss.value) in Warnings(rules, |rules|)) &&
      (l.line.Some? ==> l.line.value in SectionLines(rules, |rules|, l.section))
  {
    hide LowerRule, Warnings, SectionLines;
    CollectedBy(rules, i, |rules|);
    DroppedIsUnprinted(rules[i]);
  }

  lemma DroppedIsUnprinted(rule: Rule)
    ensures LowerRule(rule).line.None? <==> LowerRule(rule).loss == Some(Dropped)
  {
    hide FileRuleLine, ExecRuleLine, NetRuleBody, NetConditional;
  }

  lemma {:induction false} CollectedBy(rules: seq<Rule>, i: nat, n: nat)
    requires i < n <= |rules|
    ensures var l := LowerRule(rules[i]);
      (l.loss.Some? ==> LoweringWarning(rules[i].id, l.loss.value) in Warnings(rules, n)) &&
      (l.line.Some? ==> l.line.value in SectionLines(rules, n, l.section))
  {
    hide LowerRule;
    if i < n - 1 { CollectedBy(rules, i, n - 1); }
  }

  lemma {:induction false} SectionLineSource(rules: seq<Rule>, n: nat, s: Section, line: string) returns (i: nat)
    requires n <= |rules| && line in SectionLines(rules, n, s)
    ensures i < n && LowerRule(rules[i]).line == Some(line) && LowerRule(rules[i]).section == s
  {
    hide LowerRule;
    if line in SectionLines(rules, n - 1, s) {
      i := SectionLineSource(rules, n - 1, s, line);
    } else {
      i := n - 1;
    }
  }
}
