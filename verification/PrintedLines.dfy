/** What the printed lines match: for every class the exact paths, for every rule its line and warning. */
module PrintedLines {
  import opened Strings
  import opened Text
  import opened PathPatterns
  import opened Ir
  import opened AppArmorPrinter
  import ClassifierAgreement
  import ClassMatching
  import RoundTrip
  import ParsedLines
  import AppArmorParser

  // ---- wildcards between literal texts ----

  ghost predicate OneLevel(root: string, path: string) { exists x :: '/' !in x && path == root + x }

  ghost predicate Below(root: string, path: string) {
    exists comp, rest :: '/' !in comp && path == root + (comp + "/" + rest)
  }

  ghost predicate InEach(root: string, name: string, path: string) {
    exists comp :: '/' !in comp && path == root + (comp + "/" + name)
  }

  ghost predicate InEachDir(root: string, dir: string, path: string) {
    exists comp, x :: '/' !in comp && '/' !in x && path == root + (comp + "/" + (dir + x))
  }

  lemma {:induction false} MatchDoubleStar(glob: string, path: string)
    ensures AareMatch("**" + glob, path) <==> exists k :: 0 <= k <= |path| && AareMatch(glob, path[k..])
    decreases |path|
  {
    var g := "**" + glob;
    assert g[0] == '*' && g[1] == '*' && g[2..] == glob && path[0..] == path;
    if path != "" {
      MatchDoubleStar(glob, path[1..]);
      forall k | 0 <= k < |path| ensures path[1..][k..] == path[k + 1..] {
      }
    }
    assert AareMatch(g, path) <==> AareMatch(glob, path) || (path != "" && AareMatch(g, path[1..]));
    if AareMatch(glob, path) {
      assert AareMatch(glob, path[0..]);
    }
    if path != "" && AareMatch(g, path[1..]) {
      var k :| 0 <= k <= |path[1..]| && AareMatch(glob, path[1..][k..]);
      assert path[1..][k..] == path[k + 1..];
    }
    if k :| 0 < k <= |path| && AareMatch(glob, path[k..]) {
      assert path[1..][k - 1..] == path[k..];
    }
  }

  lemma AnythingMatches(path: string)
    ensures AareMatch("**", path)
  {
    assert "**" + "" == "**";
    MatchDoubleStar("", path);
    assert path[|path|..] == "" && AareMatch("", path[|path|..]);
  }

  /** A component wildcard needs a slash. */
  lemma {:induction false} ComponentNeedsSlash(glob: string, path: string)
    requires '/' !in path
    ensures !AareMatch("*/" + glob, path)
    decreases |path|
  {
    var g := "*/" + glob;
    assert g[0] == '*' && g[1] == '/' && g[1..] == "/" + glob;
    if path != "" {
      ComponentNeedsSlash(glob, path[1..]);
      assert path[0] != '/';
    }
  }

  lemma MatchSomeComponent(glob: string, path: string)
    ensures AareMatch("*/" + glob, path) <==>
            exists comp, rest :: '/' !in comp && path == comp + "/" + rest && AareMatch(glob, rest)
  {
    hide AareMatch;
    var i := IndexOf(path, '/');
    if i == |path| {
      assert path == path[..i];
      ComponentNeedsSlash(glob, path);
      forall comp, rest ensures path != comp + "/" + rest {
        assert (comp + "/" + rest)[|comp|] == '/';
      }
    } else {
      assert path == path[..i] + "/" + path[i + 1..];
      ClassMatching.MatchComponent(path[..i], glob, path[i + 1..]);
      forall comp, rest | '/' !in comp && path == comp + "/" + rest && AareMatch(glob, rest)
        ensures AareMatch("*/" + glob, path)
      {
        ClassMatching.MatchComponent(comp, glob, rest);
      }
    }
  }

  // ---- the shapes of the class texts ----

  lemma RootThen(root: string, glob: string, path: string)
    requires ClassMatching.Literal(root)
    ensures AareMatch(root + glob, path) <==> root <= path && AareMatch(glob, path[|root|..])
    ensures root <= path ==> path == root + path[|root|..]
    ensures forall rest :: path == root + rest ==> root <= path && path[|root|..] == rest
  {
    ClassMatching.MatchLiteral(root, glob, path);
  }

  lemma OneLevelMatches(root: string, path: string)
    requires ClassMatching.Literal(root)
    ensures AareMatch(root + "*", path) <==> OneLevel(root, path)
  {
    hide AareMatch, ClassMatching.Literal;
    RootThen(root, "*", path);
    if root <= path {
      ClassMatching.MatchLastStar(path[|root|..]);
    }
  }

  lemma TreeMatches(root: string, path: string)
    requires ClassMatching.Literal(root)
    ensures AareMatch(root + "**", path) <==> root <= path
  {
    hide AareMatch, ClassMatching.Literal;
    RootThen(root, "**", path);
    if root <= path {
      AnythingMatches(path[|root|..]);
    }
  }

  /** `path` is the root, one component, a slash and `rest`. */
  predicate Through(root: string, comp: string, rest: string, path: string) {
    '/' !in comp && path == root + (comp + "/" + rest)
  }

  lemma ThroughRoot(root: string, comp: string, rest: string, path: string)
    requires Through(root, comp, rest, path)
    ensures root <= path && path[|root|..] == comp + "/" + rest
  {
  }

  /** Under a literal root, what a component and more match is told from the path after the root. */
  lemma UnderRoot(root: string, glob: string, path: string)
    requires ClassMatching.Literal(root)
    ensures AareMatch(root + ("*/" + glob), path) <==>
            exists comp, rest :: Through(root, comp, rest, path) && AareMatch(glob, rest)
  {
    hide AareMatch, ClassMatching.Literal;
    RootThen(root, "*/" + glob, path);
    if AareMatch(root + ("*/" + glob), path) {
      MatchSomeComponent(glob, path[|root|..]);
      var comp, rest :| '/' !in comp && path[|root|..] == comp + "/" + rest && AareMatch(glob, rest);
      assert Through(root, comp, rest, path);
    }
    forall comp, rest | Through(root, comp, rest, path) && AareMatch(glob, rest)
      ensures AareMatch(root + ("*/" + glob), path)
    {
      ThroughRoot(root, comp, rest, path);
      ClassMatching.MatchComponent(comp, glob, rest);
    }
  }

  lemma BelowMatches(root: string, path: string)
    requires ClassMatching.Literal(root)
    ensures AareMatch(root + "*/**", path) <==> Below(root, path)
  {
    hide AareMatch, ClassMatching.Literal;
    assert "*/" + "**" == "*/**";
    UnderRoot(root, "**", path);
    forall rest ensures AareMatch("**", rest) { AnythingMatches(rest); }
    if Below(root, path) {
      var comp, rest :| '/' !in comp && path == root + (comp + "/" + rest);
      assert Through(root, comp, rest, path);
    }
  }

  lemma InEachMatches(root: string, name: string, path: string)
    requires ClassMatching.Literal(root) && ClassMatching.Literal(name)
    ensures AareMatch(root + ("*/" + name), path) <==> InEach(root, name, path)
  {
    hide AareMatch, ClassMatching.Literal;
    UnderRoot(root, name, path);
    forall rest ensures AareMatch(name, rest) <==> rest == name { ClassMatching.MatchWhole(name, rest); }
    if InEach(root, name, path) {
      var comp :| '/' !in comp && path == root + (comp + "/" + name);
      assert Through(root, comp, name, path);
    }
  }

  lemma InEachDirMatches(root: string, dir: string, path: string)
    requires ClassMatching.Literal(root) && ClassMatching.Literal(dir)
    ensures AareMatch(root + ("*/" + (dir + "*")), path) <==> InEachDir(root, dir, path)
  {
    hide AareMatch, ClassMatching.Literal;
    UnderRoot(root, dir + "*", path);
    forall rest ensures AareMatch(dir + "*", rest) <==> OneLevel(dir, rest) { OneLevelMatches(dir, rest); }
    if InEachDir(root, dir, path) {
      var comp, x :| '/' !in comp && '/' !in x && path == root + (comp + "/" + (dir + x));
      assert Through(root, comp, dir + x, path);
    }
  }

  /** "/sys/fs/cgroup/", anything, a docker component, anything. */
  ghost predicate DockerBelow(root: string, path: string) { exists a, b :: path == root + (a + "/docker/" + b) }

  lemma DockerMatches(root: string, path: string)
    requires ClassMatching.Literal(root)
    ensures AareMatch(root + ("**" + "/docker/**"), path) <==> DockerBelow(root, path)
  {
    hide AareMatch, ClassMatching.Literal;
    RootThen(root, "**" + "/docker/**", path);
    assert "/docker/" + "**" == "/docker/**";
    DockerIsLiteral();
    if AareMatch(root + ("**" + "/docker/**"), path) {
      var rest := path[|root|..];
      MatchDoubleStar("/docker/**", rest);
      var k :| 0 <= k <= |rest| && AareMatch("/docker/**", rest[k..]);
      TreeMatches("/docker/", rest[k..]);
      assert rest == rest[..k] + "/docker/" + rest[k..][8..];
    }
    forall a, b | path == root + (a + "/docker/" + b) ensures AareMatch(root + ("**" + "/docker/**"), path) {
      var rest := path[|root|..];
      MatchDoubleStar("/docker/**", rest);
      assert rest[|a|..] == "/docker/" + b;
      TreeMatches("/docker/", rest[|a|..]);
    }
  }

  lemma DockerIsLiteral()
    ensures ClassMatching.Literal("/docker/")
  {
  }

  // ---- what each class's printed text matches ----

  ghost predicate ProcessMeant(c: PathPattern, path: string) {
    match c
    case ProcPidCmdline => InEach("/proc/", "cmdline", path)
    case ProcPidComm => InEach("/proc/", "comm", path)
    case ProcPidCwd => InEach("/proc/", "cwd", path)
    case ProcPidEnviron => InEach("/proc/", "environ", path)
    case ProcPidExe => InEach("/proc/", "exe", path)
    case ProcPidFd => InEachDir("/proc/", "fd/", path)
    case ProcPidMaps => InEach("/proc/", "maps", path)
    case ProcPidMem => InEach("/proc/", "mem", path)
    case ProcPidMountinfo => InEach("/proc/", "mountinfo", path)
    case ProcPidMounts => InEach("/proc/", "mounts", path)
    case ProcPidNet => InEachDir("/proc/", "net/", path)
    case ProcPidNs => InEachDir("/proc/", "ns/", path)
    case ProcPidRoot => InEach("/proc/", "root", path)
    case ProcPidStat => InEach("/proc/", "stat", path)
    case ProcPidStatus => InEach("/proc/", "status", path)
    case ProcPidTask => InEachDir("/proc/", "task/", path)
    case ProcPidCgroup => InEach("/proc/", "cgroup", path)
    case _ => Below("/proc/", path)
  }

  /** The paths a rule on the class stands for in a profile. */
  ghost predicate Meant(c: PathPattern, path: string) {
    match c
    case Regular => false
    case ProcSelf => OneLevel("/proc/self/", path)
    case ProcGlobal => OneLevel("/proc/", path)
    case ProcGlobalSys => "/proc/sys/" <= path
    case ProcGlobalNet => OneLevel("/proc/net/", path)
    case SysCgroupDocker => DockerBelow("/sys/fs/cgroup/", path)
    case SysCgroupOther => "/sys/fs/cgroup/" <= path
    case SysClassNet => OneLevel("/sys/class/net/", path)
    case SysOther => "/sys/" <= path
    case RunDocker => "/run/docker/" <= path
    case RunUser => Below("/run/user/", path)
    case RunOther => "/run/" <= path
    case DevPts => OneLevel("/dev/pts/", path)
    case DevShm => OneLevel("/dev/shm/", path)
    case DevOther => OneLevel("/dev/", path)
    case TmpRandom => Below("/tmp/tmp", path)
    case TmpOther => "/tmp/" <= path
    case _ => ProcessMeant(c, path)
  }


  predicate OneLevelClass(c: PathPattern) {
    c.ProcSelf? || c.ProcGlobalNet? || c.SysClassNet? || c.DevPts? || c.DevShm? || c.DevOther?
  }

  predicate TreeClass(c: PathPattern) {
    c.ProcGlobalSys? || c.SysCgroupOther? || c.SysOther? || c.RunDocker? || c.RunOther? || c.TmpOther?
  }

  lemma OneLevelTexts(c: PathPattern)
    requires OneLevelClass(c)
    ensures c.AsStr() == Root(c) + "*"
  {
  }

  lemma RootIsLiteral(c: PathPattern)
    ensures ClassMatching.Literal(Root(c))
  {
    hide PathPattern.AsStr, Root;
    RootIsGlobRoot(c);
    assert forall i :: 0 <= i < |Root(c)| ==> Root(c)[i] in Root(c);
  }

  lemma TreeTexts(c: PathPattern)
    requires TreeClass(c)
    ensures c.AsStr() == Root(c) + "**"
  {
  }

  lemma BelowTexts()
    ensures RunUser.AsStr() == "/run/user/" + "*/**" && TmpRandom.AsStr() == "/tmp/tmp" + "*/**"
    ensures ClassMatching.Literal("/run/user/") && ClassMatching.Literal("/tmp/tmp")
  {
  }

  lemma DockerText()
    ensures SysCgroupDocker.AsStr() == "/sys/fs/cgroup/" + ("**" + "/docker/**")
    ensures ClassMatching.Literal("/sys/fs/cgroup/")
  {
  }

  lemma ProcTexts()
    ensures "/proc/*" == "/proc/" + "*" && "/proc/*/**" == "/proc/" + "*/**"
    ensures ClassMatching.Literal("/proc/")
  {
  }

  lemma GlobIsText(c: PathPattern)
    requires c != Regular && c != ProcPidOther && c != ProcGlobal
    ensures FileGlob(Classified(c)) == Exact(c.AsStr())
  {
    hide PathPattern.AsStr;
  }

  lemma OneLevelMeant(c: PathPattern, path: string)
    requires OneLevelClass(c)
    ensures Meant(c, path) <==> OneLevel(Root(c), path)
  {
    hide OneLevel;
  }

  lemma TreeMeant(c: PathPattern, path: string)
    requires TreeClass(c)
    ensures Meant(c, path) <==> Root(c) <= path
  {
  }

  lemma FlatPrinted(c: PathPattern, path: string)
    requires OneLevelClass(c) || TreeClass(c)
    ensures FileGlob(Classified(c)).Exact? && (AareMatch(FileGlob(Classified(c)).glob, path) <==> Meant(c, path))
  {
    hide AareMatch, PathPattern.AsStr, ClassMatching.Literal, OneLevel, FileGlob, Meant, Root;
    GlobIsText(c);
    if OneLevelClass(c) {
      RootIsLiteral(c);
      OneLevelTexts(c);
      OneLevelMeant(c, path);
      OneLevelMatches(Root(c), path);
    } else {
      RootIsLiteral(c);
      TreeTexts(c);
      TreeMeant(c, path);
      TreeMatches(Root(c), path);
    }
  }

  lemma DeepPrinted(c: PathPattern, path: string)
    requires c.RunUser? || c.TmpRandom? || c.SysCgroupDocker?
    ensures FileGlob(Classified(c)).Exact? && (AareMatch(FileGlob(Classified(c)).glob, path) <==> Meant(c, path))
  {
    hide AareMatch, PathPattern.AsStr, ClassMatching.Literal, Below, DockerBelow, FileGlob;
    GlobIsText(c);
    if c.SysCgroupDocker? {
      DockerText();
      DockerMatches("/sys/fs/cgroup/", path);
    } else {
      BelowTexts();
      BelowMatches("/run/user/", path);
      BelowMatches("/tmp/tmp", path);
    }
  }

  lemma PlaceholderPrinted(c: PathPattern, path: string)
    requires c.ProcPidOther? || c.ProcGlobal?
    ensures FileGlob(Classified(c)).Approx? && (AareMatch(FileGlob(Classified(c)).glob, path) <==> Meant(c, path))
  {
    hide AareMatch, PathPattern.AsStr, ClassMatching.Literal, OneLevel, Below;
    ProcTexts();
    BelowMatches("/proc/", path);
    OneLevelMatches("/proc/", path);
  }

  lemma SingleMeant(c: PathPattern, path: string)
    requires ClassMatching.Single(c)
    ensures Meant(c, path) <==> InEach("/proc/", ClassifierAgreement.TailText(c), path)
  {
    hide InEach;
  }

  lemma OpenMeant(c: PathPattern, path: string)
    requires ClassifierAgreement.OpenEnded(c)
    ensures Meant(c, path) <==> InEachDir("/proc/", ClassifierAgreement.TailText(c), path)
  {
    hide InEachDir;
  }

  lemma ProcessPrinted(c: PathPattern, path: string)
    requires ClassifierAgreement.UnderPid(c) && c != ProcPidOther
    ensures FileGlob(Classified(c)).Exact? && (AareMatch(FileGlob(Classified(c)).glob, path) <==> Meant(c, path))
  {
    hide AareMatch, PathPattern.AsStr, ClassMatching.Literal, InEach, InEachDir, FileGlob, Meant, ClassifierAgreement.TailText,
      ClassMatching.TailGlob;
    GlobIsText(c);
    ClassMatching.TextOfClass(c);
    ClassMatching.TextsAreLiteral(c);
    ProcTexts();
    var text := ClassifierAgreement.TailText(c);
    if ClassifierAgreement.OpenEnded(c) {
      ClassMatching.OpenGlob(c);
      OpenMeant(c, path);
      InEachDirMatches("/proc/", text, path);
    } else {
      ClassMatching.SingleTexts(c);
      SingleMeant(c, path);
      InEachMatches("/proc/", text, path);
    }
  }

  /** What the profile grants for a rule on a class: the text printed for the class begins with the class's
      literal root, and matches exactly the paths of this table. */
  lemma PrintedClassMatches(c: PathPattern, path: string)
    requires c != Regular
    ensures !FileGlob(Classified(c)).Unmappable?
    ensures GlobRoot(FileGlob(Classified(c)).glob) == Root(c)
    ensures AareMatch(FileGlob(Classified(c)).glob, path) <==> Meant(c, path)
  {
    hide AareMatch, PathPattern.AsStr, FileGlob, Meant, Root;
    PrintedRoot(c);
    if OneLevelClass(c) || TreeClass(c) {
      FlatPrinted(c, path);
    } else if c.RunUser? || c.TmpRandom? || c.SysCgroupDocker? {
      DeepPrinted(c, path);
    } else if c.ProcPidOther? || c.ProcGlobal? {
      PlaceholderPrinted(c, path);
    } else {
      ProcessPrinted(c, path);
    }
  }

  lemma PrintedRoot(c: PathPattern)
    requires c != Regular
    ensures !FileGlob(Classified(c)).Unmappable? && GlobRoot(FileGlob(Classified(c)).glob) == Root(c)
  {
    hide PathPattern.AsStr, GlobRoot;
    if c == ProcPidOther || c == ProcGlobal {
      GlobRootUnique("/proc/*/**", "/proc/");
      GlobRootUnique("/proc/*", "/proc/");
    } else {
      GlobIsText(c);
      RootIsGlobRoot(c);
    }
  }

  // ---- lines of the profile ----

  /** The text has the line, up to its newline. */
  ghost predicate HasLine(text: string, line: string) { exists before, after :: text == before + (line + "\n" + after) }

  lemma LineOfUnlines(lines: seq<string>, line: string)
    requires line in lines
    ensures HasLine(Unlines(lines), line)
  {
    hide Unlines;
    var i :| 0 <= i < |lines| && lines[i] == line;
    assert lines == lines[..i] + ([line] + lines[i + 1..]);
    UnlinesAppend(lines[..i], [line] + lines[i + 1..]);
    UnlinesAppend([line], lines[i + 1..]);
    assert Unlines([line]) == line + "\n" by { OneLine(line); }
    assert Unlines(lines) == Unlines(lines[..i]) + (line + "\n" + Unlines(lines[i + 1..]));
  }

  lemma OneLine(line: string)
    ensures Unlines([line]) == line + "\n"
  {
  }

  /** Whatever a rule is lowered to is a line of the profile. */
  lemma RuleLineIsPrinted(rules: seq<Rule>, i: nat, name: string, text: string)
    requires IsProfile(rules, name, text) && i < |rules| && LowerRule(rules[i]).line.Some?
    ensures HasLine(text, LowerRule(rules[i]).line.value)
  {
    hide LowerRule, SectionLines, IsSortedSet, HasLine, Unlines;
    var execs, files, nets :| IsSortedSet(execs, SectionLines(rules, |rules|, Executables))
      && IsSortedSet(files, SectionLines(rules, |rules|, Files))
      && IsSortedSet(nets, SectionLines(rules, |rules|, NetworkRules))
      && text == Unlines(ProfileLines(name, execs, files, nets));
    RoundTrip.ProfileLinesAre(rules, name, execs, files, nets);
    assert rules[i] in rules;
    LineOfUnlines(ProfileLines(name, execs, files, nets), LowerRule(rules[i]).line.value);
  }

  predicate FileAction(a: Action) { a == FileOpen || a == FileRead || a == FileWrite }

  /** A rule on a class has a line in the profile, with the class's permission and verdict, whose glob
      grants exactly the paths the class stands for. */
  lemma ClassLineGrants(rules: seq<Rule>, i: nat, c: PathPattern, name: string, text: string)
    requires IsProfile(rules, name, text) && i < |rules| && c != Regular
    requires rules[i].obj.File? && rules[i].obj.file.pattern == Classified(c) && FileAction(rules[i].action)
    ensures exists glob ::
      && HasLine(text, "  " + ((if rules[i].verdict == Deny then "deny " else "") +
                               (QuoteIfNeeded(glob) + " " + (if rules[i].action == FileWrite then "w" else "r"))) + ",")
      && GlobRoot(glob) == Root(c)
      && forall path :: AareMatch(glob, path) <==> Meant(c, path)
  {
    hide AareMatch, Meant, HasLine, IsProfile, FileGlob, Root, GlobRoot, QuoteIfNeeded;
    PrintedClassMatches(c, "");
    var glob := FileGlob(Classified(c)).glob;
    RuleLineIsPrinted(rules, i, name, text);
    forall path ensures AareMatch(glob, path) <==> Meant(c, path) { PrintedClassMatches(c, path); }
  }

  function DenyPart(v: Verdict): string { if v == Deny then "deny " else "" }

  /** The path as a profile writes it: in quotes if it has white space. */
  function Written(path: string): string { if HasWs(path) then "\"" + path + "\"" else path }

  /** The lines of the other rules: an exact path as it is, a prefix with two stars, an executable with the
      permission to run it under this profile. */
  lemma PlainLinesAre(r: Rule)
    ensures r.obj.File? && FileAction(r.action) && r.obj.file.pattern.ExactPath? ==>
              LowerRule(r).line == Some("  " + (DenyPart(r.verdict) + (Written(r.obj.file.pattern.path) + " "
                                        + (if r.action == FileWrite then "w" else "r"))) + ",")
    ensures r.obj.File? && FileAction(r.action) && r.obj.file.pattern.Prefix? ==>
              LowerRule(r).line == Some("  " + (DenyPart(r.verdict) + (Written(r.obj.file.pattern.prefix + "**") + " "
                                        + (if r.action == FileWrite then "w" else "r"))) + ",")
    ensures ExecPrinted(r) ==>
              LowerRule(r).line == Some("  " + (DenyPart(r.verdict) + (Written(r.obj.process.binary.path) + " " + "ix")) + ",")
  {
    hide HasWs, NetRuleBody, NetConditional, PathPattern.AsStr;
  }

  // ---- warnings ----

  predicate FilePrinted(r: Rule) { r.obj.File? && FileAction(r.action) && r.obj.file.pattern != Classified(Regular) }

  predicate ExecPrinted(r: Rule) { r.obj.Process? && r.action == ProcExec && r.obj.process.binary.BinaryPath? }

  predicate NetPrinted(r: Rule) { r.obj.Network? && (r.action == NetConnect || r.action == NetBind) }

  /** Which rules are dropped, which are approximated, and which need network mediation. */
  lemma WarnedExactlyWhen(r: Rule)
    ensures LowerRule(r).loss == Some(Dropped) <==> !FilePrinted(r) && !ExecPrinted(r) && !NetPrinted(r)
    ensures LowerRule(r).loss == Some(Approximated) <==>
            FilePrinted(r) && (r.obj.file.pattern == Classified(ProcPidOther) || r.obj.file.pattern == Classified(ProcGlobal))
    ensures LowerRule(r).loss == Some(AbiGated) <==> NetPrinted(r) && (r.obj.net.dstIp.Some? || r.obj.net.dstPort.Some?)
    ensures FilePrinted(r) ==> LowerRule(r).line.Some? && LowerRule(r).section == Files
    ensures ExecPrinted(r) ==> LowerRule(r).line.Some? && LowerRule(r).section == Executables
    ensures NetPrinted(r) ==> LowerRule(r).line.Some? && LowerRule(r).section == NetworkRules
  {
    hide PathPattern.AsStr, FileRuleLine, ExecRuleLine, NetRuleBody, NetConditional;
    if NetPrinted(r) {
      ConditionalIsEmpty(r.obj.net, r.action == NetConnect);
    }
  }

  lemma ConditionalIsEmpty(n: NetworkObject, isPeer: bool)
    ensures NetConditional(n, isPeer) == "" <==> n.dstIp.None? && n.dstPort.None?
  {
    hide Ipv4Dotted, Dec;
    var ip := if n.dstIp.Some? then ["ip=" + Ipv4Dotted(n.dstIp.value)] else [];
    var port := if n.dstPort.Some? then ["port=" + Dec(n.dstPort.value)] else [];
    if ip + port != [] {
      assert (ip + port)[0] != "" && Join(ip + port, ' ') != "";
    }
  }

  /** Warnings come in rule order, one for each rule that loses something. */
  lemma {:induction false} WarningsInOrder(rules: seq<Rule>, n: nat, i: nat)
    requires i < n <= |rules|
    ensures var loss, k := LowerRule(rules[i]).loss, |Warnings(rules, i)|;
      && Warnings(rules, i) <= Warnings(rules, n)
      && (loss.Some? ==> k < |Warnings(rules, n)| && Warnings(rules, n)[k] == LoweringWarning(rules[i].id, loss.value))
      && |Warnings(rules, i + 1)| == k + if loss.Some? then 1 else 0
  {
    hide LowerRule;
    if i < n - 1 {
      WarningsInOrder(rules, n - 1, i);
    }
  }

  // ---- the whole text ----

  /** The profile, spelled out: header, then each non-empty section under its title, then the brace. */
  lemma ProfileSpelled(name: string, execs: seq<string>, files: seq<string>, nets: seq<string>)
    ensures Unlines(ProfileLines(name, execs, files, nets)) ==
            "profile " + name + " flags=(" + "attach_disconnected,mediate_deleted" + ") {\n"
            + (if execs == [] then "" else "  # executables\n" + Unlines(execs))
            + (if files == [] then "" else "  # files\n" + Unlines(files))
            + (if nets == [] then "" else "  # network\n" + Unlines(nets)) + "}\n"
  {
    hide Unlines, Header, SectionText, ProfileLines;
    ProfileIsUnlines(name, execs, files, nets);
    HeaderSpelled(name);
    TitlesSpelled();
    TitleSpelled("# executables", "  # executables\n", execs);
    TitleSpelled("# files", "  # files\n", files);
    TitleSpelled("# network", "  # network\n", nets);
  }

  lemma TitlesSpelled()
    ensures "  " + "# executables" + "\n" == "  # executables\n"
    ensures "  " + "# files" + "\n" == "  # files\n" && "  " + "# network" + "\n" == "  # network\n"
  {
  }

  lemma FlagsSpelled()
    ensures "attach_disconnected" + "," + "mediate_deleted" == "attach_disconnected,mediate_deleted"
    ensures ") {" + "\n" == ") {\n"
  {
  }

  lemma HeaderSpelled(name: string)
    ensures Header(name) + "\n" == "profile " + name + " flags=(" + "attach_disconnected,mediate_deleted" + ") {\n"
  {
    var a, c, b, flags, end, head := "attach_disconnected", ",", "mediate_deleted", " flags=(", ") {", "profile " + name;
    FlagsSpelled();
    FlagsRegroup(head, flags, a + c + b, end);
    FlagsJoin(flags, a, c, b, end);
  }

  lemma FlagsJoin(flags: string, a: string, c: string, b: string, end: string)
    ensures flags + a + c + b + end == flags + (a + c + b) + end
  {
  }

  lemma FlagsRegroup(head: string, flags: string, options: string, end: string)
    ensures head + (flags + options + end) + "\n" == head + flags + options + (end + "\n")
  {
  }

  lemma TitleSpelled(header: string, title: string, lines: seq<string>)
    requires title == "  " + header + "\n"
    ensures Unlines(SectionText(header, lines)) == if lines == [] then "" else title + Unlines(lines)
  {
    EmptySection(header);
    if lines != [] {
      SectionTextLines(header, lines);
    }
  }

  /** An audited rule is printed as an allowing one, and nothing is reported lost. */
  lemma AuditPrintsAsAllow(r: Rule)
    ensures LowerRule(r.(verdict := Audit)) == LowerRule(r.(verdict := Allow))
  {
    hide FileGlob, NetRuleBody, NetConditional, QuoteIfNeeded;
    assert DenyWord(Audit) == DenyWord(Allow);
  }

  // ---- hand-written wildcards read as prefixes ----

  predicate Covered(p: FilePattern, path: string) { p.Prefix? && p.prefix <= path }

  lemma StarsMatch(d: string, path: string)
    requires ClassMatching.Literal(d)
    ensures AareMatch(d + "**", path) <==> d <= path
    ensures AareMatch(d + "/*", path) <==> OneLevel(d + "/", path)
  {
    hide AareMatch, OneLevel;
    TreeMatches(d, path);
    assert ClassMatching.Literal(d + "/") by { LiteralDir(d); }
    OneLevelMatches(d + "/", path);
    assert (d + "/") + "*" == d + "/*";
  }

  lemma LiteralDir(d: string)
    requires ClassMatching.Literal(d)
    ensures ClassMatching.Literal(d + "/")
  {
  }

  lemma OneLevelIs(root: string, path: string)
    ensures OneLevel(root, path) <==> root <= path && '/' !in path[|root|..]
  {
    if OneLevel(root, path) {
      var x :| '/' !in x && path == root + x;
      assert path[|root|..] == x;
    }
    if root <= path {
      assert path == root + path[|root|..];
    }
  }

  /** A wildcard that is no class's text is read as its directory's prefix. That is wider than a star for
      the entries of the directory exactly on what lies deeper, and narrower than a double star exactly on
      what begins with its text without going into a directory of that name. */
  lemma WildcardReadExactlyWhen(d: string, path: string)
    requires ClassMatching.Literal(d) && (d == "" || d[|d| - 1] != '/')
    requires !RoundTrip.IsClassText(d + "**") && !RoundTrip.IsClassText(d + "/*")
    ensures Covered(AppArmorParser.GlobToPattern(d + "/*"), path) != AareMatch(d + "/*", path) <==>
            d + "/" <= path && '/' in path[|d| + 1..]
    ensures Covered(AppArmorParser.GlobToPattern(d + "**"), path) != AareMatch(d + "**", path) <==>
            d <= path && !(d + "/" <= path)
  {
    hide AareMatch, OneLevel, ClassMatching.Literal, RoundTrip.IsClassText, AppArmorParser.GlobToPattern;
    ParsedLines.WildcardIsPrefix(d);
    StarsMatch(d, path);
    OneLevelIs(d + "/", path);
    assert d + "/" <= path ==> d <= path by { ShorterStart(d, path); }
  }

  lemma ShorterStart(d: string, path: string)
    ensures d + "/" <= path ==> d <= path
  {
  }
}
