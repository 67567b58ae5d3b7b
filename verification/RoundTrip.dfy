/** Parsing a printed profile gives back the rules that were printed. */
module RoundTrip {
  import opened Strings
  import opened Text
  import opened PathPatterns
  import opened Ir
  import opened AppArmorPrinter
  import opened AppArmorParser

  // ---- class texts are distinct ----

  /** The class a wildcard text belongs to, told from its length and a few characters. */
  function ClassOfText(s: string): PathPattern
    requires |s| >= 6
  {
    if |s| == 6 then DevOther
    else if |s| == 7 then (if s[1] == 's' then SysOther else if s[1] == 'r' then RunOther else TmpOther)
    else if |s| <= 9 then Regular
    else if |s| == 10 then (if s[5] == 'p' then DevPts else DevShm)
    else if |s| == 11 then
      (if s[8] == 'c' then ProcPidCwd else if s[8] == 'e' then ProcPidExe
       else if s[8] == 'm' then ProcPidMem else ProcGlobalNet)
    else if |s| == 12 then
      (if s[6] == 's' then (if s[7] == 'e' then ProcSelf else ProcGlobalSys)
       else if s[8] == 'c' then ProcPidComm else if s[8] == 'f' then ProcPidFd
       else if s[8] == 'm' then ProcPidMaps else if s[8] == 'n' then ProcPidNs
       else if s[8] == 'r' then ProcPidRoot else if s[8] == 's' then ProcPidStat else TmpRandom)
    else if |s| == 13 then ProcPidNet
    else if |s| == 14 then
      (if s[8] == 'm' then ProcPidMounts else if s[8] == 's' then ProcPidStatus
       else if s[8] == 't' then ProcPidTask else if s[8] == 'c' then ProcPidCgroup
       else if s[8] == 'k' then RunDocker else if s[8] == 'r' then RunUser else ProcGlobal)
    else if |s| == 15 then
      (if s[8] == 'c' then ProcPidCmdline else if s[8] == 'e' then ProcPidEnviron else ProcPidOther)
    else if |s| == 16 then SysClassNet
    else if |s| == 17 then (if s[1] == 'p' then ProcPidMountinfo else SysCgroupOther)
    else SysCgroupDocker
  }

  lemma ClassOfProcText(c: PathPattern)
    requires Root(c) == "/proc/"
    ensures |c.AsStr()| >= 6 && ClassOfText(c.AsStr()) == c
  {
  }

  lemma ClassOfOtherText(c: PathPattern)
    requires Root(c) != "/proc/"
    ensures |c.AsStr()| >= 6 && ClassOfText(c.AsStr()) == c
  {
  }

  lemma ClassOfItsText(c: PathPattern)
    ensures |c.AsStr()| >= 6 && ClassOfText(c.AsStr()) == c
  {
    hide PathPattern.AsStr, ClassOfText, Root;
    if Root(c) == "/proc/" { ClassOfProcText(c); } else { ClassOfOtherText(c); }
  }

  /** No two classes share a wildcard text. */
  lemma ClassTextsDistinct(a: PathPattern, b: PathPattern)
    requires a.AsStr() == b.AsStr()
    ensures a == b
  {
    hide PathPattern.AsStr, ClassOfText;
    ClassOfItsText(a);
    ClassOfItsText(b);
  }

  lemma {:induction false} FirstWithTextFinds(patterns: seq<PathPattern>, c: PathPattern)
    requires c in patterns
    ensures FirstWithText(patterns, c.AsStr()) == Some(c)
  {
    hide PathPattern.AsStr;
    if patterns[0].AsStr() == c.AsStr() {
      ClassTextsDistinct(patterns[0], c);
    } else {
      FirstWithTextFinds(patterns[1..], c);
    }
  }

  predicate Placeholder(c: PathPattern) { c == Regular || c == ProcPidOther || c == ProcGlobal }

  predicate PidNameToM(c: PathPattern) {
    c == ProcPidCmdline || c == ProcPidComm || c == ProcPidCwd || c == ProcPidEnviron || c == ProcPidExe
    || c == ProcPidFd || c == ProcPidMaps || c == ProcPidMem
  }

  predicate PidNameFromM(c: PathPattern) {
    c == ProcPidMountinfo || c == ProcPidMounts || c == ProcPidNet || c == ProcPidNs || c == ProcPidRoot
    || c == ProcPidStat || c == ProcPidStatus || c == ProcPidTask || c == ProcPidCgroup
  }

  predicate UnderPid(c: PathPattern) { PidNameToM(c) || PidNameFromM(c) }

  lemma KnownPatternsToM(c: PathPattern)
    requires PidNameToM(c)
    ensures c in KNOWN_PATTERNS
  {
    match c
    case ProcPidCmdline => assert KNOWN_PATTERNS[0] == c;
    case ProcPidComm => assert KNOWN_PATTERNS[1] == c;
    case ProcPidCwd => assert KNOWN_PATTERNS[2] == c;
    case ProcPidEnviron => assert KNOWN_PATTERNS[3] == c;
    case ProcPidExe => assert KNOWN_PATTERNS[4] == c;
    case ProcPidFd => assert KNOWN_PATTERNS[5] == c;
    case ProcPidMaps => assert KNOWN_PATTERNS[6] == c;
    case ProcPidMem => assert KNOWN_PATTERNS[7] == c;
  }

  lemma KnownPatternsFromM(c: PathPattern)
    requires PidNameFromM(c)
    ensures c in KNOWN_PATTERNS
  {
    match c
    case ProcPidMountinfo => assert KNOWN_PATTERNS[8] == c;
    case ProcPidMounts => assert KNOWN_PATTERNS[9] == c;
    case ProcPidNet => assert KNOWN_PATTERNS[10] == c;
    case ProcPidNs => assert KNOWN_PATTERNS[11] == c;
    case ProcPidRoot => assert KNOWN_PATTERNS[12] == c;
    case ProcPidStat => assert KNOWN_PATTERNS[13] == c;
    case ProcPidStatus => assert KNOWN_PATTERNS[14] == c;
    case ProcPidTask => assert KNOWN_PATTERNS[15] == c;
    case ProcPidCgroup => assert KNOWN_PATTERNS[16] == c;
  }

  lemma KnownOtherPatterns(c: PathPattern)
    requires !UnderPid(c) && !Placeholder(c)
    ensures c in KNOWN_PATTERNS
  {
    match c
    case ProcSelf => assert KNOWN_PATTERNS[17] == c;
    case ProcGlobalSys => assert KNOWN_PATTERNS[18] == c;
    case ProcGlobalNet => assert KNOWN_PATTERNS[19] == c;
    case SysCgroupDocker => assert KNOWN_PATTERNS[20] == c;
    case SysCgroupOther => assert KNOWN_PATTERNS[21] == c;
    case SysClassNet => assert KNOWN_PATTERNS[22] == c;
    case SysOther => assert KNOWN_PATTERNS[23] == c;
    case RunDocker => assert KNOWN_PATTERNS[24] == c;
    case RunUser => assert KNOWN_PATTERNS[25] == c;
    case RunOther => assert KNOWN_PATTERNS[26] == c;
    case DevPts => assert KNOWN_PATTERNS[27] == c;
    case DevShm => assert KNOWN_PATTERNS[28] == c;
    case DevOther => assert KNOWN_PATTERNS[29] == c;
    case TmpRandom => assert KNOWN_PATTERNS[30] == c;
    case TmpOther => assert KNOWN_PATTERNS[31] == c;
  }

  lemma KnownPatternsComplete(c: PathPattern)
    requires !Placeholder(c)
    ensures c in KNOWN_PATTERNS
  {
    if PidNameToM(c) { KnownPatternsToM(c); } else if PidNameFromM(c) { KnownPatternsFromM(c); } else { KnownOtherPatterns(c); }
  }

  // ---- the expressible fragment ----

  /** An absolute path that survives one line of text: no newline, and no quote when it needs quoting. */
  predicate Printable(p: string) { "/" <= p && '\n' !in p && (HasWs(p) ==> '"' !in p) }

  /** The wildcard text of a class the printer and the parser know. */
  ghost predicate IsClassText(p: string) { exists c :: IsTextOf(p, c) }

  predicate IsTextOf(p: string, c: PathPattern) { !Placeholder(c) && c.AsStr() == p }

  /** Neither a class text nor a text ending like a directory wildcard. */
  ghost predicate NotAGlob(p: string) { !IsClassText(p) && !EndsWith(p, "**") && !EndsWith(p, "/*") }

  predicate WritablePattern(p: FilePattern) {
    match p
    case ExactPath(path) => Printable(path)
    case Prefix(d) => Printable(d) && EndsWith(d, "/")
    case Classified(c) => !Placeholder(c)
  }

  /** A rule the profile has a line for. */
  predicate Writable(r: Rule) {
    && (r.verdict == Allow || r.verdict == Deny)
    && match r.obj
       case File(f) => r.action in {FileOpen, FileRead, FileWrite} && WritablePattern(f.pattern)
       case Process(p) => r.action == ProcExec && p.binary.BinaryPath? && Printable(p.binary.path)
       case Network(n) => r.action == NetConnect && n.direction == Some(1) && n.protocol in {Some(6), Some(17)}
  }

  /** The rule is not about an exact path that reads as a wildcard. */
  ghost predicate StarFree(r: Rule) { r.obj.File? && r.obj.file.pattern.ExactPath? ==> NotAGlob(r.obj.file.pattern.path) }

  ghost predicate Expressible(r: Rule) { Writable(r) && StarFree(r) }

  /** A directory prefix and the class with the same wildcard text are one pattern. */
  function NormPattern(p: FilePattern): FilePattern {
    if p.Prefix? && FirstWithText(KNOWN_PATTERNS, p.prefix + "**").Some? then
      Classified(FirstWithText(KNOWN_PATTERNS, p.prefix + "**").value)
    else p
  }

  function ItemOf(r: Rule, pattern: FilePattern): Item {
    if r.obj.File? then
      Item(File(FileObject(pattern, false)), if r.action == FileWrite then FileWrite else FileRead, r.verdict)
    else Item(r.obj, r.action, r.verdict)
  }

  function PatternOf(r: Rule): FilePattern { if r.obj.File? then r.obj.file.pattern else Classified(Regular) }

  /** What survives of a rule: object without sensitivity, opens read as reads, and the verdict. */
  function Norm(r: Rule): Item { ItemOf(r, NormPattern(PatternOf(r))) }

  /** What an exact path becomes: the class of that text, else the directory before its star, else itself. */
  ghost function RereadPath(path: string): FilePattern {
    if IsClassText(path) then
      var c :| IsTextOf(path, c);
      Classified(c)
    else if EndsWith(path, "**") || EndsWith(path, "/*") then Prefix(EnsureTrailingSlash(path[..|path| - 2]))
    else ExactPath(path)
  }

  ghost function RereadPattern(p: FilePattern): FilePattern {
    if p.ExactPath? then RereadPath(p.path) else NormPattern(p)
  }

  /** What a printed rule is read back as. */
  ghost function Reread(r: Rule): Item { ItemOf(r, RereadPattern(PatternOf(r))) }

  // ---- one line ----

  /** The part of a line after indentation and `deny`: something the preamble filters leave alone. */
  predicate Body(b: string) {
    Solid(b) && |b| >= 2 && b[|b| - 1] != ',' && (b[0] == '/' || b[0] == '"' || "network" <= b)
  }

  lemma TrimEndCommaOnce(x: string)
    requires x != "" && x[|x| - 1] != ','
    ensures TrimEndOf(x + ",", ",") == x
  {
    assert (x + ",")[..|x|] == x;
  }

  lemma NotSkipped(x: string)
    requires |x| >= 2 && (x[0] == '/' || x[0] == '"' || x[0] == 'n' || x[0] == 'd')
    ensures !IsSkipped(x + ",")
  {
    assert (x + ",")[0] == x[0];
  }

  lemma VerdictSplits(v: Verdict, b: string)
    requires Body(b) && (v == Allow || v == Deny)
    ensures SplitVerdict(DenyWord(v) + b) == (v, b)
  {
    TrimSolid(b);
    if v == Deny {
      assert ("deny " + b)[5..] == b;
    } else {
      assert "" + b == b;
    }
  }

  lemma BodyIsBare(b: string)
    requires Body(b)
    ensures Stripped(b) == b
  {
    TrimSolid(b);
  }

  lemma LineOfBody(v: Verdict, b: string)
    requires Body(b) && (v == Allow || v == Deny)
    ensures LineItems("  " + (DenyWord(v) + b) + ",") == RuleItems(v, b)
  {
    hide RuleItems, SplitVerdict, IsSkipped, Stripped, TrimEndOf, Trim;
    var x := DenyWord(v) + b;
    assert Solid(x) && x[|x| - 1] == b[|b| - 1];
    assert "  " + x + "," == "  " + (x + ",");
    TrimIndented(x + ",");
    NotSkipped(x);
    TrimEndCommaOnce(x);
    TrimSolid(x);
    VerdictSplits(v, b);
    BodyIsBare(b);
  }

  // ---- file and exec lines ----

  predicate Perms(p: string) { p == "r" || p == "w" || p == "ix" }

  lemma OneSpace(path: string, perms: string)
    requires !HasWs(path) && Perms(perms)
    ensures var line := path + " " + perms;
      FirstWs(line) == |path| && LastWs(line) == |path| && line[..|path|] == path && line[|path| + 1..] == perms
  {
    var line := path + " " + perms;
    assert forall k :: 0 <= k < |path| ==> line[k] == path[k];
    assert line[|path|] == ' ';
    assert forall k :: |path| < k < |line| ==> line[k] == perms[k - |path| - 1];
  }

  lemma UnquotedSplits(path: string, perms: string)
    requires "/" <= path && !HasWs(path) && Perms(perms)
    ensures SplitPathPerms(path + " " + perms) == PathPerms.PathPerms(path, perms)
  {
    hide FirstWs, LastWs, Trim;
    OneSpace(path, perms);
    assert (path + " " + perms)[0] == '/';
    assert path[0] == '/' && !IsPermToken(path);
    TrimSolid(path);
    TrimSolid(perms);
  }

  lemma QuotedSplits(path: string, perms: string)
    requires '"' !in path && Perms(perms)
    ensures SplitPathPerms("\"" + path + "\"" + " " + perms) == PathPerms.PathPerms(path, perms)
  {
    hide Trim, FirstWs, LastWs;
    var line := "\"" + path + "\"" + " " + perms;
    var rest := line[1..];
    assert rest == path + "\"" + " " + perms;
    assert rest[..|path|] == path && rest[|path|] == '"';
    IndexOfUnique(rest, '"', |path|);
    assert rest[|path| + 1..] == " " + perms;
    TrimIndented(perms);
  }

  lemma PathBody(path: string, perms: string)
    requires Printable(path) && Perms(perms)
    ensures Body(QuoteIfNeeded(path) + " " + perms)
    ensures forall v :: RuleItems(v, QuoteIfNeeded(path) + " " + perms) == Some(FileItems(v, path, perms))
  {
    hide SplitPathPerms, FileItems, NetworkOf;
    if HasWs(path) { QuotedSplits(path, perms); } else { UnquotedSplits(path, perms); }
    var b := QuoteIfNeeded(path) + " " + perms;
    assert b[0] == '/' || b[0] == '"';
    assert b[|b| - 1] == perms[|perms| - 1];
    assert !("network" <= b);
  }

  lemma {:induction false} FirstWithTextIs(patterns: seq<PathPattern>, glob: string)
    ensures var f := FirstWithText(patterns, glob); f.Some? ==> f.value in patterns && f.value.AsStr() == glob
  {
    hide PathPattern.AsStr;
    if patterns != [] {
      FirstWithTextIs(patterns[1..], glob);
    }
  }

  lemma KnownAreNoPlaceholders(c: PathPattern)
    requires c in KNOWN_PATTERNS
    ensures !Placeholder(c)
  {
  }

  /** The parser's table finds a class exactly for class texts, and the right one. */
  lemma TableFinds(glob: string, c: PathPattern)
    ensures FirstWithText(KNOWN_PATTERNS, glob) == Some(c) <==> IsTextOf(glob, c)
  {
    hide PathPattern.AsStr, FirstWithText;
    FirstWithTextIs(KNOWN_PATTERNS, glob);
    if IsTextOf(glob, c) {
      KnownPatternsComplete(c);
      FirstWithTextFinds(KNOWN_PATTERNS, c);
    }
    if FirstWithText(KNOWN_PATTERNS, glob) == Some(c) {
      KnownAreNoPlaceholders(c);
    }
  }

  lemma ExactGlob(path: string)
    ensures GlobToPattern(path) == RereadPath(path)
  {
    hide PathPattern.AsStr, FirstWithText, IsTextOf;
    if IsClassText(path) {
      var c :| IsTextOf(path, c) && RereadPath(path) == Classified(c);
      TableFinds(path, c);
    } else {
      forall c ensures FirstWithText(KNOWN_PATTERNS, path) != Some(c) { TableFinds(path, c); }
    }
  }

  lemma GlobOfWritable(p: FilePattern)
    requires WritablePattern(p)
    ensures FileGlob(p).Exact? && Printable(FileGlob(p).glob) && GlobToPattern(FileGlob(p).glob) == RereadPattern(p)
  {
    hide IsClassText;
    match p
    case ExactPath(path) => ExactGlob(path);
    case Prefix(d) => PrefixGlob(d);
    case Classified(c) => ClassGlob(c);
  }

  lemma PrefixGlob(d: string)
    requires Printable(d) && EndsWith(d, "/")
    ensures Printable(d + "**") && GlobToPattern(d + "**") == NormPattern(Prefix(d))
  {
    hide FirstWithText;
    var g := d + "**";
    assert forall i :: 0 <= i < |d| ==> g[i] == d[i];
    assert g[|d|] == '*' && g[|d| + 1] == '*';
    assert HasWs(g) ==> HasWs(d);
    assert g[|g| - 2..] == "**" && g[..|g| - 2] == d;
    assert d[|d| - 1..] == "/" && d[|d| - 1] == '/';
  }

  lemma ClassGlob(c: PathPattern)
    requires !Placeholder(c)
    ensures FileGlob(Classified(c)) == Exact(c.AsStr())
    ensures Printable(c.AsStr()) && GlobToPattern(c.AsStr()) == Classified(c)
  {
    hide FirstWithText;
    KnownPatternsComplete(c);
    FirstWithTextFinds(KNOWN_PATTERNS, c);
    ClassTextIsPrintable(c);
  }

  predicate NoQuoteNoNewline(s: string) { forall i :: 0 <= i < |s| ==> s[i] != '\n' && s[i] != '"' }

  predicate UnderSys(c: PathPattern) {
    c == SysCgroupOther || c == SysClassNet || c == SysOther
    || c == ProcSelf || c == ProcGlobalSys || c == ProcGlobalNet
  }

  lemma TextToMIsPlain(c: PathPattern)
    requires PidNameToM(c)
    ensures "/" <= c.AsStr() && NoQuoteNoNewline(c.AsStr())
  {
  }

  lemma TextFromMIsPlain(c: PathPattern)
    requires PidNameFromM(c)
    ensures "/" <= c.AsStr() && NoQuoteNoNewline(c.AsStr())
  {
  }

  lemma SysTextIsPlain(c: PathPattern)
    requires UnderSys(c)
    ensures "/" <= c.AsStr() && NoQuoteNoNewline(c.AsStr())
  {
  }

  predicate UnderRun(c: PathPattern) { c == RunDocker || c == RunUser || c == RunOther || c == SysCgroupDocker }

  lemma RunTextIsPlain(c: PathPattern)
    requires UnderRun(c)
    ensures "/" <= c.AsStr() && NoQuoteNoNewline(c.AsStr())
  {
  }

  predicate UnderDevOrTmp(c: PathPattern) {
    c == DevPts || c == DevShm || c == DevOther || c == TmpRandom || c == TmpOther
  }

  lemma DevTextIsPlain(c: PathPattern)
    requires UnderDevOrTmp(c)
    ensures "/" <= c.AsStr() && NoQuoteNoNewline(c.AsStr())
  {
  }

  lemma ClassTextIsPrintable(c: PathPattern)
    requires !Placeholder(c)
    ensures Printable(c.AsStr())
  {
    hide PathPattern.AsStr;
    if PidNameToM(c) { TextToMIsPlain(c); }
    else if PidNameFromM(c) { TextFromMIsPlain(c); }
    else if UnderSys(c) { SysTextIsPlain(c); }
    else if UnderRun(c) { RunTextIsPlain(c); }
    else { DevTextIsPlain(c); }
  }

  lemma FileLineRoundTrips(r: Rule)
    requires Writable(r) && r.obj.File?
    ensures LowerRule(r).line.Some? && LineItems(LowerRule(r).line.value) == Some([Reread(r)])
  {
    hide RuleItems, LineItems, FileGlob, GlobToPattern, RereadPattern, Printable, WritablePattern, Body;
    var p := r.obj.file.pattern;
    GlobOfWritable(p);
    var glob := FileGlob(p).glob;
    var perms := if r.action == FileWrite then "w" else "r";
    PathBody(glob, perms);
    LineOfBody(r.verdict, QuoteIfNeeded(glob) + " " + perms);
    assert FileItems(r.verdict, glob, perms) == [Reread(r)];
  }

  lemma ExecLineRoundTrips(r: Rule)
    requires Writable(r) && r.obj.Process?
    ensures LowerRule(r).line.Some? && LineItems(LowerRule(r).line.value) == Some([Reread(r)])
  {
    hide RuleItems, LineItems, Printable, Body;
    var path := r.obj.process.binary.path;
    PathBody(path, "ix");
    LineOfBody(r.verdict, QuoteIfNeeded(path) + " " + "ix");
    assert FileItems(r.verdict, path, "ix") == [Reread(r)];
  }

  // ---- network lines ----

  /** Text of an endpoint: no blanks beyond the one joining its two parts, no parenthesis, no newline. */
  predicate Token(s: string) {
    s != "" && !HasWs(s) && '\n' !in s && ')' !in s && IsDigitChar(s[|s| - 1])
  }

  lemma DecIsToken(n: nat)
    ensures Token(Dec(n)) && '.' !in Dec(n) && '-' !in Dec(n)
  {
    var d := Dec(n);
    assert forall i :: 0 <= i < |d| ==> IsDigitChar(d[i]);
  }

  lemma TokenAppend(a: string, b: string)
    requires !HasWs(a) && '\n' !in a && ')' !in a && Token(b)
    ensures Token(a + b)
  {
    assert forall i :: 0 <= i < |a| ==> (a + b)[i] == a[i];
    assert forall i :: 0 <= i < |b| ==> (a + b)[|a| + i] == b[i];
  }

  lemma DotJoin(a: string, b: string)
    requires Token(a) && Token(b)
    ensures Token(a + "." + b)
  {
    DotKeepsPlain(a);
    TokenAppend(a + ".", b);
  }

  lemma DottedIsToken(ip: u32)
    ensures Token(Ipv4Dotted(ip))
  {
    hide Token, Dec;
    var a, b, c, d := Dec(ip % 0x100), Dec(ip / 0x100 % 0x100), Dec(ip / 0x1_0000 % 0x100), Dec(ip / 0x100_0000);
    DecIsToken(ip % 0x100);
    DecIsToken(ip / 0x100 % 0x100);
    DecIsToken(ip / 0x1_0000 % 0x100);
    DecIsToken(ip / 0x100_0000);
    DotJoin(a, b);
    DotJoin(a + "." + b, c);
    DotJoin(a + "." + b + "." + c, d);
  }

  lemma DotKeepsPlain(a: string)
    requires Token(a)
    ensures !HasWs(a + ".") && '\n' !in a + "." && ')' !in a + "."
  {
    assert forall i :: 0 <= i < |a| ==> (a + ".")[i] == a[i];
  }

  lemma SplitDec(n: nat)
    ensures Split(Dec(n), '.') == [Dec(n)]
  {
    DecIsToken(n);
    IndexOfUnique(Dec(n), '.', |Dec(n)|);
  }

  lemma DottedSplits(ip: u32)
    ensures Split(Ipv4Dotted(ip), '.') ==
      [Dec(ip % 0x100), Dec(ip / 0x100 % 0x100), Dec(ip / 0x1_0000 % 0x100), Dec(ip / 0x100_0000)]
  {
    hide Split, Dec;
    var a, b, c, d := Dec(ip % 0x100), Dec(ip / 0x100 % 0x100), Dec(ip / 0x1_0000 % 0x100), Dec(ip / 0x100_0000);
    SplitDec(ip % 0x100);
    SplitDec(ip / 0x100 % 0x100);
    SplitDec(ip / 0x1_0000 % 0x100);
    SplitDec(ip / 0x100_0000);
    SplitAppend(a + "." + b + "." + c, d, '.');
    SplitAppend(a + "." + b, c, '.');
    SplitAppend(a, b, '.');
    assert ['.'] == ".";
  }

  lemma OctetsRebuild(ip: u32)
    ensures FromOctets([ip % 0x100, ip / 0x100 % 0x100, ip / 0x1_0000 % 0x100, ip / 0x100_0000]) == ip
  {
    var q, r := ip / 0x100, ip / 0x1_0000;
    assert r == q / 0x100 && ip / 0x100_0000 == r / 0x100;
    assert ip == q * 0x100 + ip % 0x100 && q == r * 0x100 + q % 0x100 && r == r / 0x100 * 0x100 + r % 0x100;
  }

  /** Dotted-quad text reads back as the same address, for every 32-bit value. */
  lemma Ipv4RoundTrips(ip: u32)
    ensures ParseIpv4(Ipv4Dotted(ip)) == Some(ip)
  {
    hide Ipv4Dotted, Split, ParseUInt, Dec, FromOctets;
    var o := [ip % 0x100, ip / 0x100 % 0x100, ip / 0x1_0000 % 0x100, ip / 0x100_0000];
    DottedSplits(ip);
    ParseOfDec(o[0], 0xFF);
    ParseOfDec(o[1], 0xFF);
    ParseOfDec(o[2], 0xFF);
    ParseOfDec(o[3], 0xFF);
    OctetsRoundTrip([Dec(o[0]), Dec(o[1]), Dec(o[2]), Dec(o[3])], o);
    OctetsRebuild(ip);
  }

  lemma {:induction false} OctetsRoundTrip(parts: seq<string>, o: seq<nat>)
    requires |parts| == |o| && forall i :: 0 <= i < |o| ==> ParseUInt(parts[i], 0xFF) == Some(o[i]) && o[i] < 0x100
    ensures ParseOctets(parts) == Some(o)
  {
    if parts != [] {
      OctetsRoundTrip(parts[1..], o[1..]);
      assert o == [o[0]] + o[1..];
    }
  }

  lemma PortRoundTrips(port: u32)
    ensures ParsePort(Dec(port)) == Some(port)
  {
    var d := Dec(port);
    DecIsToken(port);
    assert d[..|d|] == d;
    IndexOfUnique(d, '-', |d|);
    ParseOfDec(port, U32_MAX);
  }

  lemma TrimEndOfDigit(s: string, set_: string)
    requires s != "" && IsDigitChar(s[|s| - 1]) && forall c :: c in set_ ==> !IsDigitChar(c)
    ensures TrimEndOf(s, set_) == s
  {
  }

  lemma IpWord(e: Endpoint, ip: u32)
    ensures EndpointStep(e, "ip=" + Ipv4Dotted(ip)) == e.(ip := Some(ip))
  {
    hide Ipv4Dotted, ParseIpv4;
    var w := "ip=" + Ipv4Dotted(ip);
    DottedIsToken(ip);
    TrimEndOfDigit(w, ",)");
    assert w[3..] == Ipv4Dotted(ip);
    Ipv4RoundTrips(ip);
  }

  lemma PortWord(e: Endpoint, port: u32)
    ensures EndpointStep(e, "port=" + Dec(port)) == e.(port := Some(port))
  {
    hide Dec, ParsePort;
    var w := "port=" + Dec(port);
    DecIsToken(port);
    TrimEndOfDigit(w, ",)");
    assert w[0] == 'p' && w[5..] == Dec(port);
    PortRoundTrips(port);
  }

  function IpText(n: NetworkObject): seq<string> { if n.dstIp.Some? then ["ip=" + Ipv4Dotted(n.dstIp.value)] else [] }

  function PortText(n: NetworkObject): seq<string> { if n.dstPort.Some? then ["port=" + Dec(n.dstPort.value)] else [] }

  function Parts(n: NetworkObject): seq<string> { IpText(n) + PortText(n) }

  lemma PartsAreTokens(n: NetworkObject)
    ensures |Parts(n)| <= 2 && forall i :: 0 <= i < |Parts(n)| ==> Token(Parts(n)[i])
  {
    hide Ipv4Dotted, Dec;
    if n.dstIp.Some? {
      DottedIsToken(n.dstIp.value);
      TokenAppend("ip=", Ipv4Dotted(n.dstIp.value));
    }
    if n.dstPort.Some? {
      DecIsToken(n.dstPort.value);
      TokenAppend("port=", Dec(n.dstPort.value));
    }
  }

  /** The words of the endpoint text give the endpoint back. */
  lemma PartsRoundTrip(n: NetworkObject)
    ensures EndpointOf(Endpoint(None, None), Parts(n)) == Endpoint(n.dstIp, n.dstPort)
  {
    hide Ipv4Dotted, Dec, EndpointStep;
    var none, mid := Endpoint(None, None), Endpoint(n.dstIp, None);
    assert EndpointOf(mid, PortText(n)) == Endpoint(n.dstIp, n.dstPort) by {
      if n.dstPort.Some? {
        PortWord(mid, n.dstPort.value);
        assert PortText(n)[1..] == [];
        assert EndpointOf(Endpoint(n.dstIp, n.dstPort), []) == Endpoint(n.dstIp, n.dstPort);
      }
    }
    if n.dstIp.Some? {
      IpWord(none, n.dstIp.value);
      assert Parts(n)[1..] == PortText(n);
    } else {
      assert Parts(n) == PortText(n);
    }
  }

  lemma JoinedWords(parts: seq<string>)
    requires 1 <= |parts| <= 2 && forall i :: 0 <= i < |parts| ==> Token(parts[i])
    ensures Words(Join(parts, ' ')) == parts && ')' !in Join(parts, ' ') && '\n' !in Join(parts, ' ')
  {
    hide Words, HasWs;
    if |parts| == 1 {
      WordsOfWord(parts[0]);
      assert parts == [parts[0]];
    } else {
      assert parts[1..] == [parts[1]] && Join([parts[1]], ' ') == parts[1];
      assert Join(parts, ' ') == parts[0] + " " + parts[1];
      WordsCons(parts[0], parts[1]);
      WordsOfWord(parts[1]);
      assert parts == [parts[0], parts[1]];
    }
  }

  /** Words that begin with 'p' never name a protocol. */
  lemma {:induction false} ProtocolSkips(p: Option<u8>, words: seq<string>)
    requires forall i :: 0 <= i < |words| ==> words[i] != "" && words[i][0] == 'p'
    ensures ProtocolOf(p, words) == p
    decreases |words|
  {
    if words != [] {
      TrimEndKeepsHead(words[0], ",");
      ProtocolSkips(p, words[1..]);
    }
  }

  lemma TrimEndKeepsHead(s: string, set_: string)
    ensures TrimEndOf(s, set_) == "" || TrimEndOf(s, set_)[0] == s[0]
  {
  }

  lemma PeerWords(parts: seq<string>)
    requires 1 <= |parts| <= 2 && forall i :: 0 <= i < |parts| ==> Token(parts[i])
    requires |parts| == 2 ==> parts[1] != "" && parts[1][0] == 'p'
    ensures var words := Words("peer=(" + Join(parts, ' ') + ")");
      forall i :: 0 <= i < |words| ==> words[i] != "" && words[i][0] == 'p'
  {
    var a := "peer=(" + parts[0];
    if |parts| == 1 {
      assert "peer=(" + Join(parts, ' ') + ")" == a + ")";
      assert !HasWs(a + ")") by { WrapKeepsSpaceFree(parts[0]); }
      WordsOfWord(a + ")");
    } else {
      assert parts[1..] == [parts[1]];
      assert "peer=(" + Join(parts, ' ') + ")" == a + " " + (parts[1] + ")");
      assert !HasWs(a) && !HasWs(parts[1] + ")") by { WrapKeepsSpaceFree(parts[0]); WrapKeepsSpaceFree(parts[1]); }
      WordsCons(a, parts[1] + ")");
      WordsOfWord(parts[1] + ")");
    }
  }

  lemma WrapKeepsSpaceFree(s: string)
    requires !HasWs(s)
    ensures !HasWs("peer=(" + s) && !HasWs(s + ")") && !HasWs("peer=(" + s + ")")
  {
    var h, t, b := "peer=(" + s, s + ")", "peer=(" + s + ")";
    assert forall i :: 6 <= i < |h| ==> h[i] == s[i - 6];
    assert forall i :: 0 <= i < |s| ==> t[i] == s[i];
    assert forall i :: 6 <= i < |h| ==> b[i] == s[i - 6];
  }

  predicate Socket(st: string) { st == "stream" || st == "dgram" }

  lemma SocketIsWord(st: string)
    requires Socket(st)
    ensures st != "" && !HasWs(st) && !HasWs("inet") && 'p' !in st && st[0] != 'i' && st[0] != 'p'
  {
  }

  lemma SocketWords(st: string, tail: string)
    requires Socket(st)
    ensures Words(" inet " + st + " " + tail) == ["inet", st] + Words(tail)
    ensures Words(" inet " + st) == ["inet", st]
  {
    hide Words, Socket, HasWs;
    SocketIsWord(st);
    assert " inet " + st + " " + tail == " " + ("inet" + " " + (st + " " + tail));
    assert " inet " + st == " " + ("inet" + " " + st);
    WordsSkip("inet" + " " + (st + " " + tail));
    WordsSkip("inet" + " " + st);
    WordsCons("inet", st + " " + tail);
    WordsCons("inet", st);
    WordsCons(st, tail);
    WordsOfWord(st);
    assert ["inet"] + ([st] + Words(tail)) == ["inet", st] + Words(tail);
  }

  lemma SocketProtocol(st: string, more: seq<string>)
    requires Socket(st)
    ensures ProtocolOf(None, ["inet", st] + more) == ProtocolOf(Some(if st == "dgram" then 17 else 6), more)
  {
    var words := ["inet", st] + more;
    assert words[1..] == [st] + more && words[1..][1..] == more;
    assert ProtocolStep(None, "inet") == None;
  }

  lemma PeerExtracted(st: string, inner: string)
    requires Socket(st) && ')' !in inner
    ensures ExtractPeer(" inet " + st + " " + ("peer=(" + inner + ")")) == Some(inner)
  {
    var head := " inet " + st + " ";
    var s := " inet " + st + " " + ("peer=(" + inner + ")");
    assert 'p' !in head;
    assert s == head + "peer=(" + (inner + ")");
    FindAfter(head, "peer=(", inner + ")");
    var rest := s[|head| + 6..];
    assert rest == inner + ")" && rest[..|inner|] == inner;
    IndexOfUnique(rest, ')', |inner|);
  }

  lemma PlainWord(e: Endpoint, w: string)
    requires w == "inet" || Socket(w)
    ensures EndpointStep(e, w) == e
  {
    assert TrimEndOf(w, ",)") == w;
    assert w[0] == 's' || w[0] == 'd' || (w[0] == 'i' && w[1] == 'n');
  }

  lemma NoPeerExtracted(st: string)
    requires Socket(st)
    ensures ExtractPeer(" inet " + st) == None
  {
    hide Socket, HasWs, Find;
    SocketIsWord(st);
    assert 'p' !in " inet " + st;
    FindNowhere(" inet " + st, "peer=(");
  }

  lemma NoEndpoint(st: string)
    requires Socket(st)
    ensures EndpointOf(Endpoint(None, None), ["inet", st]) == Endpoint(None, None)
  {
    hide Socket, EndpointStep;
    var none := Endpoint(None, None);
    PlainWord(none, "inet");
    PlainWord(none, st);
    assert ["inet", st][1..] == [st] && [st][1..] == [];
    assert EndpointOf(none, []) == none;
    assert EndpointOf(none, [st]) == none;
  }

  lemma ProtocolKept(n: NetworkObject, more: seq<string>)
    requires n.protocol in {Some(6), Some(17)}
    requires forall i :: 0 <= i < |more| ==> more[i] != "" && more[i][0] == 'p'
    ensures Socket(SocketType(n)) && ProtocolOf(None, ["inet", SocketType(n)] + more) == n.protocol
  {
    hide ProtocolOf;
    SocketProtocol(SocketType(n), more);
    ProtocolSkips(n.protocol, more);
  }

  /** What follows "network" in a printed rule reads back as the same endpoint. */
  lemma NetworkRoundTrips(n: NetworkObject)
    requires n.direction == Some(1) && n.protocol in {Some(6), Some(17)}
    ensures var cond := NetConditional(n, true);
      NetworkOf(" inet " + SocketType(n) + (if cond == "" then "" else " " + cond)) == n
  {
    hide Words, EndpointOf, ProtocolOf, ExtractPeer, Ipv4Dotted, Dec, Token, SocketType, Socket;
    var st, parts := SocketType(n), Parts(n);
    PartsAreTokens(n);
    PartsRoundTrip(n);
    ProtocolKept(n, []);
    if parts == [] {
      assert NetConditional(n, true) == "" && " inet " + st + "" == " inet " + st;
      SocketWords(st, "");
      assert ["inet", st] + [] == ["inet", st];
      NoPeerExtracted(st);
      NoEndpoint(st);
    } else {
      var inner := Join(parts, ' ');
      assert NetConditional(n, true) == "peer=(" + inner + ")";
      JoinedWords(parts);
      PeerExtracted(st, inner);
      SocketWords(st, "peer=(" + inner + ")");
      PeerWords(parts);
      ProtocolKept(n, Words("peer=(" + inner + ")"));
      assert " inet " + st + (" " + ("peer=(" + inner + ")")) == " inet " + st + " " + ("peer=(" + inner + ")");
    }
  }

  lemma CondFacts(n: NetworkObject)
    ensures var cond := NetConditional(n, true);
      '\n' !in cond && (cond != "" ==> |cond| > 7 && cond[|cond| - 1] == ')')
  {
    hide Ipv4Dotted, Dec, Token, Words;
    PartsAreTokens(n);
    if Parts(n) != [] {
      JoinedWords(Parts(n));
      assert NetConditional(n, true) == "peer=(" + Join(Parts(n), ' ') + ")";
    }
  }

  lemma NetBodyFacts(n: NetworkObject)
    requires n.protocol in {Some(6), Some(17)}
    ensures Body(NetRuleBody(n, true)) && '\n' !in NetRuleBody(n, true)
  {
    hide NetConditional;
    CondFacts(n);
    var cond := NetConditional(n, true);
    var tail := " inet " + SocketType(n) + (if cond == "" then "" else " " + cond);
    var b := NetRuleBody(n, true);
    assert b == "network" + tail && "network" <= b;
    assert b[0] == 'n' && b[|b| - 1] == tail[|tail| - 1];
    assert tail[|tail| - 1] == (if cond == "" then SocketType(n)[|SocketType(n)| - 1] else ')');
  }

  lemma NetLineRoundTrips(r: Rule)
    requires Writable(r) && r.obj.Network?
    ensures LowerRule(r).line.Some? && LineItems(LowerRule(r).line.value) == Some([Reread(r)])
  {
    hide LineItems, NetworkOf, NetConditional, Body;
    var n := r.obj.net;
    var b := NetRuleBody(n, true);
    NetBodyFacts(n);
    LineOfBody(r.verdict, b);
    NetworkRoundTrips(n);
    var cond := NetConditional(n, true);
    assert b[7..] == " inet " + SocketType(n) + (if cond == "" then "" else " " + cond);
  }

  // ---- the whole profile ----

  lemma RuleLineRoundTrips(r: Rule)
    requires Writable(r)
    ensures LowerRule(r).line.Some? && LineItems(LowerRule(r).line.value) == Some([Reread(r)])
    ensures IsLine(LowerRule(r).line.value)
  {
    hide LineItems, LowerRule, Reread;
    RuleLineIsLine(r);
    match r.obj
    case File(_) => FileLineRoundTrips(r);
    case Process(_) => ExecLineRoundTrips(r);
    case Network(_) => NetLineRoundTrips(r);
  }

  lemma WrapIsLine(v: Verdict, b: string)
    requires '\n' !in b
    ensures IsLine("  " + (DenyWord(v) + b) + ",")
  {
  }

  lemma QuotedHasNoNewline(path: string, perms: string)
    requires Printable(path) && Perms(perms)
    ensures '\n' !in QuoteIfNeeded(path) + " " + perms
  {
  }

  lemma RuleLineIsLine(r: Rule)
    requires Writable(r)
    ensures LowerRule(r).line.Some? && IsLine(LowerRule(r).line.value)
  {
    hide IsLine, FileGlob, WritablePattern, NetRuleBody, Body, GlobToPattern, NormPattern;
    match r.obj
    case File(f) =>
      GlobOfWritable(f.pattern);
      var perms := if r.action == FileWrite then "w" else "r";
      QuotedHasNoNewline(FileGlob(f.pattern).glob, perms);
      WrapIsLine(r.verdict, QuoteIfNeeded(FileGlob(f.pattern).glob) + " " + perms);
    case Process(p) =>
      QuotedHasNoNewline(p.binary.path, "ix");
      WrapIsLine(r.verdict, QuoteIfNeeded(p.binary.path) + " " + "ix");
    case Network(n) =>
      NetBodyFacts(n);
      WrapIsLine(r.verdict, NetRuleBody(n, true));
  }

  lemma HeaderTailIsOneLine()
    ensures '\n' !in " flags=(" + "attach_disconnected" + "," + "mediate_deleted" + ") {"
  {
    assert '\n' !in "attach_disconnected" && '\n' !in "mediate_deleted";
  }

  /** Lines the printer adds around the rules: each is skipped by the parser. */
  lemma HeaderSkipped(name: string)
    requires '\n' !in name
    ensures IsLine(Header(name)) && LineItems(Header(name)) == Some([])
  {
    var h := Header(name);
    HeaderTailIsOneLine();
    assert '\n' !in "profile ";
    var tail := " flags=(" + "attach_disconnected" + "," + "mediate_deleted" + ") {";
    assert h == "profile " + name + tail && tail[|tail| - 1] == '{';
    assert h[0] == 'p' && h[|h| - 1] == '{';
    TrimSolid(h);
    assert "profile" <= h;
  }

  predicate FixedLine(l: string) {
    l == "  # executables" || l == "  # files" || l == "  # network" || l == "}"
  }

  lemma CommentSkipped(x: string)
    requires Solid(x) && x[0] == '#' && '\n' !in x && x[|x| - 1] != '\r'
    ensures IsLine("  " + x) && LineItems("  " + x) == Some([])
  {
    hide Trim, SplitVerdict, RuleItems, TrimEndOf, Stripped;
    TrimIndented(x);
    assert ("  " + x)[|x| + 1] == x[|x| - 1];
  }

  lemma BraceSkipped()
    ensures IsLine("}") && LineItems("}") == Some([])
  {
    hide SplitVerdict, RuleItems, TrimEndOf, Stripped;
    TrimSolid("}");
  }

  lemma HeadingSkipped(x: string)
    requires x == "# executables" || x == "# files" || x == "# network"
    ensures IsLine("  " + x) && LineItems("  " + x) == Some([])
  {
    hide LineItems, IsLine;
    CommentSkipped(x);
  }

  lemma FixedLineSkipped(l: string)
    requires FixedLine(l)
    ensures IsLine(l) && LineItems(l) == Some([])
  {
    hide LineItems, IsLine;
    if l == "}" {
      BraceSkipped();
    } else {
      var x := l[2..];
      assert x == "# executables" || x == "# files" || x == "# network";
      assert l == "  " + x;
      HeadingSkipped(x);
    }
  }

  /** Reading a list of lines collects exactly what the lines say. */
  lemma {:induction false} ItemsOfLines(lines: seq<string>)
    requires forall i :: 0 <= i < |lines| ==> LineItems(lines[i]).Some?
    ensures AllItems(lines).Some?
    ensures forall x :: x in AllItems(lines).value <==> exists i :: 0 <= i < |lines| && x in LineItems(lines[i]).value
  {
    hide LineItems;
    if lines != [] {
      var init := lines[..|lines| - 1];
      assert forall i :: 0 <= i < |init| ==> init[i] == lines[i];
      ItemsOfLines(init);
    }
  }

  predicate AllWritable(rules: seq<Rule>) { forall r :: r in rules ==> Writable(r) }

  /** Every line of the profile is one line of text, and it is skipped or is some rule's line. */
  ghost predicate ProfileLine(rules: seq<Rule>, name: string, l: string) {
    || l == Header(name)
    || FixedLine(l)
    || exists r :: r in rules && LowerRule(r).line == Some(l)
  }

  lemma ProfileLinesAre(rules: seq<Rule>, name: string, execs: seq<string>, files: seq<string>, nets: seq<string>)
    requires IsSortedSet(execs, SectionLines(rules, |rules|, Executables))
    requires IsSortedSet(files, SectionLines(rules, |rules|, Files))
    requires IsSortedSet(nets, SectionLines(rules, |rules|, NetworkRules))
    ensures var lines := ProfileLines(name, execs, files, nets);
      && (forall l :: l in lines ==> ProfileLine(rules, name, l))
      && (forall r :: r in rules && LowerRule(r).line.Some? ==> LowerRule(r).line.value in lines)
  {
    hide LowerRule, SectionLines, Header, IsSortedSet, ProfileLines, FixedLine;
    var lines := ProfileLines(name, execs, files, nets);
    LinesInProfile(name, execs, files, nets);
    forall l | l in lines ensures ProfileLine(rules, name, l) {
      if l in execs {
        RuleLineSource(rules, Executables, execs, l);
      } else if l in files {
        RuleLineSource(rules, Files, files, l);
      } else if l in nets {
        RuleLineSource(rules, NetworkRules, nets, l);
      }
    }
    forall r | r in rules && LowerRule(r).line.Some? ensures LowerRule(r).line.value in lines {
      var i :| 0 <= i < |rules| && rules[i] == r;
      CollectedBy(rules, i, |rules|);
      var l := LowerRule(r).line.value;
      var section := LowerRule(r).section;
      assert section == Executables || section == Files || section == NetworkRules;
      InSorted(execs, SectionLines(rules, |rules|, Executables), l);
      InSorted(files, SectionLines(rules, |rules|, Files), l);
      InSorted(nets, SectionLines(rules, |rules|, NetworkRules), l);
    }
  }

  lemma LinesInProfile(name: string, execs: seq<string>, files: seq<string>, nets: seq<string>)
    ensures forall l :: l in ProfileLines(name, execs, files, nets) ==>
      l == Header(name) || FixedLine(l) || l in execs || l in files || l in nets
    ensures forall l :: l in execs || l in files || l in nets ==> l in ProfileLines(name, execs, files, nets)
  {
    hide Header;
    var a, b, c := SectionText("# executables", execs), SectionText("# files", files), SectionText("# network", nets);
    assert "  " + "# executables" == "  # executables" && "  " + "# files" == "  # files"
      && "  " + "# network" == "  # network";
    SectionMembers("# executables", execs);
    SectionMembers("# files", files);
    SectionMembers("# network", nets);
  }

  lemma SectionMembers(header: string, lines: seq<string>)
    ensures forall l :: l in SectionText(header, lines) ==> l == "  " + header || l in lines
    ensures forall l :: l in lines ==> l in SectionText(header, lines)
  {
  }

  lemma InSorted(r: seq<string>, v: seq<string>, l: string)
    requires IsSortedSet(r, v)
    ensures l in r <==> l in v
  {
    hide StrictlySorted;
    assert l in Elements(r) <==> l in Elements(v);
  }

  lemma RuleLineSource(rules: seq<Rule>, s: Section, sorted: seq<string>, l: string)
    requires IsSortedSet(sorted, SectionLines(rules, |rules|, s)) && l in sorted
    ensures exists r :: r in rules && LowerRule(r).line == Some(l)
  {
    hide LowerRule, IsSortedSet, SectionLines;
    InSorted(sorted, SectionLines(rules, |rules|, s), l);
    var i := SectionLineSource(rules, |rules|, s, l);
    assert rules[i] in rules;
  }

  lemma ProfileLineReads(rules: seq<Rule>, name: string, l: string)
    requires AllWritable(rules) && '\n' !in name && ProfileLine(rules, name, l)
    ensures IsLine(l) && LineItems(l).Some?
    ensures forall x :: x in LineItems(l).value ==> exists r :: r in rules && x == Reread(r)
  {
    hide LineItems, LowerRule, Reread, Writable, Header, IsLine, FixedLine;
    if l == Header(name) {
      HeaderSkipped(name);
    } else if FixedLine(l) {
      FixedLineSkipped(l);
    } else {
      var r :| r in rules && LowerRule(r).line == Some(l);
      RuleLineRoundTrips(r);
    }
  }

  ghost function Rereads(rules: seq<Rule>): set<Item> { set r | r in rules :: Reread(r) }

  function Norms(rules: seq<Rule>): set<Item> { set r | r in rules :: Norm(r) }

  /** Printing writable rules and parsing the profile gives exactly what their lines are read back as. */
  lemma ProfileRereads(rules: seq<Rule>, name: string, text: string)
    requires IsProfile(rules, name, text) && AllWritable(rules) && '\n' !in name
    ensures AllItems(Lines(text)).Some?
    ensures (set x | x in AllItems(Lines(text)).value) == Rereads(rules)
  {
    hide LineItems, LowerRule, Reread, Writable, IsLine, ProfileLines, SectionLines, IsSortedSet, AllItems, ProfileLine;
    var execs, files, nets :| IsSortedSet(execs, SectionLines(rules, |rules|, Executables))
      && IsSortedSet(files, SectionLines(rules, |rules|, Files))
      && IsSortedSet(nets, SectionLines(rules, |rules|, NetworkRules))
      && text == Unlines(ProfileLines(name, execs, files, nets));
    var lines := ProfileLines(name, execs, files, nets);
    ProfileLinesAre(rules, name, execs, files, nets);
    forall i | 0 <= i < |lines| ensures IsLine(lines[i]) && LineItems(lines[i]).Some? {
      ProfileLineReads(rules, name, lines[i]);
    }
    LinesOfUnlines(lines);
    ItemsOfLines(lines);
    forall x | x in AllItems(lines).value ensures x in Rereads(rules) {
      var i :| 0 <= i < |lines| && x in LineItems(lines[i]).value;
      ProfileLineReads(rules, name, lines[i]);
    }
    forall r | r in rules ensures Reread(r) in AllItems(lines).value {
      RuleLineRoundTrips(r);
      var i :| 0 <= i < |lines| && lines[i] == LowerRule(r).line.value;
    }
  }

  // ---- exactly which rules come back ----

  lemma RereadIsNorm(r: Rule)
    ensures Reread(r) == Norm(r) <==> StarFree(r)
  {
    hide IsClassText;
  }

  /** A printed rule comes back as itself if and only if it is not about an exact path that is a class
      text or ends like a directory wildcard; such a path comes back as that class, or as the directory
      before its star. */
  lemma LineRoundTripsExactlyWhen(r: Rule)
    requires Writable(r)
    ensures LowerRule(r).line.Some?
    ensures LineItems(LowerRule(r).line.value) == Some([Norm(r)]) <==> StarFree(r)
    ensures LineItems(LowerRule(r).line.value) == Some([Reread(r)])
  {
    hide LineItems, LowerRule, Reread, Norm;
    RuleLineRoundTrips(r);
    RereadIsNorm(r);
  }

  /** What is read back is never an exact path that reads as a wildcard. */
  lemma RereadsAreStarFree(r: Rule, q: Rule)
    requires !StarFree(q)
    ensures Reread(r) != Norm(q)
  {
    hide IsClassText;
    if r.obj.File? && r.obj.file.pattern.ExactPath? && NotAGlob(r.obj.file.pattern.path) {
      assert RereadPath(r.obj.file.pattern.path) == ExactPath(r.obj.file.pattern.path);
    }
  }

  /** A profile of writable rules comes back with exactly the same rules if and only if none of them is
      about an exact path that reads as a wildcard. */
  lemma ProfileRoundTripsExactlyWhen(rules: seq<Rule>, name: string, text: string)
    requires IsProfile(rules, name, text) && AllWritable(rules) && '\n' !in name
    ensures AllItems(Lines(text)).Some?
    ensures (set x | x in AllItems(Lines(text)).value) == Norms(rules) <==> forall r :: r in rules ==> StarFree(r)
  {
    hide IsProfile, AllItems, Reread, Norm, StarFree, Writable;
    ProfileRereads(rules, name, text);
    if q :| q in rules && !StarFree(q) {
      forall r | r in rules ensures Reread(r) != Norm(q) { RereadsAreStarFree(r, q); }
      assert Norm(q) in Norms(rules) && Norm(q) !in Rereads(rules);
    } else {
      forall r | r in rules ensures Reread(r) == Norm(r) { RereadIsNorm(r); }
      assert Rereads(rules) == Norms(rules);
    }
  }

  ghost predicate AllExpressible(rules: seq<Rule>) { forall r :: r in rules ==> Expressible(r) }

  /** Printing expressible rules and parsing the profile gives exactly the same rules: same objects,
      actions and verdicts, none lost and none invented. */
  lemma ProfileRoundTrips(rules: seq<Rule>, name: string, text: string)
    requires IsProfile(rules, name, text) && AllExpressible(rules) && '\n' !in name
    ensures AllItems(Lines(text)).Some?
    ensures (set x | x in AllItems(Lines(text)).value) == Norms(rules)
  {
    hide IsProfile, AllItems, Norm, StarFree, Writable;
    ProfileRoundTripsExactlyWhen(rules, name, text);
  }
}
