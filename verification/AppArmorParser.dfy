/** Parsing a subset of AppArmor profile syntax into rules. */
module AppArmorParser {
  import opened Strings
  import opened Text
  import opened PathPatterns
  import opened Ir

  /** The non-placeholder classes, in the order they are tried. */
  const KNOWN_PATTERNS: seq<PathPattern> := [
    ProcPidCmdline, ProcPidComm, ProcPidCwd, ProcPidEnviron, ProcPidExe, ProcPidFd, ProcPidMaps, ProcPidMem,
    ProcPidMountinfo, ProcPidMounts, ProcPidNet, ProcPidNs, ProcPidRoot, ProcPidStat, ProcPidStatus, ProcPidTask,
    ProcPidCgroup, ProcSelf, ProcGlobalSys, ProcGlobalNet, SysCgroupDocker, SysCgroupOther, SysClassNet, SysOther,
    RunDocker, RunUser, RunOther, DevPts, DevShm, DevOther, TmpRandom, TmpOther]

  /** The first of `patterns` whose wildcard text is `glob`. */
  function FirstWithText(patterns: seq<PathPattern>, glob: string): Option<PathPattern> {
    if patterns == [] then None
    else if patterns[0].AsStr() == glob then Some(patterns[0])
    else FirstWithText(patterns[1..], glob)
  }

  function EnsureTrailingSlash(s: string): string {
    if s != "" && s[|s| - 1] == '/' then s else s + "/"
  }

  predicate EndsWith(s: string, suffix: string) { |suffix| <= |s| && s[|s| - |suffix|..] == suffix }

  function GlobToPattern(glob: string): FilePattern {
    match FirstWithText(KNOWN_PATTERNS, glob)
    case Some(c) => Classified(c)
    case None =>
      if EndsWith(glob, "**") then Prefix(EnsureTrailingSlash(glob[..|glob| - 2]))
      else if EndsWith(glob, "/*") then Prefix(EnsureTrailingSlash(glob[..|glob| - 2]))
      else ExactPath(glob)
  }

  predicate IsPermToken(s: string) { s != "" && forall i :: 0 <= i < |s| ==> s[i] in "rwalkmxipcuPCU" }

  /** `Crash` is the slice at a byte that is not a character boundary. */
  datatype PathPerms = Skip | Crash | PathPerms(path: string, perms: string)

  function SplitPathPerms(line: string): PathPerms {
    if "\"" <= line then
      var rest := line[1..];
      var end := IndexOf(rest, '"');
      if end == |rest| then Skip
      else
        var perms := Trim(rest[end + 1..]);
        if perms == "" then Skip else PathPerms.PathPerms(rest[..end], perms)
    else
      var i := FirstWs(line);
      if i < |line| && IsPermToken(line[..i]) && "/" <= Trim(line[i + 1..]) then
        PathPerms.PathPerms(Trim(line[i + 1..]), line[..i])
      else
        var idx := LastWs(line);
        if idx == -1 then Skip
        else if |EncodeChar(line[idx])| > 1 then Crash
        else
          var path, perms := Trim(line[..idx]), Trim(line[idx + 1..]);
          if path == "" || !IsPermToken(perms) then Skip else PathPerms.PathPerms(path, perms)
  }

  /** A line after its leading qualifiers. */
  function Stripped(line: string): string
    decreases |line|
  {
    var t := TrimStart(line);
    TrimStartShrinks(line);
    if "owner " <= t then Stripped(t[6..])
    else if "audit " <= t then Stripped(t[6..])
    else if "priority=" <= t then
      var i := FirstWs(t);
      if i < |t| then Stripped(t[i + 1..]) else Stripped("")
    else t
  }

  lemma TrimStartShrinks(s: string)
    ensures |TrimStart(s)| <= |s|
  {
  }

  method StripQualifiers(input: string) returns (r: string)
    ensures r == Stripped(input)
  {
    var line := input;
    while true
      invariant Stripped(line) == Stripped(input)
      decreases |line|
    {
      var trimmed := TrimStart(line);
      TrimStartShrinks(line);
      if "owner " <= trimmed {
        line := trimmed[6..];
      } else if "audit " <= trimmed {
        line := trimmed[6..];
      } else if "priority=" <= trimmed {
        var i := FirstWs(trimmed);
        line := if i < |trimmed| then trimmed[i + 1..] else "";
      } else {
        return trimmed;
      }
    }
    assert false;
  }

  // ---- network rules ----

  function FromOctets(o: seq<nat>): u32
    requires |o| == 4 && forall i :: 0 <= i < 4 ==> o[i] < 0x100
  {
    o[0] + o[1] * 0x100 + o[2] * 0x1_0000 + o[3] * 0x100_0000
  }

  /** All parts as octets, or nothing. */
  function ParseOctets(parts: seq<string>): (r: Option<seq<nat>>)
    ensures r.Some? ==> |r.value| == |parts| && forall i :: 0 <= i < |parts| ==> r.value[i] < 0x100
  {
    if parts == [] then Some([])
    else
      match (ParseUInt(parts[0], 0xFF), ParseOctets(parts[1..]))
      case (Some(o), Some(rest)) => Some([o] + rest)
      case _ => None
  }

  function ParseIpv4(s: string): Option<u32> {
    match ParseOctets(Split(s, '.'))
    case Some(o) => if |o| == 4 then Some(FromOctets(o)) else None
    case None => None
  }

  function ParsePort(v: string): Option<u32> {
    match ParseUInt(Split(v, '-')[0], U32_MAX)
    case Some(p) => Some(p)
    case None => None
  }

  datatype Endpoint = Endpoint(ip: Option<u32>, port: Option<u32>)

  function EndpointStep(e: Endpoint, word: string): Endpoint {
    var tok := TrimEndOf(word, ",)");
    if "ip=" <= tok then e.(ip := ParseIpv4(tok[3..]))
    else if "port=" <= tok then e.(port := ParsePort(tok[5..]))
    else e
  }

  function EndpointOf(e: Endpoint, words: seq<string>): Endpoint
    decreases |words|
  {
    if words == [] then e else EndpointOf(EndpointStep(e, words[0]), words[1..])
  }

  method ParseIpPort(s: string) returns (ip: Option<u32>, port: Option<u32>)
    ensures Endpoint(ip, port) == EndpointOf(Endpoint(None, None), Words(s))
  {
    ip, port := None, None;
    var words := Words(s);
    var i := 0;
    while i < |words|
      invariant 0 <= i <= |words|
      invariant EndpointOf(Endpoint(ip, port), words[i..]) == EndpointOf(Endpoint(None, None), words)
    {
      assert words[i..][1..] == words[i + 1..];
      var tok := TrimEndOf(words[i], ",)");
      if "ip=" <= tok {
        ip := ParseIpv4(tok[3..]);
      } else if "port=" <= tok {
        port := ParsePort(tok[5..]);
      }
      i := i + 1;
    }
  }

  function ProtocolStep(p: Option<u8>, word: string): Option<u8> {
    var tok := TrimEndOf(word, ",");
    if tok == "stream" || tok == "tcp" then Some(6)
    else if tok == "dgram" || tok == "udp" then Some(17)
    else p
  }

  function ProtocolOf(p: Option<u8>, words: seq<string>): Option<u8>
    decreases |words|
  {
    if words == [] then p else ProtocolOf(ProtocolStep(p, words[0]), words[1..])
  }

  /** The text inside `peer=( ... )`. */
  function ExtractPeer(s: string): Option<string> {
    var at := Find(s, "peer=(");
    if at == -1 then None
    else
      var inner := s[at + 6..];
      var end := IndexOf(inner, ')');
      if end == |inner| then None else Some(inner[..end])
  }

  function NetworkOf(rest: string): NetworkObject {
    var text := match ExtractPeer(rest) case Some(peer) => peer case None => rest;
    var e := EndpointOf(Endpoint(None, None), Words(text));
    NetworkObject(e.ip, e.port, ProtocolOf(None, Words(rest)), Some(1))
  }

  method ParseNetwork(rest: string) returns (n: NetworkObject)
    ensures n == NetworkOf(rest)
  {
    var protocol: Option<u8> := None;
    var words := Words(rest);
    var i := 0;
    while i < |words|
      invariant 0 <= i <= |words|
      invariant ProtocolOf(protocol, words[i..]) == ProtocolOf(None, words)
    {
      assert words[i..][1..] == words[i + 1..];
      var tok := TrimEndOf(words[i], ",");
      if tok == "stream" || tok == "tcp" {
        protocol := Some(6);
      } else if tok == "dgram" || tok == "udp" {
        protocol := Some(17);
      }
      i := i + 1;
    }
    var peer := ExtractPeer(rest);
    var ip, port := ParseIpPort(match peer case Some(p) => p case None => rest);
    n := NetworkObject(ip, port, protocol, Some(1));
  }

  // ---- lines and profiles ----

  /** What one line says, before ids are handed out. */
  datatype Item = Item(obj: Object, action: Action, verdict: Verdict)

  function FileItem(v: Verdict, path: string, action: Action): Item {
    Item(File(FileObject(GlobToPattern(path), false)), action, v)
  }

  function ExecItem(v: Verdict, path: string): Item { Item(Process(ProcessObject(BinaryPath(path))), ProcExec, v) }

  function FileItems(v: Verdict, path: string, perms: string): seq<Item> {
    (if 'x' in perms then [ExecItem(v, path)] else []) +
    (if 'w' in perms || 'a' in perms then [FileItem(v, path, FileWrite)] else []) +
    (if 'r' in perms then [FileItem(v, path, FileRead)] else [])
  }

  /** Blank, comment, structural and preamble lines. */
  predicate IsSkipped(line: string) {
    || line == "" || "#" <= line || "profile" <= line || "abi " <= line || "include" <= line || "@" <= line
    || line == "{" || line == "}" || EndsWith(line, "{")
  }

  function SplitVerdict(line: string): (Verdict, string) {
    if "deny " <= line then (Deny, Trim(line[5..]))
    else if "allow " <= line then (Allow, Trim(line[6..]))
    else (Allow, line)
  }

  /** The rules on one line; none when the parser crashes on it. */
  function RuleItems(v: Verdict, line: string): Option<seq<Item>> {
    if "network" <= line then Some([Item(Network(NetworkOf(line[7..])), NetConnect, v)])
    else
      match SplitPathPerms(line)
      case Skip => Some([])
      case Crash => None
      case PathPerms(path, perms) => Some(FileItems(v, path, perms))
  }

  function LineItems(raw: string): Option<seq<Item>> {
    var line := Trim(raw);
    if IsSkipped(line) then Some([])
    else
      var body := Trim(TrimEndOf(line, ","));
      if body == "" then Some([])
      else
        var (v, rule) := SplitVerdict(body);
        RuleItems(v, Stripped(rule))
  }

  function AllItems(lines: seq<string>): Option<seq<Item>> {
    if lines == [] then Some([])
    else
      match (AllItems(lines[..|lines| - 1]), LineItems(lines[|lines| - 1]))
      case (Some(a), Some(b)) => Some(a + b)
      case _ => None
  }

  function SourceOf(i: Item): SourceModule { if i.obj.File? then Fs else if i.obj.Process? then Proc else Net }

  function RuleOf(i: Item, id: RuleId): Rule {
    Rule(id, Subject(None, None, None), i.obj, i.action, i.verdict, Metadata(SourceOf(i), 0, 0, 0))
  }

  /** Items numbered from 1, ids wrapping at 64 bits. */
  function Numbered(items: seq<Item>): seq<Rule> {
    if items == [] then []
    else Numbered(items[..|items| - 1]) + [RuleOf(items[|items| - 1], |items| % TWO_TO_THE_64)]
  }

  lemma NumberedSnoc(items: seq<Item>, item: Item)
    ensures Numbered(items + [item]) == Numbered(items) + [RuleOf(item, (|items| + 1) % TWO_TO_THE_64)]
  {
    assert (items + [item])[..|items|] == items;
  }

  lemma {:induction false} NumberedIndex(items: seq<Item>, i: nat)
    requires i < |items|
    ensures |Numbered(items)| == |items| && Numbered(items)[i] == RuleOf(items[i], (i + 1) % TWO_TO_THE_64)
  {
    hide RuleOf;
    if |items| > 1 { NumberedIndex(items[..|items| - 1], if i < |items| - 1 then i else 0); }
  }

  method ParseLine(raw: string) returns (items: Option<seq<Item>>)
    ensures items == LineItems(raw)
  {
    hide Trim, TrimEndOf, IsSkipped, SplitVerdict, Stripped, SplitPathPerms, NetworkOf, FileItem, ExecItem;
    var line := Trim(raw);
    if IsSkipped(line) {
      return Some([]);
    }
    line := Trim(TrimEndOf(line, ","));
    if line == "" {
      return Some([]);
    }
    var (verdict, rule) := SplitVerdict(line);
    line := StripQualifiers(rule);
    if "network" <= line {
      var net := ParseNetwork(line[7..]);
      return Some([Item(Network(net), NetConnect, verdict)]);
    }
    match SplitPathPerms(line) {
      case Skip => items := Some([]);
      case Crash => items := None;
      case PathPerms(path, perms) =>
        var found: seq<Item> := [];
        if 'x' in perms {
          found := found + [ExecItem(verdict, path)];
        }
        if 'w' in perms || 'a' in perms {
          found := found + [FileItem(verdict, path, FileWrite)];
        }
        if 'r' in perms {
          found := found + [FileItem(verdict, path, FileRead)];
        }
        assert found == FileItems(verdict, path, perms);
        items := Some(found);
    }
  }

  method PushItems(rules: seq<Rule>, nextId: u64, found: seq<Item>, ghost items: seq<Item>)
    returns (out: seq<Rule>, next: u64)
    requires rules == Numbered(items) && nextId == (|items| + 1) % TWO_TO_THE_64
    ensures out == Numbered(items + found) && next == (|items| + |found| + 1) % TWO_TO_THE_64
  {
    hide Numbered, RuleOf;
    out, next := rules, nextId;
    var i := 0;
    assert items + found[..0] == items;
    while i < |found|
      invariant 0 <= i <= |found|
      invariant out == Numbered(items + found[..i]) && next == (|items| + i + 1) % TWO_TO_THE_64
    {
      NumberedSnoc(items + found[..i], found[i]);
      assert items + found[..i] + [found[i]] == items + found[..i + 1];
      out := out + [RuleOf(found[i], next)];
      next := (next + 1) % TWO_TO_THE_64;
      i := i + 1;
    }
    assert found[..i] == found;
  }

  // ---- crashes ----

  /** What is left of a line that says something: trimmed, without its comma, verdict and qualifiers. */
  function RuleText(raw: string): Option<string> {
    var line := Trim(raw);
    var body := Trim(TrimEndOf(line, ","));
    if IsSkipped(line) || body == "" then None else Some(Stripped(SplitVerdict(body).1))
  }

  /** Permissions first: "rw /path". */
  predicate LeadingPerms(rule: string) {
    exists i :: 0 <= i < |rule| && LeadsAt(rule, i)
  }

  predicate LeadsAt(rule: string, i: int)
    requires 0 <= i < |rule|
  {
    && IsWs(rule[i]) && (forall j :: 0 <= j < i ==> !IsWs(rule[j]))
    && IsPermToken(rule[..i]) && "/" <= Trim(rule[i + 1..])
  }

  /** The last white space at `i` is outside ASCII. */
  predicate WideGapAt(rule: string, i: int)
    requires 0 <= i < |rule|
  {
    IsWs(rule[i]) && rule[i] as int >= 0x80 && forall j :: i < j < |rule| ==> !IsWs(rule[j])
  }

  predicate WideGap(rule: string) { exists i :: 0 <= i < |rule| && WideGapAt(rule, i) }

  /** The path comes first, unquoted, and the white space before the permissions is outside ASCII. */
  predicate Crashes(raw: string) {
    var rule := RuleText(raw);
    rule.Some? && !("network" <= rule.value) && !("\"" <= rule.value) && !LeadingPerms(rule.value) && WideGap(rule.value)
  }

  lemma WideGapIsCrash(rule: string)
    ensures SplitPathPerms(rule) == Crash <==> !("\"" <= rule) && !LeadingPerms(rule) && WideGap(rule)
  {
    hide Trim, IsPermToken, IsWs;
    var first, last := FirstWs(rule), LastWs(rule);
    if first < |rule| && IsPermToken(rule[..first]) && "/" <= Trim(rule[first + 1..]) {
      assert LeadsAt(rule, first);
    }
    if LeadingPerms(rule) {
      var i :| 0 <= i < |rule| && LeadsAt(rule, i);
      assert i == first;
    }
    if WideGap(rule) {
      var i :| 0 <= i < |rule| && WideGapAt(rule, i);
      assert i == last;
    }
    if last >= 0 && rule[last] as int >= 0x80 {
      assert WideGapAt(rule, last);
    }
  }

  /** The parser crashes on a line exactly when a path comes first, unquoted, and the last white space is
      outside ASCII: it is one character long but is cut as if it were one byte. */
  lemma LineCrashesExactlyWhen(raw: string)
    ensures LineItems(raw).None? <==> Crashes(raw)
  {
    hide Trim, TrimEndOf, IsSkipped, SplitVerdict, Stripped, SplitPathPerms, NetworkOf, FileItem, ExecItem, LeadingPerms,
      WideGap;
    if RuleText(raw).Some? {
      WideGapIsCrash(RuleText(raw).value);
    }
  }

  predicate SomeLineCrashes(lines: seq<string>) { exists i :: 0 <= i < |lines| && Crashes(lines[i]) }

  lemma {:induction false} ProfileCrashesExactlyWhen(lines: seq<string>)
    ensures AllItems(lines).None? <==> SomeLineCrashes(lines)
  {
    hide LineItems, Crashes;
    if lines != [] {
      var n := |lines| - 1;
      ProfileCrashesExactlyWhen(lines[..n]);
      LineCrashesExactlyWhen(lines[n]);
      assert forall i :: 0 <= i < n ==> lines[..n][i] == lines[i];
    }
  }

  /** A no-break space before the permissions is enough. */
  lemma NoBreakSpaceCrashes()
    ensures Crashes("/a\U{00A0}r")
  {
    var line := "/a\U{00A0}r";
    assert Solid(line);
    TrimSolid(line);
    assert TrimEndOf(line, ",") == line;
    assert Stripped(line) == line;
    assert line[..2] == "/a" && IsWs(line[2]);
    assert WideGapAt(line, 2);
    assert !LeadingPerms(line) by {
      assert !IsPermToken(line[..2]) by { assert line[..2][0] == '/'; }
    }
  }

  /** Nothing stands for a crash, which happens exactly when some line crashes. */
  method ParseAppArmor(text: string) returns (rules: Option<seq<Rule>>)
    ensures rules.None? <==> SomeLineCrashes(Lines(text))
    ensures rules.Some? <==> AllItems(Lines(text)).Some?
    ensures rules.Some? ==> rules.value == Numbered(AllItems(Lines(text)).value)
  {
    hide LineItems, Numbered, SomeLineCrashes;
    var lines := Lines(text);
    ProfileCrashesExactlyWhen(lines);
    var out: seq<Rule> := [];
    var nextId: u64 := 1;
    ghost var items: seq<Item> := [];
    EmptyNumbered();
    var i := 0;
    while i < |lines|
      invariant 0 <= i <= |lines|
      invariant AllItems(lines[..i]) == Some(items)
      invariant out == Numbered(items) && nextId == (|items| + 1) % TWO_TO_THE_64
    {
      assert lines[..i + 1][..i] == lines[..i];
      var found := ParseLine(lines[i]);
      if found.None? {
        PrefixCrash(lines, i + 1);
        return None;
      }
      out, nextId := PushItems(out, nextId, found.value, items);
      items := items + found.value;
      i := i + 1;
    }
    assert lines[..i] == lines;
    rules := Some(out);
  }

  lemma EmptyNumbered()
    ensures Numbered([]) == []
  {
  }

  lemma {:induction false} PrefixCrash(lines: seq<string>, n: nat)
    requires n <= |lines| && AllItems(lines[..n]).None?
    ensures AllItems(lines).None?
    decreases |lines| - n
  {
    hide LineItems;
    if n < |lines| {
      assert lines[..n + 1][..n] == lines[..n];
      PrefixCrash(lines, n + 1);
    } else {
      assert lines[..n] == lines;
    }
  }
}
