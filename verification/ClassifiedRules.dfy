/** Rules for exact paths the compiler replaces by a class: when the hooks still allow the path. */
module ClassifiedRules {
  import opened Strings
  import opened PathPatterns
  import opened Ir
  import opened PatternRelation
  import opened Canonical
  import opened Generalize
  import opened PrefixGeneralize
  import opened RuleSets
  import opened FixedPointLimit
  import opened Pipeline
  import opened Refinement
  import opened Compile
  import opened CompiledAccess
  import opened KernelPath
  import Classifier
  import opened ClassifierAgreement
  import opened ObservedEvents
  import AP = AppArmorParser
  import Printer = AppArmorPrinter
  import RT = RoundTrip
  import T = Text
  import L = Loader

  // ---- a rule for a path the compiler classifies ----

  predicate IsUnderPid(k: Key) { k.obj.File? && k.obj.file.pattern.Classified? && UnderPid(k.obj.file.pattern.class_) }

  lemma ClassifiedKey(k: Key)
    requires IsExact(k) && TryClassify(CanonicalPath(k.obj.file.pattern.path)).Some?
    ensures var c := GenKey(CanonKey(k));
      && IsUnderPid(c) && c.action == k.action && GroupOf(c) == None
      && c.obj.file.pattern.class_ == TryClassify(CanonicalPath(k.obj.file.pattern.path)).value
  {
    hide CanonicalPath, ClassOfTail;
    var path := CanonicalPath(k.obj.file.pattern.path);
    TailClass(Tail(path));
  }

  lemma OneEntryStages(cfg: PassConfig, k: Key)
    requires GroupOf(GenKey(CanonKey(k))) == None
    ensures Classed({k}) == {GenKey(CanonKey(k))} && Collapsed(cfg, {k}) == {GenKey(CanonKey(k))}
  {
    hide CanonKey, GenKey, Fires, GroupOf;
    assert CanonKeys({k}) == {CanonKey(k)};
    assert GenKeys({CanonKey(k)}) == {GenKey(CanonKey(k))};
  }

  lemma ClassifiedShape(k: Key, c: Key, path: seq<u8>, found: PathPattern)
    requires IsExact(k) && IsUnderPid(c) && IsFileKey(c)
    ensures !KeyForPath(c, path) && !KeyExecutes(k, path) && !IsPrefixKey(c) && !IsExact(c)
    ensures ListsClass(c, found) <==> SameCategory(found, c.obj.file.pattern.class_)
    ensures SameCategory(found, c.obj.file.pattern.class_) ==> found != Regular
  {
    hide Utf8;
  }

  lemma OneClassKept(cfg: PassConfig, k: Key, path: seq<u8>, found: PathPattern, o: Opening)
    requires IsFileKey(k) && IsExact(k) && TryClassify(CanonicalPath(k.obj.file.pattern.path)).Some?
    ensures AccessKept(cfg, {k}, path, found, o) <==>
            SameCategory(found, TryClassify(CanonicalPath(k.obj.file.pattern.path)).value)
  {
    hide Utf8, Collapses, Classed, Collapsed, KeyForPath, KeyExecutes, ListsClass, IsPrefixKey, SameCategory,
      CanonKey, GenKey, CanonicalPath, TryClassify, GroupOf, Subsumes;
    var c := GenKey(CanonKey(k));
    ClassifiedKey(k);
    OneEntryStages(cfg, k);
    ClassifiedShape(k, c, path, found);
    SubsumesIrreflexive(c);
  }

  /** Compiled alone, an allowing rule for a path the compiler classifies still allows the path exactly
      when the kernel's class for it is the compiler's, or one of the same category. */
  lemma ClassifiedRuleKeptExactlyWhen(cfg: PassConfig, r: Rule, found: PathPattern, o: Opening)
    requires r.verdict == Allow && IsFileKey(r.ToKey()) && r.obj.file.pattern.ExactPath?
    requires TryClassify(CanonicalPath(r.obj.file.pattern.path)).Some?
    ensures EveryRunAllows(cfg, [r], Utf8(r.obj.file.pattern.path), found, o) <==>
            SameCategory(found, TryClassify(CanonicalPath(r.obj.file.pattern.path)).value)
  {
    hide Utf8, EveryRunAllows, AccessKept, SameCategory, TryClassify, CanonicalPath;
    assert Keys([r]) == {r.ToKey()};
    EveryRunAllowsExactlyWhen(cfg, [r], Utf8(r.obj.file.pattern.path), found, o);
    OneClassKept(cfg, r.ToKey(), Utf8(r.obj.file.pattern.path), found, o);
  }

  // ---- a profile line of that kind ----

  const SYSCTL: string := "/proc/sys/x"

  const SYSCTL_LINE: string := "  /proc/sys/x r,"

  function SysctlItem(): AP.Item { AP.Item(File(FileObject(ExactPath(SYSCTL), false)), FileRead, Allow) }

  lemma SysctlBytes()
    ensures |Utf8(SYSCTL)| == 11 && Classifier.Begins(Utf8(SYSCTL), SYSCTL)
  {
    hide Utf8, EncodeChar;
    AsciiPrefix(SYSCTL, SYSCTL);
    EmptyUtf8();
    assert SYSCTL[11..] == "";
  }

  /** The kernel files the path under the global sysctl tree. */
  lemma SysctlFound()
    ensures |Utf8(SYSCTL)| == 11 && ResolvedClass(Utf8(SYSCTL)) == ProcGlobalSys
  {
    hide Utf8;
    SysctlBytes();
    var text := Utf8(SYSCTL);
    Classifier.ClassifyBytesOfResolved(KernelPath.Zeros(MAX_PATH_LEN - 11) + text, text);
    SysctlIsGlobal(ShortBytes(text), text);
  }

  lemma SysctlIsGlobal(path: seq<u8>, text: seq<u8>)
    requires |text| == 11 && Classifier.Begins(text, SYSCTL) && path == ShortBytes(text)
    ensures Classifier.KernelClass(path) == ProcGlobalSys
  {
    assert forall i :: 0 <= i < 11 ==> path[i] == SYSCTL[i] as int;
    assert Classifier.Begins(path, "/proc/");
    var s := path[6..];
    assert forall i :: 0 <= i < 5 ==> s[i] == path[i + 6];
    assert s[0] == 's' as int && s[1] == 'y' as int && s[2] == 's' as int && s[3] == '/' as int;
    assert "self/"[1] == 'e' && !Classifier.Begins(s, "self/");
    assert Classifier.DigitRun(s, 7) == 0;
    assert Classifier.Begins(s, "sys/");
  }

  lemma SysctlCanonical()
    ensures CanonicalPath(SYSCTL) == SYSCTL
  {
    hide CanonicalPath;
    CanonicalThree("proc", "sys", "x");
    assert SYSCTL == "/" + "proc" + "/" + "sys" + "/" + "x";
  }

  lemma SysctlClassified()
    ensures TryClassify(SYSCTL) == Some(ProcPidOther)
  {
    var remainder := SYSCTL[6..];
    assert remainder == "sys/x";
    IndexOfUnique(remainder, '/', 3);
    assert remainder[4..] == "x";
  }

  /** The line of an AppArmor profile is read as the exact rule. */
  lemma SysctlLineParses()
    ensures AP.LineItems(SYSCTL_LINE) == Some([SysctlItem()])
  {
    hide AP.LineItems;
    var r := AP.RuleOf(SysctlItem(), 1);
    SysctlIsPlain();
    RT.RuleLineRoundTrips(r);
    SysctlPrints(r);
  }

  lemma SysctlPrints(r: Rule)
    requires r == AP.RuleOf(SysctlItem(), 1)
    ensures Printer.LowerRule(r).line == Some(SYSCTL_LINE)
  {
    SysctlChars();
    assert Printer.QuoteIfNeeded(SYSCTL) == SYSCTL;
    assert Printer.FileRuleLine(Allow, SYSCTL, FileRead) == "  " + ("" + (SYSCTL + " " + "r")) + ",";
    assert "" + (SYSCTL + " " + "r") == "/proc/sys/x r";
    assert "  " + "/proc/sys/x r" + "," == SYSCTL_LINE;
  }

  lemma SysctlChars()
    ensures forall i :: 0 <= i < |SYSCTL| ==> !T.IsWs(SYSCTL[i]) && !IsGlobMeta(SYSCTL[i]) && SYSCTL[i] != '\n'
  {
    assert SYSCTL[0] == '/' && SYSCTL[1] == 'p' && SYSCTL[2] == 'r' && SYSCTL[3] == 'o' && SYSCTL[4] == 'c';
    assert SYSCTL[5] == '/' && SYSCTL[6] == 's' && SYSCTL[7] == 'y' && SYSCTL[8] == 's' && SYSCTL[9] == '/';
    assert SYSCTL[10] == 'x';
  }

  lemma RootsEndElsewhere(c: PathPattern)
    ensures Root(c) == "" || Root(c)[|Root(c)| - 1] in {'/', 'p'}
  {
  }

  lemma SysctlIsPlain()
    ensures RT.Printable(SYSCTL) && RT.NotAGlob(SYSCTL)
  {
    hide Root, PathPattern.AsStr, GlobRoot;
    SysctlChars();
    assert SYSCTL[10] == 'x';
    if c :| RT.IsTextOf(SYSCTL, c) {
      GlobRootUnique(SYSCTL, SYSCTL);
      RootIsGlobRoot(c);
      RootsEndElsewhere(c);
    }
  }

  /** The profile of that one line, compiled, refuses the very read it allows, whatever the configuration. */
  lemma SysctlLineRefused(cfg: PassConfig) returns (rules: seq<Rule>)
    ensures AP.AllItems([SYSCTL_LINE]) == Some([SysctlItem()]) && rules == AP.Numbered([SysctlItem()])
    ensures AllAllow(rules) && |Utf8(SYSCTL)| == 11
    ensures !EveryRunAllows(cfg, rules, Utf8(SYSCTL), ResolvedClass(Utf8(SYSCTL)), READING)
  {
    hide Utf8, EveryRunAllows, CanonicalPath, TryClassify, ResolvedClass, AP.LineItems, AP.AllItems, AP.Numbered, AP.RuleOf,
      SysctlItem, IsFileKey, SameCategory;
    SysctlLineParses();
    OneLine(SYSCTL_LINE);
    OneNumbered(SysctlItem());
    var rule := AP.RuleOf(SysctlItem(), 1);
    rules := [rule];
    SysctlRuleIs(rule);
    SysctlFound();
    SysctlCanonical();
    SysctlClassified();
    ClassifiedRuleKeptExactlyWhen(cfg, rule, ProcGlobalSys, READING);
  }

  lemma SysctlRuleIs(r: Rule)
    requires r == AP.RuleOf(SysctlItem(), 1)
    ensures r.verdict == Allow && IsFileKey(r.ToKey()) && r.obj.file.pattern == ExactPath(SYSCTL)
    ensures !SameCategory(ProcGlobalSys, ProcPidOther)
  {
  }

  lemma OneLine(line: string)
    requires AP.LineItems(line).Some?
    ensures AP.AllItems([line]) == AP.LineItems(line)
  {
    hide AP.LineItems;
    assert AP.AllItems([]) == Some([]);
    assert [line][..0] == [];
    assert [] + AP.LineItems(line).value == AP.LineItems(line).value;
  }

  lemma OneNumbered(i: AP.Item)
    ensures AP.Numbered([i]) == [AP.RuleOf(i, 1)]
  {
    AP.EmptyNumbered();
    assert [i][..0] == [];
  }
}
