# Verified model of the eBPF policy compiler and its enforcement runtime

The repository observes a container, compiles what it saw into an allowlist of rules, and enforces
the list from BPF-LSM hooks while it follows the container across restarts. This project models that
chain in Dafny and proves what its parts promise each other:

* **Compiler.** Rules with file patterns (`Ir`, `PathPatterns`, `PatternRelation`), the six
  optimization passes (`Canonical`, `Dedup`, `Generalize`, `PrefixGeneralize`, `Pipeline`) and the
  linker (`Linker`). `RuleSets`, `Optimizer`, `FixedPoint`, `FixedPointLimit`, `PipelineRuns`,
  `Realization`, `Agreement` and `LinkedRuns` hold the whole-pipeline results: what a run covers, how
  far it may widen, exactly when its output depends on the input set alone, and exactly when running it
  again changes nothing. The iteration order of hash maps is left open, so every result is about every
  possible order. `CollapseGuards` says of the paths themselves when a directory's entries collapse, `PassSizes` that no
  pass lengthens the list, and
  `ClassMatching` which paths the compiler classifies and which of them a class's text still matches.
* **AppArmor text.** The printer and the parser (`Text`, `AppArmorPrinter`, `AppArmorParser`), and the
  round trip between them over everything both can express (`RoundTrip`). `PrintedLines` and `ByteOrder`
  say what printed profiles grant and how they are sorted, `ParsedLines` and `NetworkLines` what the parser
  makes of hand-written lines.
* **Kernel side.** The path hash (`Fnv`), the right-to-left path buffer and its readers (`KernelPath`),
  the kernel's path classifier, its classes as sets of paths, and its agreement with the compiler's
  (`Classifier`, `KernelClasses`, `ClassifierAgreement`, `CatchAllAgreement`), the loader that writes a rule list into maps (`Loader`), and the hooks that
  decide from them (`Hooks`). `EnforcementSpec`, `Enforcement` and `Refinement` prove that a hook on
  loaded maps decides what the rule list, read directly, says.
* **End to end.** `Translator` turns monitored events into rules, and `Compile` puts compiler and linker
  together; `CompiledAccess` says exactly which accesses stay allowed after compiling a profile.
  `ObservedEvents` says it of the accesses the monitor recorded, `ObservedReads` tells the configurations
  that keep all recorded reads, `ClassifiedRules` treats hand-written rules for classified paths, and
  `EndToEnd` goes on to the return codes of the hooks, for files, connections and executions.
* **Restarts.** Watcher thread, channel and consumer task (`Restart`), and what every interleaving of
  their steps keeps (`RestartRuns`).
* **Network thinning.** Flow keys and expiry tables (`UdpFlows`).

Code that updates state step by step is modelled by methods and classes (`LineVec`, `Output`, `Path`,
`LoadedPolicy`, `ProfileTranslator`, `Watcher`, `Channel`, `Consumer`, `NetworkTables`), each verified against a
specification function; the theorems are about those functions. Strings are sequences of Unicode
scalar values with an explicit UTF-8 encoding wherever the program counts bytes. Machine integers are
bounded integers with their wrap-around written out.

## Where the code does less than it says

* Running the pipeline on its own output is documented as a no-op. It is one exactly when the
  configuration cannot collapse `/proc/` itself (`Realization.RerunsAreNoOpsExactlyWhen`); a denied
  class entry can block a collapse in the first run and lose its signature to an allowing one before
  the second. The default configuration is on the safe side.
* The conflict report is computed after the last deduplication, which keeps one rule per signature, so
  it is always empty (`PipelineRuns.RunReportsNoConflict`); the verdict that lost is not reported.
* Two runs on the same list can keep different verdicts when an allowed and a denied path fall into one
  class (`Realization.DivergentInput`); `Agreement.RunsAgreeUnlessRulesMeet` says exactly when they cannot.
* Compiling observed behaviour can refuse part of it. When the reads of a directory collapse into a
  prefix and one of its files was also written, that file keeps an exact rule for the write alone,
  which shadows the prefix, so reading it is refused (`ObservedReads.ObservedReadRefused`); the
  configurations without such a directory keep every recorded read (`ObservedReads.ReadsAreKeptExactlyWhen`),
  and the built-in one is not among them (`ObservedReads.DefaultLosesReads`). A write to a path the kernel
  classes, say under `/tmp/`, is refused once the path was also executed
  (`ObservedEvents.ClassedAccessStaysExactlyWhen`): the linker then names it for reading.
* A hand-written rule for an exact path that the compiler and the kernel put into different categories does not
  allow that path (`ClassifiedRules.ClassifiedRuleKeptExactlyWhen`, `ClassifiedRules.SysctlLineRefused`).
  The monitor records such a path by the kernel's class, so observed accesses are not affected.
* The AppArmor parser crashes on a line whose path and permissions are separated by white space outside
  ASCII (`AppArmorParser.LineCrashesExactlyWhen`, `AppArmorParser.NoBreakSpaceCrashes`).
* AppArmor puts `audit` before `allow` and `deny`. On a line in that order the parser takes the verdict word
  for the start of the path, so `audit deny /x r` allows a path that begins with "deny " and denies nothing
  (`ParsedLines.QualifierHidesVerdict`, `ParsedLines.VerdictReadExactlyWhen`).
* A path that looks like a wildcard does not survive printing and parsing
  (`RoundTrip.LineRoundTripsExactlyWhen`). A hand-written wildcard is read as a prefix that covers more, or
  less, than AppArmor matches (`PrintedLines.WildcardReadExactlyWhen`).
* What follows a quoted path is not checked to be permissions (`ParsedLines.QuotedIsNeverChecked`).
* A rule for a listening socket is read back as one for connecting to its address
  (`NetworkLines.BindReadsAsConnect`), and an audited rule is printed as an allowing one without a warning
  (`PrintedLines.AuditPrintsAsAllow`).
* The built-in list of sensitive directories never keeps one from collapsing: each is refused for its depth
  already, and directories below it are not listed (`ObservedReads.DefaultCollapsesExactlyWhen`).
* A connection recorded with port 0 lets every port of its address through
  (`EndToEnd.RecordedConnectionsGoThrough`).
* The rules the linker adds are not subject to the passes again (`PipelineRuns.LinkedOutputCanMove`;
  `LinkedRuns.LinkedComesBackExactlyWhen` says which of them the passes would change).
* The kernel never recognises the `stat` class on resolved paths, because the copy of a short path
  repeats its last byte where the classifier looks for an end (`ClassifierAgreement.AgreesOnResolved`). For the same reason it takes
  `/proc/<pid>/com` for `comm`, and it takes longer names, `fdinfo` say, for the class their first letters
  spell (`CatchAllAgreement.CatchAllOnResolved`).
* The text printed for a directory class matches only its direct children, and the catch-all class's text
  next to nothing (`ClassMatching.OwnTextMatchesExactlyWhen`).
* The kernel's two cgroup classes are wider than their texts (`Classifier.DockerClassIsWider`,
  `Classifier.CgroupClassIsWider`).
* Paths over 769 bytes are hashed and compared without their front (`KernelPath.KernelHashIsUserHash`).
* Rebinding a cgroup to itself takes it off the allowlist (`Refinement.RunsStayConsistent`); the
  consumer never asks for that.
* One failed poll of the container runtime ends the consumer for good, so later restarts are followed
  by neither monitoring nor enforcement (`RestartRuns.FailedPollLosesTheContainer`;
  `RestartRuns.FollowsExactlyWhen` lists the polls that do this).

## Checking

`dafny verify dfyconfig.toml` checks everything with Dafny 4.11.

## Model

| member | source | states |
|---|---|---|
| `PathPatterns.RootIsGlobRoot` | ebpf-mon-common/src/policy/ir.rs:139-142 | the part of each class text before its first wildcard is the listed literal root |
| `PathPatterns.AareMatchesAreRooted` | ebpf-mon-common/src/policy/ir.rs:139-142 | every path an AppArmor wildcard text matches starts with the text's literal root |
| `PatternRelation.RelationSymmetric` | ebpf-mon-common/src/policy/ir.rs:78-126 | comparing two patterns the other way round gives the swapped answer |
| `PatternRelation.RelationSound` | ebpf-mon-common/src/policy/ir.rs:62-175 | Equal, Superset and Subset are true inclusions of match-sets and Disjoint is true disjointness, for every meaning of the classes rooted at their literal heads |
| `PatternRelation.RelationExactOnPlainPatterns` | ebpf-mon-common/src/policy/ir.rs:91-126 | on exact paths and prefixes the answer is never vague: Disjoint and containment are reported exactly when they hold |
| `PatternRelation.RelationExact` | ebpf-mon-common/src/policy/ir.rs:78-175 | on all patterns the answer is Disjoint if and only if no meaning of the classes rooted at their literal heads gives a common match, and Equal or Superset if and only if every one makes the first cover the second |
| `PatternRelation.AareMeaningIsRooted` | ebpf-mon-common/src/policy/ir.rs:139-142 | full wildcard matching is one of the admissible meanings |
| `PatternRelation.SupersetTransitive` | ebpf-mon-common/src/policy/ir.rs:91-157 | strict Superset is transitive |
| `Canonical.CanonicalizePath` | ebpf-mon-common/src/policy/passes.rs:37-64 | the component-stack loop computes the canonical text; its properties are the next rows |
| `Canonical.CanonicalIdempotent` | ebpf-mon-common/src/policy/passes.rs:37-64 | canonicalizing a canonical path changes nothing |
| `Canonical.CanonicalPrefixIdempotent` | ebpf-mon-common/src/policy/passes.rs:68-71 | the same for directory prefixes |
| `Canonical.CanonicalConcat` | ebpf-mon-common/src/policy/passes.rs:37-64 | canonicalizing the left part of a concatenation first changes nothing |
| `Canonical.CanonicalResolves` | ebpf-mon-common/src/policy/passes.rs:37-64 | walked from any working directory, the canonical path leads where the original leads |
| `Canonical.CanonicalDecidesEquivalence` | ebpf-mon-common/src/policy/passes.rs:37-64 | two nonempty paths get one canonical text if and only if both are absolute or both relative and they lead to the same place from everywhere |
| `Canonical.PrefixIsDirectoryScoped` | ebpf-mon-common/src/policy/passes.rs:37-71 | a canonical prefix matches a canonical absolute path if and only if its components are a proper prefix of the path's components |
| `Dedup.Deduplicate` | ebpf-mon-common/src/policy/passes.rs:75-98 | the hash-map loop leaves one rule per signature, each the fold of its duplicates, in an order the map chooses |
| `Dedup.DedupMapValue` | ebpf-mon-common/src/policy/passes.rs:78-97 | the survivor of a signature is the first rule carrying it, verdict included, apart from its metadata |
| `Dedup.DedupCounts` | ebpf-mon-common/src/policy/passes.rs:78-97 | its observation count is the sum over all duplicates, modulo 2^64 |
| `Dedup.DedupTimes` | ebpf-mon-common/src/policy/passes.rs:78-97 | its first and last times bound all duplicates and are both attained |
| `Dedup.DedupSelects` | ebpf-mon-common/src/policy/passes.rs:78-97 | on rule sets, deduplication keeps exactly one entry per signature |
| `Dedup.DedupIds` | ebpf-mon-common/src/policy/passes.rs:78-97 | survivors keep input ids, and distinct ids stay distinct |
| `Generalize.TryClassifyRoot` | ebpf-mon-common/src/policy/passes.rs:120-148 | every class given to a path has the literal root /proc/ |
| `Generalize.TryClassifyIsAMeaning` | ebpf-mon-common/src/policy/passes.rs:120-148 | "is put into this class" is an admissible meaning of the classes, so every theorem over meanings applies to it |
| `ClassMatching.ClassifiedExactly` | ebpf-mon-common/src/policy/passes.rs:120-148 | the compiler classifies exactly the paths below a component of /proc, each into the class whose text spells the path with the component as a wildcard, directory contents as one too, and into the catch-all class if there is none |
| `PrefixGeneralize.CommonPrefixLen` | ebpf-mon-common/src/policy/passes.rs:362-377 | the loop finds the length of the longest byte prefix shared by all names |
| `PrefixGeneralize.CommonSuffixLen` | ebpf-mon-common/src/policy/passes.rs:379-394 | the loop finds the length of the longest shared byte suffix |
| `PrefixGeneralize.LeavesLookGenerated` | ebpf-mon-common/src/policy/passes.rs:344-360 | names look generated if and only if they share a long enough affix or are all digits or all hexadecimal |
| `PrefixGeneralize.PrefixGeneralize` | ebpf-mon-common/src/policy/passes.rs:213-312 | the pass keeps what does not collapse, in order, and adds one folded prefix per firing group, groups in any order |
| `PrefixGeneralize.CheckGuards` | ebpf-mon-common/src/policy/passes.rs:235-262 | the guards evaluated over the member indices decide exactly whether the group fires |
| `CollapseGuards.CollapsesExactlyWhen` | ebpf-mon-common/src/policy/passes.rs:152-180 | an exact path in a directory of given names collapses if and only if it is not sensitive, has enough siblings, the directory is unlisted, deep enough and at most 128 bytes, the siblings' names share an affix or are hexadecimal, and no opposing entry could touch the directory, each said of the paths themselves |
| `CollapseGuards.RootEntriesStay` | ebpf-mon-common/src/policy/passes.rs:331-342 | a path directly under the root never collapses |
| `ObservedReads.DefaultCollapsesExactlyWhen` | ebpf-mon-common/src/policy/passes.rs:184-196 | the same for the built-in configuration, whose list of sensitive directories never decides |
| `PrefixGeneralize.SynthesizedIs` | ebpf-mon-common/src/policy/passes.rs:264-311 | the prefix rule of a group has the group's scope, the id and source of its first rule, the sum of its observations up to the 64-bit maximum, and its earliest and latest times, both attained |
| `Optimizer.SynthesizedSeparated` | ebpf-mon-common/src/policy/passes.rs:235-311 | every synthesized prefix is disjoint from every same-subject output entry of another verdict, other synthesized prefixes included |
| `Optimizer.CollapseKeepsSeparation` | ebpf-mon-common/src/policy/passes.rs:235-311 | an input without overlaps between verdicts yields an output without any |
| `Pipeline.Subsume` | ebpf-mon-common/src/policy/passes.rs:424-442 | the nested loops keep exactly the rules no other rule strictly covers |
| `Optimizer.SurvivingSubsumer` | ebpf-mon-common/src/policy/passes.rs:424-455 | each dropped entry has a strict superset that is itself kept |
| `Optimizer.SubsumptionExact` | ebpf-mon-common/src/policy/passes.rs:424-455 | for every subject, action and verdict the union of match-sets is unchanged |
| `Pipeline.Detect` | ebpf-mon-common/src/policy/passes.rs:465-480 | the nested loops list all conflicting pairs in order |
| `Pipeline.ConflictsComplete` | ebpf-mon-common/src/policy/passes.rs:465-480 | the list is empty if and only if no two rules conflict |
| `Pipeline.ConflictsAreClashes` | ebpf-mon-common/src/policy/passes.rs:465-480 | the reported pairs are exactly the pairs of rules with one subject, object and action and different verdicts, each once, in the order of their positions |
| `Pipeline.RunPipelineReported` | ebpf-mon-common/src/policy/passes.rs:506-535 | the six passes in order, with the size of the list before and after each |
| `PassSizes.PassesNeverGrow` | ebpf-mon-common/src/policy/passes.rs:506-535 | in every run no pass makes the list longer, and canonicalizing and classifying keep its length |
| `PassSizes.CollapseShrinks` | ebpf-mon-common/src/policy/passes.rs:213-312 | the collapse keeps the length if and only if nothing collapses: every group takes two rules or more for one |
| `PassSizes.StatsAddUp` | ebpf-mon-common/src/policy/passes.rs:482-535 | the statistics name the six passes in order, each starting where the one before ended, and the rules they say were removed are exactly those the run removed |
| `Pipeline.RunRefines` | ebpf-mon-common/src/policy/passes.rs:506-535 | on rule sets a run acts as the composition of set-level passes, whatever the order of the lists |
| `PipelineRuns.RunsConverge` | ebpf-mon-common/src/policy/passes.rs:506-535 | two runs on the same set of rules give the same set of rules, whatever the order, the duplicates and the hash-map iteration, when no two verdicts meet on one classified signature |
| `FixedPoint.OneVerdictNoClash` | ebpf-mon-common/src/policy/passes.rs:506-535 | one verdict per subject implies that condition |
| `FixedPoint.SiblingsStayTogether` | ebpf-mon-common/src/policy/passes.rs:213-312 | after the passes, the siblings of a surviving exact rule survive with it |
| `PipelineRuns.RerunChangesNothing` | ebpf-mon-common/src/policy/passes.rs:506-540 | running the pipeline on its own output changes nothing, under that condition or for any configuration that cannot collapse /proc/ |
| `Realization.Realize` | ebpf-mon-common/src/policy/passes.rs:506-535 | every outcome the set-level pipeline allows on a clash-free list is the outcome of a run on that list |
| `Realization.RealizeOnList` | ebpf-mon-common/src/policy/passes.rs:506-535 | on any list, every selection of one entry per signature from the set before the last deduplication is the outcome of a run |
| `Agreement.RunsAgreeUnlessRulesMeet` | ebpf-mon-common/src/policy/passes.rs:75-98 | all runs on a list give the same set of rules, whatever the hash maps do and the configuration is, if and only if no two rules, the first of each canonical signature, bring opposite verdicts of one subject, action and sensitivity into one /proc class, unless a rule of the same scope for all of / or /proc/ covers one of them |
| `Agreement.ListsAgreeWhenSettled` | ebpf-mon-common/src/policy/passes.rs:506-535 | all runs on all lists of a set of rules agree if and only if, however one verdict is chosen per canonical signature, no two rules meet in that way and the passes leave the same entries |
| `Agreement.ClashFreeListsAgree` | ebpf-mon-common/src/policy/passes.rs:506-535 | for rules whose verdicts do not meet on one canonical signature that is: if and only if no two of them meet in that way |
| `Realization.DivergentInput` | ebpf-mon-common/src/policy/passes.rs:75-98 | an allowed and a denied read of two processes' stat file: for every configuration, two runs on one list with different outputs |
| `Realization.RerunsAreNoOpsExactlyWhen` | ebpf-mon-common/src/policy/passes.rs:506-540 | for all inputs and all runs the output is a fixed point if and only if the configuration never lets /proc/ itself collapse |
| `FixedPointLimit.UnstableInput` | ebpf-mon-common/src/policy/passes.rs:213-312 | the input family on which a second run still collapses rules |
| `FixedPointLimit.DefaultConfigIsStable` | ebpf-mon-common/src/policy/passes.rs:184-196 | a minimum directory depth of two, as by default, rules that family out |
| `PipelineRuns.FixedSetsExactly` | ebpf-mon-common/src/policy/passes.rs:506-535 | a clash-free set is a fixed point of the pipeline if and only if each single pass leaves each of its entries alone |
| `PipelineRuns.RunCovers` | ebpf-mon-common/src/policy/passes.rs:105-148 | every path matched by a canonicalized input rule is matched by an output rule of the same subject, action and verdict |
| `PipelineRuns.RunWidensOnlyAsJustified` | ebpf-mon-common/src/policy/passes.rs:213-356 | every output file rule is an input rule, a class given to some input path of its scope, or a prefix over enough guarded siblings of its scope |
| `PipelineRuns.RunReportsNoConflict` | ebpf-mon-common/src/policy/passes.rs:465-535 | the conflict report after a run is always empty |
| `PipelineRuns.CompileKeepsIdsDistinct` | ebpf-mon-common/src/policy/passes.rs:281-311 | distinct rule ids stay distinct through all passes and the linker, as long as ids do not run out |
| `Linker.LinkCrossCategory` | ebpf-mon-common/src/policy/linker.rs:8-60 | the loop computes the linked list; its properties are the next rows |
| `Linker.LinkCloses` | ebpf-mon-common/src/policy/linker.rs:8-60 | rules are only appended, each appended rule is the open or read of a path some exec rule names, with its verdict and times and no observations, and every such open and read is there |
| `Linker.LinkAddsOnce` | ebpf-mon-common/src/policy/linker.rs:8-60 | what is appended no rule of the list speaks of, and nothing is appended twice |
| `Linker.LinkIdempotent` | ebpf-mon-common/src/policy/linker.rs:8-60 | linking a linked list adds nothing |
| `Linker.LinkKeepsIdsDistinct` | ebpf-mon-common/src/policy/linker.rs:8-60 | appended rules take fresh ids |
| `PipelineRuns.LinkedOutputCanMove` | ebpf-mon-common/src/policy/linker.rs:8-60 | linked rules need not be a fixed point of the pipeline: linking an exec of /proc/self/exe adds a rule the next run classifies |
| `LinkedRuns.LinkedKeysAre` | ebpf-mon-common/src/policy/linker.rs:8-60 | linking adds to a set of rules exactly the opens and reads of executed paths that no rule of the subject speaks of, with the verdict of the execution |
| `LinkedRuns.LinkedComesBackExactlyWhen` | ebpf-mon-common/src/policy/linker.rs:8-60 | every run on a compiled and linked policy gives it back if and only if each executed path without a rule of its own is canonical, unclassified, under no prefix rule of its scope, and in a directory whose rules, those added for executed paths included, do not collapse |
| `AppArmorPrinter.LineVec.DedupSort` | ebpf-mon-common/src/policy/backends/apparmor.rs:215-218 | in-place sort and deduplication: same elements, strictly increasing |
| `AppArmorPrinter.SortedSetUnique` | ebpf-mon-common/src/policy/backends/apparmor.rs:215-218 | a strictly increasing list is determined by its set of elements |
| `AppArmorPrinter.Output.PushSection` | ebpf-mon-common/src/policy/backends/apparmor.rs:220-231 | appends the section header and indented lines, or nothing for an empty section |
| `AppArmorPrinter.LowerToAppArmor` | ebpf-mon-common/src/policy/backends/apparmor.rs:39-138 | the text is a profile of the lowered lines and the warnings are theirs, in rule order; what the lines say is told by the `PrintedLines`, `NetworkLines` and `RoundTrip` rows |
| `AppArmorPrinter.ProfileIgnoresOrder` | ebpf-mon-common/src/policy/backends/apparmor.rs:39-138 | the text depends only on the set of lowered lines |
| `AppArmorPrinter.PrintedOrReported` | ebpf-mon-common/src/policy/backends/apparmor.rs:39-138 | no rule disappears silently: it is printed or reported as dropped |
| `PrintedLines.PrintedClassMatches` | ebpf-mon-common/src/policy/backends/apparmor.rs:155-176 | the text printed for each class but the regular one begins with the class's literal root and matches, under full wildcard matching, exactly a set of paths given without the text: for the catch-all class everything below a component of /proc, for the global one the entries of /proc |
| `PrintedLines.ClassLineGrants` | ebpf-mon-common/src/policy/backends/apparmor.rs:45-74 | a rule on a class has a line in the profile, with its verdict and permission, whose glob grants exactly those paths |
| `PrintedLines.PlainLinesAre` | ebpf-mon-common/src/policy/backends/apparmor.rs:45-86 | the lines of exact paths, prefixes and executables, spelled out |
| `PrintedLines.WarnedExactlyWhen` | ebpf-mon-common/src/policy/backends/apparmor.rs:45-121 | a rule is dropped, approximated or said to need network mediation exactly when its object and action are of the listed kinds, and its line goes into the section of its kind |
| `PrintedLines.WarningsInOrder` | ebpf-mon-common/src/policy/backends/apparmor.rs:45-121 | warnings come in rule order, one per rule that loses something |
| `PrintedLines.AuditPrintsAsAllow` | ebpf-mon-common/src/policy/backends/apparmor.rs:46-121 | an audited rule is printed as an allowing one without a warning |
| `PrintedLines.ProfileSpelled` | ebpf-mon-common/src/policy/backends/apparmor.rs:127-137 | the whole text, spelled out: header with both flags, the non-empty sections under their titles, and the brace |
| `PrintedLines.WildcardReadExactlyWhen` | ebpf-mon-common/src/policy/frontends/apparmor.rs:155-176 | read as a prefix, a star for the entries of a directory also covers exactly what lies deeper, and a double star behind a name loses exactly what begins with the name without being in the directory of that name |
| `NetworkLines.NetLineIs` | ebpf-mon-common/src/policy/backends/apparmor.rs:88-110 | a connection is printed with its address and port as the peer's, a listening socket with its own and no peer |
| `NetworkLines.BindReadsAsConnect` | ebpf-mon-common/src/policy/backends/apparmor.rs:88-110 | the line of a listening socket is read back as a rule for connecting to the address it listens on |
| `ByteOrder.LessIsByteOrder` | ebpf-mon-common/src/policy/backends/apparmor.rs:215-218 | lines are compared as their UTF-8 bytes are |
| `ByteOrder.SortedByBytes` | ebpf-mon-common/src/policy/backends/apparmor.rs:215-218 | a sorted section is strictly increasing in the bytes of its lines |
| `ByteOrder.SameBytesSameText` | ebpf-mon/src/enforcement.rs:242-247 | different paths have different bytes, so the entry of a rule is about its own path alone, hash collisions aside |
| `AppArmorParser.StripQualifiers` | ebpf-mon-common/src/policy/frontends/apparmor.rs:102-116 | the loop removes leading qualifiers in any combination |
| `AppArmorParser.ParseIpPort` | ebpf-mon-common/src/policy/frontends/apparmor.rs:266-279 | the loop over words keeps the last well-formed address and port |
| `AppArmorParser.ParseNetwork` | ebpf-mon-common/src/policy/frontends/apparmor.rs:230-255 | the network rule a line stands for |
| `AppArmorParser.ParseLine` | ebpf-mon-common/src/policy/frontends/apparmor.rs:45-94 | the statements of the loop body find the items of the line, or crash; which items these are is told by the `ParsedLines`, `NetworkLines` and `RoundTrip` rows |
| `AppArmorParser.ParseAppArmor` | ebpf-mon-common/src/policy/frontends/apparmor.rs:37-97 | the items of all lines in order, as numbered rules; no result exactly when some line crashes the parser |
| `AppArmorParser.LineCrashesExactlyWhen` | ebpf-mon-common/src/policy/frontends/apparmor.rs:127-153 | a line crashes the parser if and only if, trimmed and without verdict and qualifiers, it is no network line, begins with neither a quote nor permissions followed by a path, and its last white space is outside ASCII |
| `AppArmorParser.NoBreakSpaceCrashes` | ebpf-mon-common/src/policy/frontends/apparmor.rs:127-153 | a path, a no-break space and a permission is such a line |
| `ParsedLines.PermissionsRead` | ebpf-mon-common/src/policy/frontends/apparmor.rs:45-153 | every permission token on every spellable absolute path, before or after the path, with the verdict word first or missing and any qualifiers: the line asks exactly for a read if the token has an r, a write if it has a w or an a, an execution if it has an x, each once, with the verdict of its word |
| `ParsedLines.VerdictReadExactlyWhen` | ebpf-mon-common/src/policy/frontends/apparmor.rs:64-74 | an unquoted rule that asks for something is read as written if and only if no qualifier stands before its verdict word; after one the word becomes part of the path and the line allows |
| `ParsedLines.QualifierHidesVerdict` | ebpf-mon-common/src/policy/frontends/apparmor.rs:64-74 | what such a line is read as: an allowing rule for the path that starts with the verdict word |
| `ParsedLines.WildcardIsPrefix` | ebpf-mon-common/src/policy/frontends/apparmor.rs:155-176 | a glob ending in two stars, or in a slash and a star, that is no class's text becomes the prefix of its directory, with a slash |
| `ParsedLines.QuotedIsNeverChecked` | ebpf-mon-common/src/policy/frontends/apparmor.rs:128-135 | after a quoted path any text stands for permissions, and is searched for the letters |
| `ParsedLines.PassedOverExactlyWhen` | ebpf-mon-common/src/policy/frontends/apparmor.rs:136-152 | an unquoted rule is passed over if and only if neither permissions lead it with a path following, nor a permission token ends it behind white space and something before, unless the parser crashes on it |
| `ParsedLines.PreambleSkipped` | ebpf-mon-common/src/policy/frontends/apparmor.rs:46-60 | comments, preamble lines, braces and opening lines yield no rule |
| `ParsedLines.OnlyTheMarkSilences` | ebpf-mon-common/src/policy/frontends/apparmor.rs:46-60 | a rule behind a hash or an at sign yields nothing, and without the mark it is read |
| `ParsedLines.ReturnsAreIgnored` | ebpf-mon-common/src/policy/frontends/apparmor.rs:41-42 | a profile with carriage returns before its newlines has the same lines |
| `ParsedLines.ParsedRuleIs` | ebpf-mon-common/src/policy/frontends/apparmor.rs:178-228 | the rules are numbered from one in line order, for every subject, with the source of their kind and no observations |
| `NetworkLines.AddressOfDecimals` | ebpf-mon-common/src/policy/frontends/apparmor.rs:281-295 | dotted decimals are an address if and only if they are four, each below 256, and the first is the lowest byte |
| `NetworkLines.PortOfRange` | ebpf-mon-common/src/policy/frontends/apparmor.rs:273-275 | of a port range the first port counts, with or without a plus sign |
| `NetworkLines.ProtocolIsLastNamed` | ebpf-mon-common/src/policy/frontends/apparmor.rs:230-238 | the protocol is that of the last word stream, tcp, dgram or udp, commas aside, and none without one |
| `NetworkLines.EndpointIsLastGiven` | ebpf-mon-common/src/policy/frontends/apparmor.rs:240-279 | address and port are the last ones given in the peer, or in the whole line without one |
| `NetworkLines.PeerIsFirst` | ebpf-mon-common/src/policy/frontends/apparmor.rs:257-262 | the peer is the text between the first "peer=(" and the next closing parenthesis |
| `NetworkLines.NoPeer` | ebpf-mon-common/src/policy/frontends/apparmor.rs:257-262 | without the one or the other there is no peer |
| `RoundTrip.ClassTextsDistinct` | ebpf-mon-common/src/policy/frontends/apparmor.rs:155-168 | no two classes share a wildcard text |
| `RoundTrip.Ipv4RoundTrips` | ebpf-mon-common/src/policy/frontends/apparmor.rs:289-295 | printing and parsing any 32-bit address gives it back |
| `RoundTrip.PortRoundTrips` | ebpf-mon-common/src/policy/frontends/apparmor.rs:266-279 | the same for any 32-bit port |
| `RoundTrip.NetworkRoundTrips` | ebpf-mon-common/src/policy/frontends/apparmor.rs:230-279 | the same for a whole TCP or UDP connect rule, address and port each possibly absent |
| `RoundTrip.RuleLineRoundTrips` | ebpf-mon-common/src/policy/backends/apparmor.rs:39-213 | the printed line of an expressible rule parses to that rule and nothing else |
| `RoundTrip.ProfileRoundTrips` | ebpf-mon-common/src/policy/backends/apparmor.rs:39-213 | parsing a printed profile gives exactly the set of its expressible rules, with opens read as reads, sensitivity dropped, and a prefix identified with the class of the same text |
| `RoundTrip.LineRoundTripsExactlyWhen` | ebpf-mon-common/src/policy/frontends/apparmor.rs:155-168 | the line of a printable rule comes back as that rule if and only if it is not about an exact path that is a class text, or ends in two stars, or in a slash and a star; such a path comes back as that class, or as the directory before its star |
| `RoundTrip.ProfileRereads` | ebpf-mon-common/src/policy/backends/apparmor.rs:39-213 | parsing a printed profile gives exactly what its lines are read back as, paths that look like wildcards included |
| `RoundTrip.ProfileRoundTripsExactlyWhen` | ebpf-mon-common/src/policy/backends/apparmor.rs:39-213 | a printed profile comes back with exactly its rules if and only if none of them is about such a path |
| `Fnv.HashBytes` | ebpf-mon-common/src/policy/types.rs:38-50 | the loop computes 64-bit FNV-1a up to the first NUL |
| `Fnv.HashStopsAtNul` | ebpf-mon-common/src/policy/types.rs:38-50 | nothing after the first NUL reaches the hash |
| `Fnv.PublishedValues` | ebpf-mon-common/src/policy/types.rs:38-50 | the hash has the published 64-bit FNV-1a values |
| `Fnv.StepCancels` | ebpf-mon-common/src/policy/types.rs:38-50 | one step loses nothing: equal results from equal states mean equal bytes, and conversely |
| `Fnv.OneByteNeverCollides` | ebpf-mon-common/src/policy/types.rs:38-50 | two NUL-free paths of one length that differ in one byte have different hashes |
| `KernelPath.Path.PrependPathSep` | ebpf-mon-common/src/path/bpf.rs:159-167 | writes '/' before the text, or over its first byte once the buffer is full |
| `KernelPath.Path.PrependQstrName` | ebpf-mon-common/src/path/bpf.rs:181-219 | writes a component of at most 255 bytes if it fits, else changes nothing and fails |
| `KernelPath.Path.CoreResolve` | ebpf-mon-common/src/path/bpf.rs:99-157 | the bounded walk over dentries and mounts leaves what the recursive description says, at the buffer's tail, failures included |
| `KernelPath.ResolveIsAbsolutePath` | ebpf-mon-common/src/path/bpf.rs:99-157 | on a zeroed buffer the walk succeeds with exactly "/" and the names from the root down, joined by "/", if and only if the location is readable and fits |
| `KernelPath.CompleteIsStable` | ebpf-mon-common/src/path/bpf.rs:99-157 | a location that reached a root does not depend on the step bound |
| `KernelPath.UnreadableFails` | ebpf-mon-common/src/path/bpf.rs:99-157 | a walk over unreadable memory reports failure |
| `KernelPath.Path.HashPath` | ebpf-mon-common/src/path.rs:390-409 | the loop hashes the bytes its index arithmetic reads |
| `KernelPath.SeenExactlyWhen` | ebpf-mon-common/src/path.rs:272-280 | those bytes are the path if and only if it is at most 769 bytes long (or fills the buffer and is its own rotation) |
| `KernelPath.KernelHashIsUserHash` | ebpf-mon-common/src/path.rs:390-409 | the kernel hash equals the userspace hash up to 769 bytes; beyond, it is the hash of the last 769 bytes |
| `KernelPath.AppendModeSeesThePath` | ebpf-mon-common/src/path.rs:272-280 | in append mode the readers always see the path |
| `KernelPath.Path.ToClassifyBuffer` | ebpf-mon-common/src/path.rs:312-378 | the three copy cases, with the index clamp of the short one |
| `Classifier.ClassifyPath` | ebpf-mon-common/src/fs/bpf.rs:11-138 | the comparison chains, the digit scan and the docker search find the class of the specification, whose paths the `KernelClasses` rows tell |
| `Classifier.HasDocker` | ebpf-mon-common/src/fs/bpf.rs:572-596 | the unrolled search finds "/docker/" at one of its 120 positions if and only if it is there |
| `Classifier.ClassifierReads` | ebpf-mon-common/src/path.rs:312-378 | of a resolved path the classifier reads the first 128 bytes, or of a shorter one 32 bytes filled up with its last byte, then zeros |
| `KernelClasses.TreeExactly` | ebpf-mon-common/src/fs/bpf.rs:11-70 | a path gets a class of /proc, /sys, /run, /dev or /tmp if and only if it lies there, and the regular class if and only if in none of them |
| `KernelClasses.SysExactly` | ebpf-mon-common/src/fs/bpf.rs:446-489 | the four /sys classes as sets of paths: with a docker component; else beginning with /sys/fs/cgroup; else under /sys/class/net/; else the rest of /sys |
| `KernelClasses.RunExactly` | ebpf-mon-common/src/fs/bpf.rs:491-521 | the /run classes: under /run/docker/, under /run/user/, and the rest of /run |
| `KernelClasses.DevExactly` | ebpf-mon-common/src/fs/bpf.rs:523-551 | the /dev classes: under /dev/pts/, under /dev/shm/, and the rest of /dev |
| `KernelClasses.TmpExactly` | ebpf-mon-common/src/fs/bpf.rs:553-568 | the /tmp classes: beginning with /tmp/tmp, and the rest of /tmp |
| `KernelClasses.ProcessExactly` | ebpf-mon-common/src/fs/bpf.rs:72-414 | under /proc/self/ or a component of one to seven digits, a path is in a class if and only if its tail begins with the class's name, which for net, ns, stat and task must end there, and in the catch-all class if and only if with no such name |
| `KernelClasses.ProcGlobalExactly` | ebpf-mon-common/src/fs/bpf.rs:416-444 | elsewhere in /proc a path is in the sysctl class under /proc/sys/, in the network class under /proc/net/, and else in the global one |
| `Classifier.KernelClassRooted` | ebpf-mon-common/src/fs/bpf.rs:11-568 | every path put into a class other than the two cgroup ones starts with the class's literal root |
| `Classifier.ResolvedPathIsRooted` | ebpf-mon-common/src/path.rs:345-375 | the same for resolved paths, although the copy of a short path is padded with its last byte |
| `Classifier.DockerClassIsWider` | ebpf-mon-common/src/fs/bpf.rs:451-454 | the docker class is exactly the /sys paths with a docker component; it is rooted exactly under /sys/fs/cgroup/, which some of its paths are not |
| `Classifier.CgroupClassIsWider` | ebpf-mon-common/src/fs/bpf.rs:456-469 | the other cgroup class is exactly the paths beginning with /sys/fs/cgroup and without a docker component; of these exactly the ones with a slash next are under the literal root |
| `ClassifierAgreement.AgreesExactlyWhen` | ebpf-mon-common/src/fs/bpf.rs:72-414 | for a path the compiler puts into a class other than the catch-all, the kernel agrees if and only if the component after /proc/ is self or one to seven digits and, for stat, the path is followed by a NUL or '/' |
| `ClassifierAgreement.AgreesOnPadded` | ebpf-mon-common/src/policy/passes.rs:120-148 | on zero-padded paths the two agree exactly on process directories |
| `ClassifierAgreement.AgreesOnResolved` | ebpf-mon-common/src/path.rs:345-375 | on resolved paths the stat class is never recognised, every other one exactly on process directories |
| `CatchAllAgreement.KernelCatchAll` | ebpf-mon-common/src/fs/bpf.rs:72-414 | the kernel puts a /proc/<component>/<tail> path into the catch-all class if and only if the component is a process directory and the tail, with the byte that follows it, takes none of the kernel's names, most of which it compares by their first letters |
| `CatchAllAgreement.CatchAllOnPadded` | ebpf-mon-common/src/policy/passes.rs:120-148 | on zero-padded paths the two classifiers agree on the compiler's catch-all class exactly on process directories whose tail starts with no such name and is none of ns, net, stat and task |
| `CatchAllAgreement.CatchAllOnResolved` | ebpf-mon-common/src/path.rs:345-375 | on resolved paths exactly on process directories whose tail starts with no such name and is not com, which the repeated last byte turns into comm |
| `ClassMatching.OwnTextMatchesExactlyWhen` | ebpf-mon-common/src/policy/passes.rs:120-148 | the printed text of the class a path is put into matches the path, under full wildcard matching, if and only if the class is a single file's, or the path lies one level below the class's directory, or it spells the placeholder of the catch-all class out |
| `Loader.LoadedPolicy.constructor` | ebpf-mon/src/enforcement.rs:44-102 | loading binds the rules for the first cgroup |
| `Loader.LoadedPolicy.ApplyOne` | ebpf-mon/src/enforcement.rs:235-332 | one rule writes its one entry of the specification and nothing else; what the entries mean to the hooks is told from the rule list by the `EnforcementSpec` and `Refinement` rows |
| `Loader.LoadedPolicy.Bind` | ebpf-mon/src/enforcement.rs:162-381 | announces the cgroup, applies all rules in order and expands the categories |
| `Loader.LoadedPolicy.Rebind` | ebpf-mon/src/enforcement.rs:182-201 | binds the new cgroup and takes the old one off the allowlist |
| `EnforcementSpec.MaskMeans` | ebpf-mon/src/enforcement.rs:242-262 | the mask of a path exists exactly when a rule names it, and holds exactly the accesses allowed by a rule no later rule for the path contradicts |
| `EnforcementSpec.MaskTwice` | ebpf-mon/src/enforcement.rs:242-262 | applying the same rules again leaves every mask as it was |
| `EnforcementSpec.LastVerdict` | ebpf-mon/src/enforcement.rs:263-326 | the verdict kept for a class, executable or endpoint is that of the last rule for it |
| `EnforcementSpec.PrefixesAfter` | ebpf-mon/src/enforcement.rs:277-298 | the first 64 prefix entries fill slots 0, 1, ... in rule order and no other key changes |
| `Enforcement.ExpandAt` | ebpf-mon/src/enforcement.rs:334-378 | after expansion a class has its own entry, else an allowing one exactly if a class of its category had an entry |
| `Enforcement.BoundStaysConsistent` | ebpf-mon/src/enforcement.rs:162-381 | binding any cgroup, new or bound before, keeps the entries of every bound cgroup exactly what the rules say |
| `Hooks.MatchesEntry` | ebpf-mon-ebpf/src/enforcement.rs:403-421 | the masked-index byte loop decides whether the entry is a prefix of what the readers see |
| `Hooks.CheckPrefixMatch` | ebpf-mon-ebpf/src/enforcement.rs:384-437 | the slot loop returns the verdict of the first matching slot before the first empty one |
| `Hooks.EnforceFileOpen` | ebpf-mon-ebpf/src/enforcement.rs:23-160 | the hook returns and reports what the decision on mask, class, prefixes and default enacts; the decision, access mode and reports are those of the `Refinement` rows |
| `Hooks.EnforceBprmCheck` | ebpf-mon-ebpf/src/enforcement.rs:211-285 | the same for an execution |
| `Hooks.EnforceSocketConnect` | ebpf-mon-ebpf/src/enforcement.rs:297-372 | the same for a connection: endpoint, then address with port 0, then default |
| `Hooks.SkbEgressVerdict` | ebpf-mon-ebpf/src/network.rs:113-154 | a packet passes if and only if the connect hook would return 0 for the published cgroup, address and port |
| `Hooks.AuditMirrorsEnforcing` | ebpf-mon-ebpf/src/enforcement.rs:74-372 | on the same maps, audit mode never refuses and reports exactly the requests that enforcing mode refuses, in all three hooks |
| `Refinement.FileOpenFollowsRules` | ebpf-mon-ebpf/src/enforcement.rs:74-160 | on maps built by any loads, with no hash collision, an open passes if and only if the rule list allows it: exact rules alone where there is one, then the class or its category, then the first of the first 64 prefixes |
| `Refinement.LoadedPrefixesAreWhole` | ebpf-mon/src/enforcement.rs:277-298 | with at most 64 prefixes of 1 to 128 bytes that tier is the first whole prefix in rule order |
| `Refinement.SlotsScan` | ebpf-mon-ebpf/src/enforcement.rs:397-436 | stopping at the first empty slot misses no entry |
| `Refinement.ExecFollowsRules` | ebpf-mon-ebpf/src/enforcement.rs:211-285 | an execution passes if and only if the last rule for the binary exists and does not deny |
| `Refinement.ExecReportsFollowRules` | ebpf-mon-ebpf/src/enforcement.rs:181-285 | the same for an execution, with action 5 |
| `Refinement.ConnectFollowsRules` | ebpf-mon-ebpf/src/enforcement.rs:297-372 | a connection passes if and only if a rule for connecting to the address at the port, else one for port 0 or no port, exists and the last such one does not deny |
| `Refinement.ConnectReportsFollowRules` | ebpf-mon-ebpf/src/enforcement.rs:297-372 | the same reports for a connection, with action 3 and the address and port as its number |
| `Refinement.HooksSeeTheFile` | ebpf-mon-ebpf/src/enforcement.rs:91-101 | of a file located within 769 bytes the hooks see exactly its absolute path |
| `Refinement.RunsStayConsistent` | ebpf-mon/src/enforcement.rs:182-201 | after any run of rebinds every entry is what the rules say, and the last id alone is enforced exactly when the last rebind changed the id |
| `Refinement.RebindIsFreshLoad` | ebpf-mon/src/enforcement.rs:182-201 | after such a run every decision for the current cgroup equals that of a fresh load for it, returns to earlier ids over stale entries included |
| `Refinement.LocatedOpenFollowsRules` | ebpf-mon-ebpf/src/enforcement.rs:74-160 | the whole chain for any located file that fits the buffer: the hook returns 0 if and only if the policy is audit-only or the rule list allows the bytes the absolute path counts as: itself up to 769 bytes, its last 769 beyond, its rotation at 1024 |
| `Refinement.ListedOpenFollowsModes` | ebpf-mon-ebpf/src/enforcement.rs:23-160 | for a located file some exact rule names, the hook returns 0 if and only if the policy is audit-only or every standing rule asked for is there: with low flag bits other than 1 one allowing to open or read the path, with bits other than 0 one allowing to write it, neither followed by a rule for the path that does not allow; unreadable flags count as 0 |
| `Refinement.OpenReportsFollowRules` | ebpf-mon-ebpf/src/enforcement.rs:74-209 | an open reports nothing if allowed, one event in both modes if an exact rule or no rule at all refuses it, and one only when auditing if a class or a prefix does; the event holds cgroup, path hash, action 0, verdict 0 and the number 0, the class's or 255 |
| `Refinement.PrefixUnlessShadowed` | ebpf-mon-ebpf/src/enforcement.rs:103-147 | in a list of allowing rules a path under a loaded prefix may be opened in either way, unless an exact rule names it: then only the accesses exact rules name remain |
| `Compile.CompileProfile` | ebpf-mon/src/main.rs:112-150 | canonicalization alone or the whole pipeline, then linking, with the conflicts of what was linked |
| `Compile.RunKeepsAllow` | ebpf-mon-common/src/policy/passes.rs:506-535 | allowing rules compile to allowing rules |
| `Compile.LinkedExecRuns` | ebpf-mon-common/src/policy/linker.rs:3-60 | in a linked list of allowing rules, what some rule executes may be executed and opened for reading |
| `Compile.ObservedExecRuns` | ebpf-mon/src/main.rs:112-150 | from observation to enforcement: compiled with or without optimization, every binary seen executed may be executed and opened for reading |
| `CompiledAccess.EveryRunAllowsExactlyWhen` | ebpf-mon/src/main.rs:112-150 | over all runs on given allowing rules, an access to any path is sure to be allowed if and only if the rules keep it: a path still named by an exact or exec rule keeps the accesses it is named with; any other is allowed if the class the kernel finds or its category is listed, or a prefix reaches it and fewer than 64 others do not |
| `CompiledAccess.RunAllowsExactlyWhen` | ebpf-mon/src/main.rs:112-150 | with at most 64 prefixes the same condition decides every single run |
| `Translator.ProfileTranslator.TranslateFsEvent` | ebpf-mon-common/src/policy/translator.rs:28-65 | a file event becomes an allowing rule for its path if the kernel found no class for it, else for the class alone |
| `Translator.TranslateAllEvents` | ebpf-mon-common/src/policy/translator.rs:150-248 | file, network and process events become rules in order, numbered from one, each counting its event's frequency |
| `Translator.RecordedIdsDistinct` | ebpf-mon-common/src/policy/translator.rs:21-25 | their ids are distinct as long as ids last |
| `Translator.RecordedAlikeExactlyWhen` | ebpf-mon-common/src/policy/translator.rs:28-138 | two events are recorded as one rule if and only if program, user, cgroup and what was done agree: for a file its class, the path if it has none, the access and the sensitivity |
| `ObservedEvents.RegularIsOutside` | ebpf-mon-common/src/fs/bpf.rs:11-70 | the kernel finds no class for a resolved path if and only if it lies outside /proc/, /sys/, /run/, /dev/ and /tmp/ |
| `ObservedEvents.ObservedStaysAllowedExactlyWhen` | ebpf-mon-common/src/policy/translator.rs:39-43 | compiled with any allowing rules, a recorded access is sure to stay allowed if and only if, where a rule still names its path, one names it with this access, and elsewhere its class or category is listed or fewer than 64 prefixes miss the path; the paths of the two cgroup classes alone may lack a prefix that reaches them |
| `ObservedEvents.ObservedKeptWhileSlotsLast` | ebpf-mon-common/src/policy/translator.rs:39-43 | with at most 64 prefixes a recorded access outside the two cgroup classes is lost if and only if its path is still named but not with this access |
| `ObservedEvents.ClassedAccessStaysExactlyWhen` | ebpf-mon-common/src/policy/translator.rs:150-248 | in a profile of events alone and with at most 64 prefixes, an access to a path the kernel classes, the cgroup classes aside, stays allowed if and only if it is no write to a path that was also executed |
| `ObservedReads.ObservedReadRefused` | ebpf-mon-common/src/policy/passes.rs:213-312 | for every absolute canonical directory of at most 128 bytes outside the classed trees that a configuration lets collapse: reads of enough files and a write of one of them, of which every run refuses the read of that one |
| `ObservedReads.ReadsAreKeptExactlyWhen` | ebpf-mon-common/src/policy/passes.rs:184-312 | a configuration keeps every recorded read of every profile, in every run, if and only if it lets no such directory collapse |
| `ObservedReads.DefaultLosesReads` | ebpf-mon-common/src/policy/passes.rs:184-196 | the built-in configuration does not keep them all |
| `ClassifiedRules.ClassifiedRuleKeptExactlyWhen` | ebpf-mon-common/src/policy/passes.rs:120-148 | compiled alone, an allowing rule for an exact path the compiler classifies still allows the path if and only if the kernel's class for it is the compiler's or of the same category |
| `ClassifiedRules.SysctlLineRefused` | ebpf-mon-common/src/policy/passes.rs:120-148 | an AppArmor profile of the one line that allows reading /proc/sys/x parses to such a rule, and compiled it refuses that read, whatever the configuration |
| `EndToEnd.OpenSucceedsExactlyWhen` | ebpf-mon-ebpf/src/enforcement.rs:74-160 | from starting rules to return code: for a located file and allowing rules without a hash collision, after any restarts, the hook returns 0 in every run if and only if the policy is audit-only or the rules keep the access: reading unless the low flag bits are 1, writing unless they are 0 |
| `EndToEnd.RecordedOpenSucceedsExactlyWhen` | ebpf-mon-ebpf/src/enforcement.rs:74-160 | a recorded access made again with low flag bits 1 for a write and 0 for a read, on a path of at most 769 bytes, with at most 64 prefixes: the hook returns 0 in every run if and only if the policy is audit-only or, should a rule still name the path, one names it with this access |
| `EndToEnd.RecordedReadsGoThrough` | ebpf-mon-ebpf/src/enforcement.rs:74-160 | where no watchable directory may collapse, the hook lets every recorded read through again, whatever else was recorded and however often the container was restarted |
| `EndToEnd.ConnectSucceedsExactlyWhen` | ebpf-mon-ebpf/src/enforcement.rs:297-372 | from starting rules to return code, for allowing rules, in every run and after any restarts: a connection passes if and only if the policy is audit-only or some starting rule connects to the address at this port, at port 0 or at any port |
| `EndToEnd.RecordedConnectionsGoThrough` | ebpf-mon-common/src/policy/translator.rs:70-106 | after observing a container, exactly the endpoints it was seen connecting to may be connected to; one recorded with port 0 opens all ports of its address |
| `EndToEnd.ExecSucceedsExactlyWhen` | ebpf-mon-ebpf/src/enforcement.rs:211-285 | the same for an execution of a located file: if and only if some starting rule executes its path |
| `EndToEnd.RecordedExecutionsGoThrough` | ebpf-mon-common/src/policy/translator.rs:108-138 | after observing a container, exactly the programs it was seen executing may be executed, in every run and after every restart |
| `Restart.Channel.TryRecv` | ebpf-mon/src/main.rs:656-659 | messages come out in the order they were queued |
| `Restart.Watcher.Turn` | ebpf-mon/src/container.rs:357-450 | one loop turn of the watcher for every answer of the container runtime |
| `Restart.Watcher.SendCgroupUpdate` | ebpf-mon/src/container.rs:453-492 | announces the cgroup of a restarted container, or an error |
| `Restart.Consumer.Turn` | ebpf-mon/src/main.rs:656-729 | one loop turn of the consumer: filter, enforcement maps and current id move together |
| `RestartRuns.RunsKeep` | ebpf-mon/src/main.rs:636-730 | the protocol invariant holds after every interleaving of watcher and consumer turns |
| `RestartRuns.OneCgroupEverywhere` | ebpf-mon/src/main.rs:655-730 | after every interleaving the monitor filter, the enforcement allowlist and the egress slot name exactly the consumer's cgroup, which is the last one delivered |
| `RestartRuns.DecisionsMoveAlong` | ebpf-mon/src/main.rs:691-703 | and the hooks decide for it as after a fresh load |
| `RestartRuns.WatcherIsLastQueued` | ebpf-mon/src/container.rs:357-492 | while the consumer runs, the watcher's cgroup is the last one queued, or the consumer's when none is |
| `RestartRuns.DrainReaches` | ebpf-mon/src/main.rs:656-729 | working off the queue brings the consumer to the last cgroup announced before the first error, and it keeps running if and only if there is none |
| `RestartRuns.DrainStops` | ebpf-mon/src/main.rs:656-729 | one turn after the queue is worked off, the consumer has stopped if and only if an error was in it or the watcher has ended |
| `RestartRuns.ConsumerCatchesUp` | ebpf-mon/src/main.rs:656-729 | without an error in the queue it ends at the watcher's cgroup |
| `RestartRuns.RunsUntilError` | ebpf-mon/src/main.rs:709-724 | the consumer stops only on a delivered error or after the watcher has ended |
| `RestartRuns.FailedPollLosesTheContainer` | ebpf-mon/src/container.rs:443-446 | one failed poll stops the consumer for good: a later move of the container is followed by neither filter nor policy, whatever happens next |
| `RestartRuns.ErrorQueuedExactlyWhen` | ebpf-mon/src/container.rs:357-492 | the message that ends the consumer is queued if and only if some poll of the event sequence failed, or no longer found a running container, or found a restarted one with no resolvable cgroup |
| `RestartRuns.FollowsExactlyWhen` | ebpf-mon/src/main.rs:656-729 | while the watcher runs, the consumer, its queue worked off, still follows if and only if no poll so far was one of those |
| `RestartRuns.PaceFollows` | ebpf-mon/src/container.rs:357-450 | after every interleaving a looping watcher polls every 2000 ms while it last saw the container running, every 100 ms once it saw it stopped, and every 5000 ms once the runtime no longer knew it, until it sees it running again |
| `RestartRuns.NextPollQueues` | ebpf-mon/src/container.rs:357-492 | after every interleaving, while both sides run, the next poll queues exactly: one stop when the container is first seen stopped, its cgroup when it runs again or in another one than last announced, an error when the poll fails, a running container is gone or a restarted one's cgroup cannot be told, and nothing else |
| `RestartRuns.NameIsLastQueued` | ebpf-mon/src/container.rs:357-492 | until an error is queued, the watcher's container id is the one it last announced |
| `UdpFlows.KeyIsTheFlow` | ebpf-mon-ebpf/src/network.rs:329-345 | normalized keys are equal if and only if the packets belong to the same flow in the same or opposite direction |
| `UdpFlows.NetworkTables.IsNewUdpFlow` | ebpf-mon-ebpf/src/network.rs:350-370 | new means absent or past its expiry; then the expiry is renewed |
| `UdpFlows.NetworkTables.DeduplicateAndSend` | ebpf-mon-ebpf/src/network.rs:55-82 | the same for events, with their own time to live |
| `UdpFlows.ReportedExactlyWhen` | ebpf-mon-ebpf/src/network.rs:350-370 | on every trace with a nondecreasing clock a packet is reported if and only if it lies more than the time to live after every earlier report of its key |

## Left out

- Confidence values of rules (32-bit floats): carried along by the passes, read by none of the modelled decisions.
- Log lines, warning texts, the friction report, capability checks and pass statistics of the loader: formatting and counters.
- JSON decoding of events and configurations: library behaviour; the model starts from decoded events and a decoded configuration.
- Events whose recorded path text is not the resolved path, as when its bytes are not UTF-8: the theorems about recorded accesses take genuine events.
- Kernel structure offsets, probe-read details, perf buffers and program attachment: the model takes the values they return as inputs.
- `resolve_from_dentry`: the same walk as `core_resolve` started from the process's root mount.
- `as_slice`, `get_byte` and `starts_with` of the path buffer: further readers with the same index arithmetic, not used by the hooks.
- Path metadata (inode numbers, times) and the copy-from-string constructors of the path buffer: not used by the hooks.
- Sensitivity and cross-process flags of the kernel classifier: only monitoring events use them.
- Capacity and eviction of BPF maps, and failing map writes: every insertion is assumed to succeed and nothing is evicted.
- Container runtime commands and cgroup files: their answers are inputs of the watcher's turns.
- Packet parsing, docker-proxy source attribution and the rest of `process_skb`: only the egress verdict, the flow key and the two expiry tables are modelled.
- Event frequency counting in `events.rs`: its equality and hash disagree for some events, so the counts are not determined by the code.
- Arithmetic overflow checks: 64-bit counters wrap, as in a release build.
- Fnv.HashBytes: collision resistance is not claimed; `Refinement` takes the absence of collisions between a path and the rules' paths as an explicit hypothesis.
- RoundTrip.ProfileRoundTrips: rules the AppArmor text cannot express at all (audit verdicts, command names, incoming connections, relative paths, paths with a newline or with both white space and a quote) are outside the fragment; `AppArmorPrinter.PrintedOrReported` says what the printer does with them.
- CompiledAccess.EveryRunAllowsExactlyWhen: states the result of the optimizing compiler for profiles of allowing rules, which is what observation produces; hand-written denials are covered by the rule-list theorems of `Refinement` instead.
