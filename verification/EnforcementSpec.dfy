/** What a rule list means to the hooks, and the contents the loader gives each map for it. */
module EnforcementSpec {
  import opened Strings
  import opened PathPatterns
  import opened Ir
  import opened Loader
  import Fnv

  function Get<K(==), V>(m: map<K, V>, k: K): Option<V> { if k in m then Some(m[k]) else None }

  // ---- exact paths: a mask ----

  predicate HitsHash(r: Rule, hash: u64) { IsPathRule(r) && Fnv.Hash(Utf8(r.obj.file.pattern.path)) == hash }

  /** The mask of `hash` once `rules` are applied over `start`. */
  function MaskAfter(rules: seq<Rule>, hash: u64, start: Option<bv8>): Option<bv8> {
    if rules == [] then start
    else
      var before := MaskAfter(rules[..|rules| - 1], hash, start);
      var r := rules[|rules| - 1];
      if !HitsHash(r, hash) then before
      else if r.verdict != Allow then Some(0)
      else Some((if before.Some? then before.value else 0) | AccessBit(r.action))
  }

  lemma {:induction false} PathsAfter(cgroup: u64, l: Loading, rules: seq<Rule>, key: PathPolicyKey)
    requires l.slot <= MAX_PREFIX_SLOTS
    ensures Get(ApplyAll(cgroup, l, rules).maps.filePaths, key) ==
            if key.cgroup == cgroup then MaskAfter(rules, key.pathHash, Get(l.maps.filePaths, key))
            else Get(l.maps.filePaths, key)
  {
    hide Fnv.Hash, Utf8, PatternsWith, PrefixesWith, ExecsWith, NetsWith;
    if rules != [] {
      PathsAfter(cgroup, l, rules[..|rules| - 1], key);
    }
  }

  /** Some rule for the path allows the access, and no later rule for the path does otherwise. */
  predicate Permits(rules: seq<Rule>, hash: u64, bit: bv8) {
    exists i :: 0 <= i < |rules| && PermitsAt(rules, hash, bit, i)
  }

  predicate PermitsAt(rules: seq<Rule>, hash: u64, bit: bv8, i: int)
    requires 0 <= i < |rules|
  {
    && HitsHash(rules[i], hash) && rules[i].verdict == Allow && AccessBit(rules[i].action) == bit
    && forall j :: i < j < |rules| && HitsHash(rules[j], hash) ==> rules[j].verdict == Allow
  }

  predicate ListedHash(rules: seq<Rule>, hash: u64) { exists i :: 0 <= i < |rules| && HitsHash(rules[i], hash) }

  lemma MaskBits(m: bv8, bit: bv8)
    requires bit == ACCESS_READ || bit == ACCESS_WRITE
    ensures (m | ACCESS_READ) & bit != 0 <==> m & bit != 0 || bit == ACCESS_READ
    ensures (m | ACCESS_WRITE) & bit != 0 <==> m & bit != 0 || bit == ACCESS_WRITE
    ensures (0 as bv8) & bit == 0
    ensures (0 as bv8) | ACCESS_READ == ACCESS_READ && (0 as bv8) | ACCESS_WRITE == ACCESS_WRITE
  {
  }

  lemma PermitsExtends(rules: seq<Rule>, hash: u64, bit: bv8)
    requires rules != []
    ensures var n := |rules| - 1; var r, front := rules[n], rules[..n];
      Permits(rules, hash, bit) <==>
      if !HitsHash(r, hash) then Permits(front, hash, bit)
      else r.verdict == Allow && (AccessBit(r.action) == bit || Permits(front, hash, bit))
  {
    hide Fnv.Hash, Utf8, HitsHash;
    var n := |rules| - 1;
    var r, front := rules[n], rules[..n];
    if Permits(front, hash, bit) && (HitsHash(r, hash) ==> r.verdict == Allow) {
      var i :| 0 <= i < n && PermitsAt(front, hash, bit, i);
      assert forall j :: i < j < n ==> rules[j] == front[j];
      assert PermitsAt(rules, hash, bit, i);
    }
    if HitsHash(r, hash) && r.verdict == Allow && AccessBit(r.action) == bit {
      assert PermitsAt(rules, hash, bit, n);
    }
    if Permits(rules, hash, bit) {
      var i :| 0 <= i < |rules| && PermitsAt(rules, hash, bit, i);
      if i < n {
        assert forall j :: i < j < n ==> rules[j] == front[j];
        assert PermitsAt(front, hash, bit, i);
      }
    }
  }

  /** The mask is there exactly for listed paths, and holds exactly the permitted accesses. */
  lemma {:induction false} MaskMeans(rules: seq<Rule>, hash: u64, bit: bv8)
    requires bit == ACCESS_READ || bit == ACCESS_WRITE
    ensures MaskAfter(rules, hash, None).Some? <==> ListedHash(rules, hash)
    ensures MaskAfter(rules, hash, None).Some? ==>
              (MaskAfter(rules, hash, None).value & bit != 0 <==> Permits(rules, hash, bit))
    ensures MaskAfter(rules, hash, None).None? ==> !Permits(rules, hash, bit)
  {
    hide Fnv.Hash, Utf8, HitsHash, Permits;
    if rules == [] {
      assert !Permits(rules, hash, bit) by { NothingPermitted(hash, bit); }
    } else {
      var n := |rules| - 1;
      var front := rules[..n];
      MaskMeans(front, hash, bit);
      PermitsExtends(rules, hash, bit);
      assert ListedHash(rules, hash) <==> ListedHash(front, hash) || HitsHash(rules[n], hash) by {
        ListedExtends(rules, hash);
      }
      var before := MaskAfter(front, hash, None);
      MaskBits(if before.Some? then before.value else 0, bit);
    }
  }

  lemma NothingPermitted(hash: u64, bit: bv8)
    ensures !Permits([], hash, bit)
  {
  }

  lemma ListedExtends(rules: seq<Rule>, hash: u64)
    requires rules != []
    ensures var n := |rules| - 1;
      ListedHash(rules, hash) <==> ListedHash(rules[..n], hash) || HitsHash(rules[n], hash)
  {
    hide HitsHash;
    var n := |rules| - 1;
    if ListedHash(rules[..n], hash) {
      var i :| 0 <= i < n && HitsHash(rules[..n][i], hash);
      assert HitsHash(rules[i], hash);
    }
    if ListedHash(rules, hash) {
      var i :| 0 <= i < |rules| && HitsHash(rules[i], hash);
      assert i < n ==> HitsHash(rules[..n][i], hash);
    }
  }

  lemma OrBits(x: bv8, m: bv8, bit: bv8)
    ensures x | 0 == x && (x | m) | bit == x | (m | bit) && m | m == m
    ensures (0 as bv8) | bit == bit
  {
  }

  /** A mask built over `x` against one built from nothing: either a refusal wiped `x`, or it is joined. */
  predicate Joined(x: bv8, m: Option<bv8>, over: Option<bv8>) {
    if m.None? then over == Some(x) else over == m || over == Some(x | m.value)
  }

  lemma JoinedWith(x: bv8, m: Option<bv8>, over: Option<bv8>, bit: bv8)
    requires Joined(x, m, over)
    ensures Joined(x, Some((if m.Some? then m.value else 0) | bit),
                   Some((if over.Some? then over.value else 0) | bit))
  {
    if m.None? {
      OrBits(x, 0, bit);
    } else if over != m {
      OrBits(x, m.value, bit);
    }
  }

  /** Applying the rules over a mask left by an earlier load. */
  lemma {:induction false} MaskOver(rules: seq<Rule>, hash: u64, x: bv8)
    ensures Joined(x, MaskAfter(rules, hash, None), MaskAfter(rules, hash, Some(x)))
  {
    hide HitsHash, AccessBit, Joined;
    if rules == [] {
      assert Joined(x, None, Some(x)) by { NothingJoined(x, None); }
    } else {
      var front, r := rules[..|rules| - 1], rules[|rules| - 1];
      MaskOver(front, hash, x);
      JoinedWith(x, MaskAfter(front, hash, None), MaskAfter(front, hash, Some(x)), AccessBit(r.action));
      NothingJoined(x, Some(0));
    }
  }

  lemma NothingJoined(x: bv8, m: Option<bv8>)
    ensures Joined(x, None, Some(x)) && (m.Some? ==> Joined(x, m, m))
  {
  }

  /** Applying the same rules again leaves the mask as it was. */
  lemma MaskTwice(rules: seq<Rule>, hash: u64)
    ensures MaskAfter(rules, hash, MaskAfter(rules, hash, None)) == MaskAfter(rules, hash, None)
  {
    hide MaskAfter;
    var m := MaskAfter(rules, hash, None);
    if m.Some? {
      MaskOver(rules, hash, m.value);
      OrBits(m.value, m.value, 0);
    }
  }

  // ---- classes, executables, endpoints: the last verdict ----

  datatype Target = ClassTarget(class_: PathPattern) | ExecTarget(hash: u64) | NetTarget(ip: u32, port: u32)

  /** A rule for opening, reading or writing a file. */
  predicate OnFile(r: Rule) { r.obj.File? && (r.action == FileOpen || r.action == FileRead || r.action == FileWrite) }

  predicate Hits(r: Rule, t: Target) {
    match t
    case ClassTarget(c) => OnFile(r) && r.obj.file.pattern == Classified(c)
    case ExecTarget(hash) =>
      && r.obj.Process? && r.action == ProcExec && r.obj.process.binary.BinaryPath?
      && Fnv.Hash(Utf8(r.obj.process.binary.path)) == hash
    case NetTarget(ip, port) =>
      && r.obj.Network? && r.action == NetConnect && r.obj.net.dstIp == Some(ip)
      && (r.obj.net.dstPort == Some(port) || (r.obj.net.dstPort.None? && port == 0))
  }

  predicate LastAt(rules: seq<Rule>, t: Target, i: int)
    requires 0 <= i < |rules|
  {
    Hits(rules[i], t) && forall j :: i < j < |rules| ==> !Hits(rules[j], t)
  }

  /** Verdict of the last rule for the target. */
  function LastVerdict(rules: seq<Rule>, t: Target): (v: Option<Verdict>)
    ensures v.None? ==> forall i :: 0 <= i < |rules| ==> !Hits(rules[i], t)
    ensures v.Some? ==> exists i :: 0 <= i < |rules| && LastAt(rules, t, i) && rules[i].verdict == v.value
  {
    if rules == [] then None
    else
      var n := |rules| - 1;
      if Hits(rules[n], t) then
        assert LastAt(rules, t, n);
        Some(rules[n].verdict)
      else
        var v := LastVerdict(rules[..n], t);
        assert v.Some? ==> forall i :: 0 <= i < n && LastAt(rules[..n], t, i) ==> LastAt(rules, t, i) by {
          hide Hits;
          assert forall i :: 0 <= i < n ==> rules[..n][i] == rules[i];
        }
        v
  }

  /** `last` as a map value, or the value left by an earlier load. */
  function Over(last: Option<Verdict>, start: Option<u8>): Option<u8> {
    if last.Some? then Some(VerdictCode(last.value)) else start
  }

  lemma SameCode(c: PathPattern, d: PathPattern)
    ensures c.Code() == d.Code() <==> c == d
  {
    hide PathPattern.Code;
    assert FromCode(c.Code()) == Some(c) && FromCode(d.Code()) == Some(d);
  }

  lemma {:induction false} ClassesAfter(cgroup: u64, l: Loading, rules: seq<Rule>, owner: u64, c: PathPattern)
    requires l.slot <= MAX_PREFIX_SLOTS
    ensures Get(ApplyAll(cgroup, l, rules).maps.filePatterns, ClassKey(owner, c)) ==
            if owner == cgroup then Over(LastVerdict(rules, ClassTarget(c)), Get(l.maps.filePatterns, ClassKey(owner, c)))
            else Get(l.maps.filePatterns, ClassKey(owner, c))
  {
    hide Utf8, PathPattern.Code, PathsWith, PrefixesWith, ExecsWith, NetsWith;
    if rules != [] {
      ClassesAfter(cgroup, l, rules[..|rules| - 1], owner, c);
      var r := rules[|rules| - 1];
      if IsClassRule(r) {
        SameCode(r.obj.file.pattern.class_, c);
      }
    }
  }

  lemma {:induction false} ExecsAfter(cgroup: u64, l: Loading, rules: seq<Rule>, key: PathPolicyKey)
    requires l.slot <= MAX_PREFIX_SLOTS
    ensures Get(ApplyAll(cgroup, l, rules).maps.execPaths, key) ==
            if key.cgroup == cgroup then Over(LastVerdict(rules, ExecTarget(key.pathHash)), Get(l.maps.execPaths, key))
            else Get(l.maps.execPaths, key)
  {
    hide Fnv.Hash, Utf8, PathsWith, PatternsWith, PrefixesWith, NetsWith;
    if rules != [] {
      ExecsAfter(cgroup, l, rules[..|rules| - 1], key);
    }
  }

  lemma {:induction false} NetsAfter(cgroup: u64, l: Loading, rules: seq<Rule>, owner: u64, ip: u32, port: u32)
    requires l.slot <= MAX_PREFIX_SLOTS
    ensures var key := NetPolicyKey(owner, ip, port, 0);
      Get(ApplyAll(cgroup, l, rules).maps.netRules, key) ==
      if owner == cgroup then Over(LastVerdict(rules, NetTarget(ip, port)), Get(l.maps.netRules, key))
      else Get(l.maps.netRules, key)
  {
    hide PathsWith, PatternsWith, PrefixesWith, ExecsWith;
    if rules != [] {
      NetsAfter(cgroup, l, rules[..|rules| - 1], owner, ip, port);
    }
  }

  lemma {:induction false} OthersAfter(cgroup: u64, l: Loading, rules: seq<Rule>)
    requires l.slot <= MAX_PREFIX_SLOTS
    ensures var o := ApplyAll(cgroup, l, rules).maps;
      o.cgroups == l.maps.cgroups && o.skbCgroup == l.maps.skbCgroup && o.execPatterns == l.maps.execPatterns
  {
    hide PathsWith, PatternsWith, PrefixesWith, ExecsWith, NetsWith;
    if rules != [] {
      OthersAfter(cgroup, l, rules[..|rules| - 1]);
    }
  }

  // ---- prefixes: slots in rule order ----

  /** The entries of the prefix rules, in rule order. */
  function PrefixEntries(rules: seq<Rule>): seq<PrefixEntry> {
    if rules == [] then []
    else
      var r, front := rules[|rules| - 1], PrefixEntries(rules[..|rules| - 1]);
      if IsPrefixRule(r) then front + [EntryOf(r.obj.file.pattern.prefix, r.verdict)] else front
  }

  function SlotsUsed(rules: seq<Rule>): nat { Min(|PrefixEntries(rules)|, MAX_PREFIX_SLOTS) }

  lemma SlotKeyParts(cgroup: u64, slot: nat)
    requires slot < MAX_PREFIX_SLOTS
    ensures SlotKey(cgroup, slot) % 0x100 == slot
  {
    var x := cgroup * 0x100 % TWO_TO_THE_64;
    assert x % 0x100 == 0;
  }

  /** Loading puts the first 64 prefix entries into the cgroup's slots 0, 1, ... and touches no other key. */
  lemma {:induction false} PrefixesAfter(cgroup: u64, m: Maps, rules: seq<Rule>, key: u64)
    ensures ApplyAll(cgroup, Loading(m, 0), rules).slot == SlotsUsed(rules)
    ensures Get(ApplyAll(cgroup, Loading(m, 0), rules).maps.filePrefixes, key) ==
            if key % 0x100 < SlotsUsed(rules) && key == SlotKey(cgroup, key % 0x100)
            then Some(PrefixEntries(rules)[key % 0x100]) else Get(m.filePrefixes, key)
  {
    hide SlotKey, EntryOf, PathsWith, PatternsWith, ExecsWith, NetsWith;
    if rules != [] {
      PrefixesAfter(cgroup, m, rules[..|rules| - 1], key);
      var n := SlotsUsed(rules[..|rules| - 1]);
      if n < MAX_PREFIX_SLOTS {
        SlotKeyParts(cgroup, n);
      }
    }
  }
}
