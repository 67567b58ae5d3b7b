/** The kernel's path classifier over the first 128 bytes of a path, how it agrees with the policy
    compiler's, and where its classes lie. */
module Classifier {
  import opened Strings
  import opened PathPatterns
  import opened KernelPath

  /** `s` starts with the ASCII text `lit`. */
  predicate Begins(s: seq<u8>, lit: string) {
    |lit| <= |s| && forall i :: 0 <= i < |lit| ==> s[i] == lit[i] as int
  }

  /** Number of leading digits of `s`, counting at most `limit`. */
  function DigitRun(s: seq<u8>, limit: nat): (n: nat)
    ensures n <= limit && n <= |s|
    ensures forall i :: 0 <= i < n ==> IsDigit(s[i])
    ensures n < limit && n < |s| ==> !IsDigit(s[n])
  {
    if limit == 0 || s == [] || !IsDigit(s[0]) then 0 else 1 + DigitRun(s[1..], limit - 1)
  }

  const MAX_PID_DIGITS := 7

  // ---- the suffix after /proc/<pid>/ ----

  function SuffixC(s: seq<u8>): PathPattern {
    if Begins(s, "cmdline") then ProcPidCmdline
    else if Begins(s, "cgroup") then ProcPidCgroup
    else if Begins(s, "comm") then ProcPidComm
    else if Begins(s, "cwd") then ProcPidCwd
    else ProcPidOther
  }

  function SuffixE(s: seq<u8>): PathPattern {
    if Begins(s, "environ") then ProcPidEnviron
    else if Begins(s, "exe") then ProcPidExe
    else ProcPidOther
  }

  function SuffixF(s: seq<u8>): PathPattern { if Begins(s, "fd") then ProcPidFd else ProcPidOther }

  function SuffixM(s: seq<u8>): PathPattern {
    if Begins(s, "mountinfo") then ProcPidMountinfo
    else if Begins(s, "mounts") then ProcPidMounts
    else if Begins(s, "maps") then ProcPidMaps
    else if Begins(s, "mem") then ProcPidMem
    else ProcPidOther
  }

  /** Nothing, a NUL or a '/' follows the first `n` bytes. */
  predicate EndsAt(s: seq<u8>, n: nat) { n >= |s| || s[n] == 0 || s[n] == SLASH }

  function SuffixN(s: seq<u8>): PathPattern {
    if Begins(s, "ns/") then ProcPidNs
    else if Begins(s, "ns") && EndsAt(s, 2) then ProcPidNs
    else if Begins(s, "net/") then ProcPidNet
    else if Begins(s, "net") && EndsAt(s, 3) then ProcPidNet
    else ProcPidOther
  }

  function SuffixR(s: seq<u8>): PathPattern { if Begins(s, "root") then ProcPidRoot else ProcPidOther }

  function SuffixS(s: seq<u8>): PathPattern {
    if Begins(s, "status") then ProcPidStatus
    else if Begins(s, "stat") && EndsAt(s, 4) then ProcPidStat
    else ProcPidOther
  }

  function SuffixT(s: seq<u8>): PathPattern {
    if Begins(s, "task/") then ProcPidTask
    else if Begins(s, "task") && (|s| == 4 || s[4] == 0) then ProcPidTask
    else ProcPidOther
  }

  function ProcSuffix(s: seq<u8>): PathPattern {
    if s == [] then ProcPidOther
    else if s[0] == 'c' as int then SuffixC(s)
    else if s[0] == 'e' as int then SuffixE(s)
    else if s[0] == 'f' as int then SuffixF(s)
    else if s[0] == 'm' as int then SuffixM(s)
    else if s[0] == 'n' as int then SuffixN(s)
    else if s[0] == 'r' as int then SuffixR(s)
    else if s[0] == 's' as int then SuffixS(s)
    else if s[0] == 't' as int then SuffixT(s)
    else ProcPidOther
  }

  // ---- the other trees ----

  function ProcGlobalClass(s: seq<u8>): PathPattern {
    if Begins(s, "sys/") then ProcGlobalSys
    else if Begins(s, "net/") then ProcGlobalNet
    else ProcGlobal
  }

  function ProcClass(s: seq<u8>): PathPattern {
    if Begins(s, "self/") then ProcSuffix(s[5..])
    else
      var n := DigitRun(s, MAX_PID_DIGITS);
      if n == 0 then ProcGlobalClass(s)
      else if n >= |s| || s[n] != SLASH then ProcGlobal
      else ProcSuffix(s[n + 1..])
  }

  function SysClass(s: seq<u8>, docker: bool): PathPattern {
    if docker then SysCgroupDocker
    else if Begins(s, "fs/cgroup") then SysCgroupOther
    else if Begins(s, "class/net/") then SysClassNet
    else SysOther
  }

  function RunClass(s: seq<u8>): PathPattern {
    if Begins(s, "docker/") then RunDocker
    else if Begins(s, "user/") then RunUser
    else RunOther
  }

  function DevClass(s: seq<u8>): PathPattern {
    if Begins(s, "pts/") then DevPts
    else if Begins(s, "shm/") then DevShm
    else DevOther
  }

  function TmpClass(s: seq<u8>): PathPattern { if Begins(s, "tmp") then TmpRandom else TmpOther }

  const DOCKER_POSITIONS := 120

  predicate DockerAt(path: seq<u8>, i: int) { 0 <= i <= |path| && Begins(path[i..], "/docker/") }

  predicate ContainsDocker(path: seq<u8>) { exists i :: 0 <= i < DOCKER_POSITIONS && DockerAt(path, i) }

  function KernelClass(path: seq<u8>): PathPattern {
    if Begins(path, "/proc/") then ProcClass(path[6..])
    else if Begins(path, "/sys/") then SysClass(path[5..], ContainsDocker(path))
    else if Begins(path, "/run/") then RunClass(path[5..])
    else if Begins(path, "/dev/") then DevClass(path[5..])
    else if Begins(path, "/tmp/") then TmpClass(path[5..])
    else Regular
  }

  method HasDocker(path: seq<u8>) returns (found: bool)
    requires |path| == MAX_PATH_DEPTH
    ensures found == ContainsDocker(path)
  {
    found := false;
    for i := 0 to DOCKER_POSITIONS
      invariant found <==> exists j :: 0 <= j < i && DockerAt(path, j)
    {
      if !found && i + 8 <= MAX_PATH_DEPTH {
        if path[i] == 0 {
          assert !DockerAt(path, i);
        } else if Begins(path[i..], "/docker/") {
          assert DockerAt(path, i);
          found := true;
        } else {
          assert !DockerAt(path, i);
        }
      }
    }
  }

  method ClassifyProc(path: seq<u8>, offset: nat) returns (pattern: PathPattern)
    requires |path| == MAX_PATH_DEPTH && offset + MAX_PID_DIGITS < MAX_PATH_DEPTH
    ensures pattern == ProcClass(path[offset..])
  {
    if Begins(path[offset..], "self/") {
      assert path[offset..][5..] == path[offset + 5..];
      return ProcSuffix(path[offset + 5..]);
    }
    var pidLen := 0;
    var foundNonDigit := false;
    for i := 0 to MAX_PID_DIGITS
      invariant 0 <= pidLen <= i
      invariant !foundNonDigit ==> pidLen == i
      invariant foundNonDigit ==> !IsDigit(path[offset + pidLen])
      invariant forall j :: 0 <= j < pidLen ==> IsDigit(path[offset..][j])
    {
      if !foundNonDigit {
        if IsDigit(path[offset + i]) {
          pidLen := i + 1;
        } else {
          foundNonDigit := true;
        }
      }
    }
    DigitRunUnique(path[offset..], MAX_PID_DIGITS, pidLen);
    if pidLen == 0 {
      return ProcGlobalClass(path[offset..]);
    }
    var afterPid := offset + pidLen;
    if path[afterPid] != SLASH {
      return ProcGlobal;
    }
    assert path[offset..][pidLen + 1..] == path[afterPid + 1..];
    return ProcSuffix(path[afterPid + 1..]);
  }

  lemma DigitRunUnique(s: seq<u8>, limit: nat, n: nat)
    requires n <= limit && n <= |s|
    requires forall i :: 0 <= i < n ==> IsDigit(s[i])
    requires n < limit && n < |s| ==> !IsDigit(s[n])
    ensures DigitRun(s, limit) == n
  {
  }

  method ClassifyPath(path: seq<u8>) returns (pattern: PathPattern)
    requires |path| == MAX_PATH_DEPTH
    ensures pattern == KernelClass(path)
  {
    hide ProcClass, SysClass, RunClass, DevClass, TmpClass, ContainsDocker;
    if Begins(path, "/proc/") {
      pattern := ClassifyProc(path, 6);
    } else if Begins(path, "/sys/") {
      var docker := HasDocker(path);
      pattern := SysClass(path[5..], docker);
    } else if Begins(path, "/run/") {
      pattern := RunClass(path[5..]);
    } else if Begins(path, "/dev/") {
      pattern := DevClass(path[5..]);
    } else if Begins(path, "/tmp/") {
      pattern := TmpClass(path[5..]);
    } else {
      pattern := Regular;
    }
  }

  // ---- classes lie under their literal roots ----

  predicate RootedInKernel(c: PathPattern) { c != SysCgroupDocker && c != SysCgroupOther }

  lemma BeginsAppend(s: seq<u8>, a: string, b: string)
    requires Begins(s, a)
    ensures Begins(s, a + b) <==> Begins(s[|a|..], b)
  {
    if Begins(s, a + b) {
      forall i | 0 <= i < |b| ensures s[|a|..][i] == b[i] as int {
        assert (a + b)[|a| + i] == b[i];
      }
    }
  }

  lemma ProcSuffixUnderProc(s: seq<u8>)
    ensures Root(ProcSuffix(s)) == "/proc/"
  {
  }

  lemma ProcClassRooted(path: seq<u8>)
    requires Begins(path, "/proc/")
    ensures Begins(path, Root(ProcClass(path[6..])))
  {
    assert |path| >= 6;
    hide Begins, ProcClass;
    ProcClassRoots(path[6..]);
    BeginsAppend(path, "/proc/", "sys/");
    BeginsAppend(path, "/proc/", "net/");
    assert "/proc/" + "sys/" == "/proc/sys/" && "/proc/" + "net/" == "/proc/net/";
  }

  lemma ProcClassRoots(s: seq<u8>)
    ensures var root := Root(ProcClass(s));
      root == "/proc/" || (root == "/proc/sys/" && Begins(s, "sys/")) || (root == "/proc/net/" && Begins(s, "net/"))
  {
    hide ProcSuffix;
    if Begins(s, "self/") {
      ProcSuffixUnderProc(s[5..]);
    } else {
      var n := DigitRun(s, MAX_PID_DIGITS);
      if n < |s| {
        ProcSuffixUnderProc(s[n + 1..]);
      }
    }
  }

  lemma RunAndDevRooted(path: seq<u8>)
    ensures Begins(path, "/run/") ==> Begins(path, Root(RunClass(path[5..])))
    ensures Begins(path, "/dev/") ==> Begins(path, Root(DevClass(path[5..])))
  {
    hide Begins;
    if Begins(path, "/run/") {
      BeginsAppend(path, "/run/", "docker/");
      BeginsAppend(path, "/run/", "user/");
      assert "/run/" + "docker/" == "/run/docker/" && "/run/" + "user/" == "/run/user/";
    }
    if Begins(path, "/dev/") {
      BeginsAppend(path, "/dev/", "pts/");
      BeginsAppend(path, "/dev/", "shm/");
      assert "/dev/" + "pts/" == "/dev/pts/" && "/dev/" + "shm/" == "/dev/shm/";
    }
  }

  lemma TmpAndSysRooted(path: seq<u8>)
    ensures Begins(path, "/tmp/") ==> Begins(path, Root(TmpClass(path[5..])))
    ensures Begins(path, "/sys/") ==> Begins(path, if Begins(path[5..], "class/net/") then "/sys/class/net/" else "/sys/")
  {
    hide Begins;
    if Begins(path, "/tmp/") {
      BeginsAppend(path, "/tmp/", "tmp");
      assert "/tmp/" + "tmp" == "/tmp/tmp";
    }
    if Begins(path, "/sys/") {
      BeginsAppend(path, "/sys/", "class/net/");
      assert "/sys/" + "class/net/" == "/sys/class/net/";
    }
  }

  lemma RegularRoot(path: seq<u8>)
    ensures Begins(path, Root(Regular))
  {
  }

  /** Every class but the two cgroup ones holds only paths under the literal root of its text. */
  lemma KernelClassRooted(path: seq<u8>)
    requires RootedInKernel(KernelClass(path))
    ensures Begins(path, Root(KernelClass(path)))
  {
    hide Begins, ProcClass, RunClass, DevClass, TmpClass, ContainsDocker;
    RegularRoot(path);
    RunAndDevRooted(path);
    TmpAndSysRooted(path);
    if Begins(path, "/proc/") {
      ProcClassRooted(path);
    }
  }

  // ---- the root survives the short-path copy ----

  /** `buffer` holds the first bytes of `text`; past those, and past its end, anything. */
  predicate Holds(buffer: seq<u8>, text: seq<u8>) {
    |buffer| == MAX_PATH_DEPTH && forall i :: 0 <= i < COPIED && i < |text| ==> buffer[i] == text[i]
  }

  lemma ShortBytesRooted(text: seq<u8>, root: string)
    requires text != [] && |root| <= COPIED && Begins(ShortBytes(text), root)
    requires |root| >= 2 ==> root[|root| - 1] != root[|root| - 2]
    ensures Begins(text, root)
  {
    var buf := ShortBytes(text);
    assert |text| >= |root|;
    assert forall i :: 0 <= i < |root| ==> buf[i] == text[i];
  }

  lemma RootShape(c: PathPattern)
    ensures |Root(c)| <= 20
    ensures |Root(c)| >= 2 ==> Root(c)[|Root(c)| - 1] != Root(c)[|Root(c)| - 2]
  {
  }

  /** What the classifier gets for a resolved path: the path's own bytes, then padding. */
  lemma ClassifyBytesOfResolved(buffer: seq<u8>, text: seq<u8>)
    requires RightAligned(buffer, text) && text != []
    ensures ClassifyBytes(buffer, Prepend, |text|) ==
            if |text| < MAX_PATH_DEPTH then ShortBytes(text) else text[..MAX_PATH_DEPTH]
  {
    assert buffer[MAX_PATH_LEN - |text|..] == text;
  }

  /** The classifier gets the first 128 bytes of a path that has them; of a shorter one its first 32 bytes,
      its last byte repeated up to there, and zeros from there on. */
  lemma ClassifierReads(buffer: seq<u8>, text: seq<u8>, i: nat)
    requires RightAligned(buffer, text) && text != [] && i < 128
    ensures |ClassifyBytes(buffer, Prepend, |text|)| == 128
    ensures ClassifyBytes(buffer, Prepend, |text|)[i] ==
            if |text| >= 128 then text[i] else if i >= 32 then 0 else if i < |text| then text[i] else text[|text| - 1]
  {
    hide ClassifyBytes;
    ClassifyBytesOfResolved(buffer, text);
  }

  /** A path the hooks file under a class, cgroup classes aside, starts with the class's root. */
  lemma ResolvedPathIsRooted(buffer: seq<u8>, text: seq<u8>)
    requires RightAligned(buffer, text) && text != []
    requires RootedInKernel(KernelClass(ClassifyBytes(buffer, Prepend, |text|)))
    ensures Begins(text, Root(KernelClass(ClassifyBytes(buffer, Prepend, |text|))))
  {
    hide KernelClass, ClassifyBytes, ShortBytes, Root;
    var bytes := ClassifyBytes(buffer, Prepend, |text|);
    var c := KernelClass(bytes);
    KernelClassRooted(bytes);
    RootShape(c);
    ClassifyBytesOfResolved(buffer, text);
    if |text| < MAX_PATH_DEPTH {
      ShortBytesRooted(text, Root(c));
    }
  }

  /** The docker class takes any /sys path with a "docker" component, wherever it lies. */
  lemma DockerClassIsWider(path: seq<u8>)
    requires |path| == MAX_PATH_DEPTH
    ensures KernelClass(path) == SysCgroupDocker <==> Begins(path, "/sys/") && ContainsDocker(path)
    ensures Begins(path, Root(SysCgroupDocker)) <==> Begins(path, "/sys/fs/cgroup/")
    ensures Begins(path, "/sys/docker/") ==>
              KernelClass(path) == SysCgroupDocker && !Begins(path, Root(SysCgroupDocker))
  {
    hide ContainsDocker, ProcClass, RunClass, DevClass, TmpClass, Begins, Root;
    NeverDocker(path);
    SysIsNotProc(path);
    if Begins(path, "/sys/docker/") {
      DockerAfterSys(path);
    }
  }

  lemma SysIsNotProc(path: seq<u8>)
    requires |path| == MAX_PATH_DEPTH
    ensures Begins(path, "/sys/") ==> !Begins(path, "/proc/")
    ensures Root(SysCgroupDocker) == "/sys/fs/cgroup/"
  {
    if Begins(path, "/sys/") {
      assert path[1] == 's' as int && "/proc/"[1] == 'p';
    }
  }

  lemma NeverDocker(path: seq<u8>)
    ensures |path| >= 6 ==> ProcClass(path[6..]) != SysCgroupDocker
    ensures |path| >= 5 ==> RunClass(path[5..]) != SysCgroupDocker
    ensures |path| >= 5 ==> DevClass(path[5..]) != SysCgroupDocker && TmpClass(path[5..]) != SysCgroupDocker
  {
    hide Begins, DigitRun;
  }

  lemma DockerAfterSys(path: seq<u8>)
    requires Begins(path, "/sys/docker/")
    ensures ContainsDocker(path) && Begins(path, "/sys/") && !Begins(path, "/sys/fs/cgroup/")
  {
    assert path[4..][0] == '/' as int;
    assert DockerAt(path, 4);
    assert path[5] == 'd' as int && "/sys/fs/cgroup/"[5] == 'f';
  }

  /** The other cgroup class is exactly what begins with "/sys/fs/cgroup" and has no docker component; of
      that, exactly the paths with a '/' next are under the literal root. */
  lemma CgroupClassIsWider(path: seq<u8>)
    requires |path| == MAX_PATH_DEPTH
    ensures KernelClass(path) == SysCgroupOther <==> Begins(path, "/sys/fs/cgroup") && !ContainsDocker(path)
    ensures KernelClass(path) == SysCgroupOther ==>
              (Begins(path, Root(SysCgroupOther)) <==> path[14] == SLASH)
  {
    hide ContainsDocker, ProcClass, RunClass, DevClass, TmpClass, Begins, Root;
    NeverCgroup(path);
    SysIsNotProc(path);
    SysThenCgroup(path);
    CgroupThenSlash(path);
  }

  lemma NeverCgroup(path: seq<u8>)
    ensures |path| >= 6 ==> ProcClass(path[6..]) != SysCgroupOther
    ensures |path| >= 5 ==> RunClass(path[5..]) != SysCgroupOther
    ensures |path| >= 5 ==> DevClass(path[5..]) != SysCgroupOther && TmpClass(path[5..]) != SysCgroupOther
  {
    hide Begins, DigitRun;
  }

  lemma SysThenCgroup(path: seq<u8>)
    requires |path| == MAX_PATH_DEPTH
    ensures Begins(path, "/sys/fs/cgroup") <==> Begins(path, "/sys/") && Begins(path[5..], "fs/cgroup")
  {
    var whole := "/sys/fs/cgroup";
    assert "/sys/" + "fs/cgroup" == whole;
    if Begins(path, "/sys/") {
      BeginsAppend(path, "/sys/", "fs/cgroup");
    }
    if Begins(path, whole) {
      forall i | 0 <= i < 5 ensures path[i] == "/sys/"[i] as int {
        assert ("/sys/" + "fs/cgroup")[i] == "/sys/"[i];
      }
    }
  }

  lemma CgroupThenSlash(path: seq<u8>)
    requires |path| == MAX_PATH_DEPTH
    ensures Begins(path, "/sys/fs/cgroup") ==> (Begins(path, Root(SysCgroupOther)) <==> path[14] == SLASH)
  {
    if Begins(path, "/sys/fs/cgroup") {
      assert "/sys/fs/cgroup" + "/" == "/sys/fs/cgroup/";
      BeginsAppend(path, "/sys/fs/cgroup", "/");
    }
  }

  /** First 128 bytes, zero-padded. */
  function Padded(text: seq<u8>): (r: seq<u8>)
    ensures |r| == MAX_PATH_DEPTH
  {
    (text + Zeros(MAX_PATH_DEPTH))[..MAX_PATH_DEPTH]
  }
}
