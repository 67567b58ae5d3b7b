/** Which paths the kernel puts into each class, told from the path alone and without the order of the
    tests: the classes share the paths out, and each is an explicit set. */
module KernelClasses {
  import opened Strings
  import opened PathPatterns
  import opened KernelPath
  import opened Classifier

  /** Starting with two texts in a row is starting with their concatenation. */
  lemma BeginsJoined(s: seq<u8>, a: string, b: string)
    ensures Begins(s, a + b) <==> Begins(s, a) && Begins(s[|a|..], b)
  {
    if Begins(s, a) {
      BeginsAppend(s, a, b);
    }
    if Begins(s, a + b) {
      forall i | 0 <= i < |a| ensures s[i] == a[i] as int {
        assert (a + b)[i] == a[i];
      }
    }
  }

  // ---- trees ----

  /** The five trees are told apart by their second byte. */
  lemma TreesApart(path: seq<u8>)
    ensures Begins(path, "/proc/") ==> |path| >= 6 && path[1] == 'p' as int
    ensures Begins(path, "/sys/") ==> |path| >= 5 && path[1] == 's' as int
    ensures Begins(path, "/run/") ==> |path| >= 5 && path[1] == 'r' as int
    ensures Begins(path, "/dev/") ==> |path| >= 5 && path[1] == 'd' as int
    ensures Begins(path, "/tmp/") ==> |path| >= 5 && path[1] == 't' as int
  {
  }

  predicate InProc(c: PathPattern) { c.ProcGlobal? || c.ProcGlobalSys? || c.ProcGlobalNet? || InProcess(c) }

  predicate InProcess(c: PathPattern) {
    || c.ProcPidCmdline? || c.ProcPidComm? || c.ProcPidCwd? || c.ProcPidEnviron? || c.ProcPidExe? || c.ProcPidFd?
    || c.ProcPidMaps? || c.ProcPidMem? || c.ProcPidMountinfo? || c.ProcPidMounts? || c.ProcPidNet? || c.ProcPidNs?
    || c.ProcPidRoot? || c.ProcPidStat? || c.ProcPidStatus? || c.ProcPidTask? || c.ProcPidCgroup? || c.ProcPidOther?
  }

  predicate InSys(c: PathPattern) { c.SysCgroupDocker? || c.SysCgroupOther? || c.SysClassNet? || c.SysOther? }

  predicate InRun(c: PathPattern) { c.RunDocker? || c.RunUser? || c.RunOther? }

  predicate InDev(c: PathPattern) { c.DevPts? || c.DevShm? || c.DevOther? }

  predicate InTmp(c: PathPattern) { c.TmpRandom? || c.TmpOther? }

  lemma SuffixInProcess(s: seq<u8>)
    ensures InProcess(ProcSuffix(s))
  {
    hide Begins, EndsAt;
  }

  lemma ProcessTail(s: seq<u8>)
    ensures InProc(ProcClass(s))
  {
    hide Begins, ProcSuffix, InProcess;
    if Begins(s, "self/") {
      assert |s| >= 5 by { LongEnough(s, "self/"); }
      SuffixInProcess(s[5..]);
    } else {
      var n := DigitRun(s, MAX_PID_DIGITS);
      if n < |s| {
        SuffixInProcess(s[n + 1..]);
      }
    }
  }

  lemma LongEnough(s: seq<u8>, lit: string)
    requires Begins(s, lit)
    ensures |s| >= |lit|
  {
  }

  lemma TreeOfClass(s: seq<u8>, docker: bool)
    ensures InSys(SysClass(s, docker)) && InRun(RunClass(s)) && InDev(DevClass(s)) && InTmp(TmpClass(s))
  {
    hide Begins;
  }

  lemma TreesDistinct(c: PathPattern)
    ensures InProc(c) ==> !InSys(c) && !InRun(c) && !InDev(c) && !InTmp(c) && c != Regular
    ensures InSys(c) ==> !InRun(c) && !InDev(c) && !InTmp(c) && c != Regular
    ensures InRun(c) ==> !InDev(c) && !InTmp(c) && c != Regular
    ensures InDev(c) || InTmp(c) ==> !(InDev(c) && InTmp(c)) && c != Regular
  {
  }

  /** A class of a tree holds only paths of the tree, and a path of no tree is regular. */
  lemma TreeExactly(path: seq<u8>)
    ensures var c := KernelClass(path);
      && (InProc(c) <==> Begins(path, "/proc/"))
      && (InSys(c) <==> Begins(path, "/sys/"))
      && (InRun(c) <==> Begins(path, "/run/"))
      && (InDev(c) <==> Begins(path, "/dev/"))
      && (InTmp(c) <==> Begins(path, "/tmp/"))
      && (c == Regular <==> !Begins(path, "/proc/") && !Begins(path, "/sys/") && !Begins(path, "/run/")
                            && !Begins(path, "/dev/") && !Begins(path, "/tmp/"))
  {
    hide ContainsDocker, ProcClass, SysClass, RunClass, DevClass, TmpClass, Begins, InProc, InSys, InRun, InDev, InTmp;
    TreesApart(path);
    TreesDistinct(KernelClass(path));
    TreesDistinct(Regular);
    if |path| >= 6 {
      ProcessTail(path[6..]);
    }
    if |path| >= 5 {
      TreeOfClass(path[5..], ContainsDocker(path));
    }
    assert !InProc(Regular) && !InSys(Regular) && !InRun(Regular) && !InDev(Regular) && !InTmp(Regular) by { NoTree(); }
  }

  lemma NoTree()
    ensures !InProc(Regular) && !InSys(Regular) && !InRun(Regular) && !InDev(Regular) && !InTmp(Regular)
  {
  }

  // ---- /sys, /run, /dev and /tmp ----

  /** A `docker` component starts within the first 120 bytes. */
  predicate DockerComponent(path: seq<u8>) { exists i :: 0 <= i < 120 && i <= |path| && Begins(path[i..], "/docker/") }

  lemma DockerIsComponent(path: seq<u8>)
    ensures ContainsDocker(path) <==> DockerComponent(path)
  {
    hide Begins;
    if ContainsDocker(path) {
      var i :| 0 <= i < DOCKER_POSITIONS && DockerAt(path, i);
      assert Begins(path[i..], "/docker/");
    }
    if DockerComponent(path) {
      var i :| 0 <= i < 120 && i <= |path| && Begins(path[i..], "/docker/");
      assert DockerAt(path, i);
    }
  }

  /** The tree decides which tests are made, on what follows the tree's name. */
  lemma TreeTests(path: seq<u8>)
    ensures Begins(path, "/proc/") ==> |path| >= 6 && KernelClass(path) == ProcClass(path[6..])
    ensures Begins(path, "/sys/") ==> |path| >= 5 && KernelClass(path) == SysClass(path[5..], ContainsDocker(path))
    ensures Begins(path, "/run/") ==> |path| >= 5 && KernelClass(path) == RunClass(path[5..])
    ensures Begins(path, "/dev/") ==> |path| >= 5 && KernelClass(path) == DevClass(path[5..])
    ensures Begins(path, "/tmp/") ==> |path| >= 5 && KernelClass(path) == TmpClass(path[5..])
  {
    hide ContainsDocker, ProcClass, SysClass, RunClass, DevClass, TmpClass, Begins;
    TreesApart(path);
  }

  lemma SysNames(path: seq<u8>)
    requires Begins(path, "/sys/") && |path| >= 5
    ensures Begins(path, "/sys/fs/cgroup") <==> Begins(path[5..], "fs/cgroup")
    ensures Begins(path, "/sys/class/net/") <==> Begins(path[5..], "class/net/")
    ensures Begins(path[5..], "fs/cgroup") ==> !Begins(path[5..], "class/net/")
  {
    ByteOf(path[5..], "fs/cgroup", 0);
    ByteOf(path[5..], "class/net/", 0);
    assert "/sys/" + "fs/cgroup" == "/sys/fs/cgroup" && "/sys/" + "class/net/" == "/sys/class/net/";
    BeginsJoined(path, "/sys/", "fs/cgroup");
    BeginsJoined(path, "/sys/", "class/net/");
  }

  lemma UnderSys(path: seq<u8>)
    ensures Begins(path, "/sys/fs/cgroup") || Begins(path, "/sys/class/net/") ==> Begins(path, "/sys/")
  {
    assert "/sys/" + "fs/cgroup" == "/sys/fs/cgroup" && "/sys/" + "class/net/" == "/sys/class/net/";
    BeginsJoined(path, "/sys/", "fs/cgroup");
    BeginsJoined(path, "/sys/", "class/net/");
  }

  /** The four /sys classes: a docker component decides first, then the cgroup text, which may run on into
      a longer name, then the network devices. */
  lemma SysExactly(path: seq<u8>)
    ensures KernelClass(path) == SysCgroupDocker <==> Begins(path, "/sys/") && DockerComponent(path)
    ensures KernelClass(path) == SysCgroupOther <==> Begins(path, "/sys/fs/cgroup") && !DockerComponent(path)
    ensures KernelClass(path) == SysClassNet <==> Begins(path, "/sys/class/net/") && !DockerComponent(path)
    ensures KernelClass(path) == SysOther <==>
            && Begins(path, "/sys/") && !DockerComponent(path)
            && !Begins(path, "/sys/fs/cgroup") && !Begins(path, "/sys/class/net/")
  {
    hide Begins, KernelClass, ContainsDocker, DockerComponent;
    TreeExactly(path);
    TreeTests(path);
    DockerIsComponent(path);
    UnderSys(path);
    if Begins(path, "/sys/") {
      SysNames(path);
    }
  }

  lemma RunNames(path: seq<u8>)
    ensures Begins(path, "/run/docker/") <==> Begins(path, "/run/") && Begins(path[5..], "docker/")
    ensures Begins(path, "/run/user/") <==> Begins(path, "/run/") && Begins(path[5..], "user/")
    ensures Begins(path, "/run/docker/") ==> !Begins(path, "/run/user/")
  {
    hide Begins;
    ByteOf(path, "/run/docker/", 5);
    ByteOf(path, "/run/user/", 5);
    assert "/run/" + "docker/" == "/run/docker/" && "/run/" + "user/" == "/run/user/";
    BeginsJoined(path, "/run/", "docker/");
    BeginsJoined(path, "/run/", "user/");
  }

  lemma RunExactly(path: seq<u8>)
    ensures KernelClass(path) == RunDocker <==> Begins(path, "/run/docker/")
    ensures KernelClass(path) == RunUser <==> Begins(path, "/run/user/")
    ensures KernelClass(path) == RunOther <==>
            Begins(path, "/run/") && !Begins(path, "/run/docker/") && !Begins(path, "/run/user/")
  {
    hide Begins, KernelClass;
    TreeExactly(path);
    TreeTests(path);
    RunNames(path);
  }

  lemma DevNames(path: seq<u8>)
    ensures Begins(path, "/dev/pts/") <==> Begins(path, "/dev/") && Begins(path[5..], "pts/")
    ensures Begins(path, "/dev/shm/") <==> Begins(path, "/dev/") && Begins(path[5..], "shm/")
    ensures Begins(path, "/dev/pts/") ==> !Begins(path, "/dev/shm/")
  {
    hide Begins;
    ByteOf(path, "/dev/pts/", 5);
    ByteOf(path, "/dev/shm/", 5);
    assert "/dev/" + "pts/" == "/dev/pts/" && "/dev/" + "shm/" == "/dev/shm/";
    BeginsJoined(path, "/dev/", "pts/");
    BeginsJoined(path, "/dev/", "shm/");
  }

  lemma DevExactly(path: seq<u8>)
    ensures KernelClass(path) == DevPts <==> Begins(path, "/dev/pts/")
    ensures KernelClass(path) == DevShm <==> Begins(path, "/dev/shm/")
    ensures KernelClass(path) == DevOther <==>
            Begins(path, "/dev/") && !Begins(path, "/dev/pts/") && !Begins(path, "/dev/shm/")
  {
    hide Begins, KernelClass;
    TreeExactly(path);
    TreeTests(path);
    DevNames(path);
  }

  lemma TmpExactly(path: seq<u8>)
    ensures KernelClass(path) == TmpRandom <==> Begins(path, "/tmp/tmp")
    ensures KernelClass(path) == TmpOther <==> Begins(path, "/tmp/") && !Begins(path, "/tmp/tmp")
  {
    hide Begins, KernelClass;
    TreeExactly(path);
    TreeTests(path);
    assert "/tmp/" + "tmp" == "/tmp/tmp";
    BeginsJoined(path, "/tmp/", "tmp");
  }

  // ---- /proc ----

  /** What follows the name of a file of a process directory ends it: a slash, a NUL or the end. */
  predicate NameEnds(tail: seq<u8>, n: nat) { |tail| <= n || tail[n] == 0 || tail[n] == '/' as int }

  /** The tail has a name the class goes by: most need only start it, four must end there. */
  predicate Named(tail: seq<u8>, c: PathPattern) {
    match c
    case ProcPidCmdline => Begins(tail, "cmdline")
    case ProcPidComm => Begins(tail, "comm")
    case ProcPidCwd => Begins(tail, "cwd")
    case ProcPidCgroup => Begins(tail, "cgroup")
    case ProcPidEnviron => Begins(tail, "environ")
    case ProcPidExe => Begins(tail, "exe")
    case ProcPidFd => Begins(tail, "fd")
    case ProcPidMaps => Begins(tail, "maps")
    case ProcPidMem => Begins(tail, "mem")
    case ProcPidMountinfo => Begins(tail, "mountinfo")
    case ProcPidMounts => Begins(tail, "mounts")
    case ProcPidNet => Begins(tail, "net") && NameEnds(tail, 3)
    case ProcPidNs => Begins(tail, "ns") && NameEnds(tail, 2)
    case ProcPidRoot => Begins(tail, "root")
    case ProcPidStat => Begins(tail, "stat") && NameEnds(tail, 4)
    case ProcPidStatus => Begins(tail, "status")
    case ProcPidTask => Begins(tail, "task") && NameEnds(tail, 4)
    case _ => false
  }

  predicate SomeName(tail: seq<u8>) { exists d :: Named(tail, d) }

  /** One byte of a text that is begun with. */
  lemma ByteOf(s: seq<u8>, lit: string, i: nat)
    requires i < |lit|
    ensures Begins(s, lit) ==> i < |s| && s[i] == lit[i] as int
  {
  }

  lemma InitialsToM(s: seq<u8>)
    ensures Begins(s, "cmdline") || Begins(s, "comm") || Begins(s, "cwd") || Begins(s, "cgroup") ==> s != [] && s[0] == 'c' as int
    ensures Begins(s, "environ") || Begins(s, "exe") ==> s != [] && s[0] == 'e' as int
    ensures Begins(s, "fd") ==> s != [] && s[0] == 'f' as int
    ensures Begins(s, "maps") || Begins(s, "mem") || Begins(s, "mountinfo") || Begins(s, "mounts") ==> s != [] && s[0] == 'm' as int
  {
  }

  lemma InitialsFromN(s: seq<u8>)
    ensures Begins(s, "net") || Begins(s, "ns") ==> s != [] && s[0] == 'n' as int
    ensures Begins(s, "root") ==> s != [] && s[0] == 'r' as int
    ensures Begins(s, "stat") || Begins(s, "status") ==> s != [] && s[0] == 's' as int
    ensures Begins(s, "task") ==> s != [] && s[0] == 't' as int
  {
  }

  /** The class's initial, for those with a name. */
  function Initial(c: PathPattern): char {
    match c
    case ProcPidCmdline | ProcPidComm | ProcPidCwd | ProcPidCgroup => 'c'
    case ProcPidEnviron | ProcPidExe => 'e'
    case ProcPidFd => 'f'
    case ProcPidMaps | ProcPidMem | ProcPidMountinfo | ProcPidMounts => 'm'
    case ProcPidNet | ProcPidNs => 'n'
    case ProcPidRoot => 'r'
    case ProcPidStat | ProcPidStatus => 's'
    case _ => 't'
  }

  lemma NamedInitial(s: seq<u8>, c: PathPattern)
    requires Named(s, c)
    ensures s != [] && s[0] == Initial(c) as int
  {
    hide Begins, NameEnds;
    InitialsToM(s);
    InitialsFromN(s);
  }

  /** The first test that succeeds is the only one that can. */
  lemma NamesInC(s: seq<u8>, c: PathPattern)
    requires Initial(c) == 'c'
    ensures SuffixC(s) == c <==> Named(s, c)
  {
    hide Begins;
    ByteOf(s, "cmdline", 1);
    ByteOf(s, "cgroup", 1);
    ByteOf(s, "comm", 1);
    ByteOf(s, "cwd", 1);
  }

  lemma NamesInE(s: seq<u8>, c: PathPattern)
    requires Initial(c) == 'e'
    ensures SuffixE(s) == c <==> Named(s, c)
  {
    hide Begins;
    ByteOf(s, "environ", 1);
    ByteOf(s, "exe", 1);
  }

  lemma NamesInM(s: seq<u8>, c: PathPattern)
    requires Initial(c) == 'm'
    ensures SuffixM(s) == c <==> Named(s, c)
  {
    hide Begins;
    ByteOf(s, "mountinfo", 1);
    ByteOf(s, "mountinfo", 5);
    ByteOf(s, "mounts", 1);
    ByteOf(s, "mounts", 5);
    ByteOf(s, "maps", 1);
    ByteOf(s, "mem", 1);
  }

  lemma NamesInN(s: seq<u8>, c: PathPattern)
    requires Initial(c) == 'n'
    ensures SuffixN(s) == c <==> Named(s, c)
  {
    hide Begins;
    assert "ns" + "/" == "ns/" && "net" + "/" == "net/";
    BeginsJoined(s, "ns", "/");
    BeginsJoined(s, "net", "/");
    OneByte(s, 2);
    OneByte(s, 3);
    ByteOf(s, "ns", 1);
    ByteOf(s, "net", 1);
  }

  lemma OneByte(s: seq<u8>, n: nat)
    ensures n <= |s| ==> (Begins(s[n..], "/") <==> n < |s| && s[n] == '/' as int)
  {
  }

  lemma NamesInS(s: seq<u8>, c: PathPattern)
    requires Initial(c) == 's'
    ensures SuffixS(s) == c <==> Named(s, c)
  {
    hide Begins;
    ByteOf(s, "status", 4);
  }

  lemma NamesInT(s: seq<u8>, c: PathPattern)
    requires c == ProcPidTask
    ensures SuffixT(s) == c <==> Named(s, c)
  {
    hide Begins;
    assert "task" + "/" == "task/";
    BeginsJoined(s, "task", "/");
    OneByte(s, 4);
    ByteOf(s, "task", 3);
  }

  lemma InitialDecides(s: seq<u8>, c: PathPattern)
    requires s != [] && InProcess(c) && c != ProcPidOther && ProcSuffix(s) == c
    ensures s[0] == Initial(c) as int
  {
    hide Begins, EndsAt;
  }

  /** Among the names a tail could have, the class found is the one it has. */
  lemma SuffixIsNamed(s: seq<u8>, c: PathPattern)
    requires InProcess(c) && c != ProcPidOther
    ensures ProcSuffix(s) == c <==> Named(s, c)
  {
    hide Begins, NameEnds, EndsAt, Named, SuffixC, SuffixE, SuffixM, SuffixN, SuffixS, SuffixT;
    if s != [] && s[0] == Initial(c) as int {
      match Initial(c) {
        case 'c' => NamesInC(s, c);
        case 'e' => NamesInE(s, c);
        case 'f' => FdIsNamed(s);
        case 'm' => NamesInM(s, c);
        case 'n' => NamesInN(s, c);
        case 'r' => RootIsNamed(s);
        case 's' => NamesInS(s, c);
        case _ => NamesInT(s, c);
      }
    } else {
      if Named(s, c) { NamedInitial(s, c); }
      if s != [] && ProcSuffix(s) == c { InitialDecides(s, c); }
    }
  }

  lemma FdIsNamed(s: seq<u8>)
    ensures SuffixF(s) == ProcPidFd <==> Named(s, ProcPidFd)
  {
    hide Begins;
  }

  lemma RootIsNamed(s: seq<u8>)
    ensures SuffixR(s) == ProcPidRoot <==> Named(s, ProcPidRoot)
  {
    hide Begins;
  }

  /** The path is "/proc/", a component of `n` bytes that is "self" or one to seven digits, and a slash. */
  predicate ProcessPath(path: seq<u8>, n: nat) {
    && 6 + n < |path| && Begins(path, "/proc/") && path[6 + n] == '/' as int
    && ((1 <= n <= 7 && forall i :: 6 <= i < 6 + n ==> '0' as int <= path[i] <= '9' as int) || (n == 4 && Begins(path, "/proc/self/")))
  }

  /** Which tails of a process directory the class takes: those it names; the catch-all, those none names. */
  predicate TakesTail(c: PathPattern, tail: seq<u8>) {
    if c == ProcPidOther then !SomeName(tail) else Named(tail, c)
  }

  lemma SuffixExactly(s: seq<u8>, c: PathPattern)
    requires InProcess(c)
    ensures ProcSuffix(s) == c <==> TakesTail(c, s)
  {
    hide ProcSuffix, Named;
    SuffixInProcess(s);
    if c != ProcPidOther {
      SuffixIsNamed(s, c);
    } else if ProcSuffix(s) == ProcPidOther {
      forall d ensures !Named(s, d) {
        if InProcess(d) && d != ProcPidOther { SuffixIsNamed(s, d); } else { NotNamed(s, d); }
      }
    } else {
      SuffixIsNamed(s, ProcSuffix(s));
      assert Named(s, ProcSuffix(s));
    }
  }

  lemma NotNamed(s: seq<u8>, c: PathPattern)
    requires !InProcess(c) || c == ProcPidOther
    ensures !Named(s, c)
  {
  }

  lemma DigitRunIs(s: seq<u8>, n: nat)
    requires 1 <= n <= 7 && n < |s| && s[n] == '/' as int && forall i :: 0 <= i < n ==> IsDigit(s[i])
    ensures DigitRun(s, MAX_PID_DIGITS) == n
  {
    DigitRunUnique(s, MAX_PID_DIGITS, n);
  }

  lemma SelfNames(path: seq<u8>)
    requires Begins(path, "/proc/") && |path| >= 6
    ensures Begins(path, "/proc/self/") <==> Begins(path[6..], "self/")
    ensures Begins(path, "/proc/sys/") <==> Begins(path[6..], "sys/")
    ensures Begins(path, "/proc/net/") <==> Begins(path[6..], "net/")
    ensures Begins(path, "/proc/self/") ==> |path| >= 11 && path[6] == 's' as int && path[7] == 'e' as int && path[10] == '/' as int
    ensures Begins(path, "/proc/sys/") ==> path[6] == 's' as int && path[7] == 'y' as int
    ensures Begins(path, "/proc/net/") ==> path[6] == 'n' as int
  {
    assert "/proc/" + "self/" == "/proc/self/" && "/proc/" + "sys/" == "/proc/sys/" && "/proc/" + "net/" == "/proc/net/";
    BeginsJoined(path, "/proc/", "self/");
    BeginsJoined(path, "/proc/", "sys/");
    BeginsJoined(path, "/proc/", "net/");
  }

  /** Under a process directory, "self" included, the class is told by the tail's name. */
  lemma ProcessExactly(path: seq<u8>, n: nat, c: PathPattern)
    requires ProcessPath(path, n)
    ensures KernelClass(path) == c <==> InProcess(c) && TakesTail(c, path[7 + n..])
  {
    hide Begins, KernelClass, ProcSuffix, TakesTail, InProcess;
    TreeTests(path);
    SelfNames(path);
    var s := path[6..];
    if Begins(s, "self/") {
      assert n == 4;
      assert s[5..] == path[11..];
    } else {
      assert forall i :: 0 <= i < n ==> s[i] == path[6 + i];
      DigitRunIs(s, n);
      assert s[n + 1..] == path[7 + n..];
    }
    SuffixInProcess(path[7 + n..]);
    if InProcess(c) {
      SuffixExactly(path[7 + n..], c);
    }
  }

  lemma ProcessPathRuns(path: seq<u8>, n: nat)
    requires ProcessPath(path, n) && !Begins(path, "/proc/self/")
    ensures DigitRun(path[6..], MAX_PID_DIGITS) == n && 1 <= n && path[6..][n] == SLASH
  {
    hide Begins;
    assert forall i :: 0 <= i < n ==> path[6..][i] == path[6 + i];
    DigitRunIs(path[6..], n);
  }

  lemma RunIsProcessPath(path: seq<u8>)
    requires Begins(path, "/proc/") && |path| >= 6
    requires var n := DigitRun(path[6..], MAX_PID_DIGITS); 1 <= n && 6 + n < |path| && path[6 + n] == SLASH
    ensures ProcessPath(path, DigitRun(path[6..], MAX_PID_DIGITS))
  {
    hide Begins;
    var n := DigitRun(path[6..], MAX_PID_DIGITS);
    forall i | 6 <= i < 6 + n ensures '0' as int <= path[i] <= '9' as int {
      assert IsDigit(path[6..][i - 6]);
    }
  }

  /** The tests made on what follows "/proc/" when it is no process directory. */
  lemma ProcOutsideProcess(path: seq<u8>)
    requires Begins(path, "/proc/") && |path| >= 6 && forall n :: !ProcessPath(path, n)
    ensures ProcClass(path[6..]) ==
            if Begins(path, "/proc/sys/") then ProcGlobalSys
            else if Begins(path, "/proc/net/") then ProcGlobalNet else ProcGlobal
  {
    hide Begins, ProcSuffix, ProcessPath;
    SelfNames(path);
    var n := DigitRun(path[6..], MAX_PID_DIGITS);
    if Begins(path, "/proc/self/") {
      SelfIsProcess(path);
    }
    if 1 <= n && 6 + n < |path| && path[6 + n] == SLASH {
      RunIsProcessPath(path);
    }
  }

  lemma SelfIsProcess(path: seq<u8>)
    requires Begins(path, "/proc/") && Begins(path, "/proc/self/")
    ensures ProcessPath(path, 4)
  {
    ByteOf(path, "/proc/self/", 10);
  }

  lemma NotBothGlobal(path: seq<u8>)
    ensures Begins(path, "/proc/sys/") || Begins(path, "/proc/net/") ==> Begins(path, "/proc/")
    ensures Begins(path, "/proc/sys/") ==> !Begins(path, "/proc/net/")
  {
    hide Begins;
    assert "/proc/" + "sys/" == "/proc/sys/" && "/proc/" + "net/" == "/proc/net/";
    BeginsJoined(path, "/proc/", "sys/");
    BeginsJoined(path, "/proc/", "net/");
    ByteOf(path, "/proc/sys/", 6);
    ByteOf(path, "/proc/net/", 6);
  }

  lemma ProcessIsNoGlobal(path: seq<u8>, n: nat)
    requires ProcessPath(path, n)
    ensures InProcess(KernelClass(path)) && !Begins(path, "/proc/sys/") && !Begins(path, "/proc/net/")
  {
    hide Begins, KernelClass, ProcSuffix, InProcess, TakesTail;
    ProcessExactly(path, n, KernelClass(path));
    SelfNames(path);
    assert path[6] != 'n' as int && (path[6] == 's' as int ==> path[7] == 'e' as int);
  }

  /** In /proc but in no process directory there are three classes. */
  lemma ProcGlobalExactly(path: seq<u8>)
    ensures KernelClass(path) == ProcGlobalSys <==> Begins(path, "/proc/sys/")
    ensures KernelClass(path) == ProcGlobalNet <==> Begins(path, "/proc/net/")
    ensures KernelClass(path) == ProcGlobal <==>
            && Begins(path, "/proc/") && !Begins(path, "/proc/sys/") && !Begins(path, "/proc/net/")
            && forall n :: !ProcessPath(path, n)
  {
    hide Begins, KernelClass, ProcessPath, ProcClass;
    TreeExactly(path);
    TreeTests(path);
    NotBothGlobal(path);
    if n :| ProcessPath(path, n) {
      ProcessIsNoGlobal(path, n);
    } else if Begins(path, "/proc/") {
      ProcOutsideProcess(path);
    }
  }
}
