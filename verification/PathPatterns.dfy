/** The path classes shared by the policy compiler and the kernel programs, their wildcard texts,
    and an AARE matcher giving those texts a meaning. */
module PathPatterns {
  import opened Strings

  /** Bytes of a directory prefix the enforcement maps hold. */
  const PREFIX_MAX_LEN := 128

  datatype PathPattern =
    | Regular
    | ProcPidCmdline | ProcPidComm | ProcPidCwd | ProcPidEnviron | ProcPidExe | ProcPidFd
    | ProcPidMaps | ProcPidMem | ProcPidMountinfo | ProcPidMounts | ProcPidNet | ProcPidNs
    | ProcPidRoot | ProcPidStat | ProcPidStatus | ProcPidTask | ProcPidCgroup | ProcPidOther
    | ProcSelf
    | ProcGlobal | ProcGlobalSys | ProcGlobalNet
    | SysCgroupDocker | SysCgroupOther | SysClassNet | SysOther
    | RunDocker | RunUser | RunOther
    | DevPts | DevShm | DevOther
    | TmpRandom | TmpOther
  {
    /** The wildcard text of the class. */
    function AsStr(): string {
      match this
      case Regular => "<regular>"
      case ProcPidCmdline => "/proc/*/cmdline"
      case ProcPidComm => "/proc/*/comm"
      case ProcPidCwd => "/proc/*/cwd"
      case ProcPidEnviron => "/proc/*/environ"
      case ProcPidExe => "/proc/*/exe"
      case ProcPidFd => "/proc/*/fd/*"
      case ProcPidMaps => "/proc/*/maps"
      case ProcPidMem => "/proc/*/mem"
      case ProcPidMountinfo => "/proc/*/mountinfo"
      case ProcPidMounts => "/proc/*/mounts"
      case ProcPidNet => "/proc/*/net/*"
      case ProcPidNs => "/proc/*/ns/*"
      case ProcPidRoot => "/proc/*/root"
      case ProcPidStat => "/proc/*/stat"
      case ProcPidStatus => "/proc/*/status"
      case ProcPidTask => "/proc/*/task/*"
      case ProcPidCgroup => "/proc/*/cgroup"
      case ProcPidOther => "/proc/*/<other>"
      case ProcSelf => "/proc/self/*"
      case ProcGlobal => "/proc/<global>"
      case ProcGlobalSys => "/proc/sys/**"
      case ProcGlobalNet => "/proc/net/*"
      case SysCgroupDocker => "/sys/fs/cgroup/**/docker/**"
      case SysCgroupOther => "/sys/fs/cgroup/**"
      case SysClassNet => "/sys/class/net/*"
      case SysOther => "/sys/**"
      case RunDocker => "/run/docker/**"
      case RunUser => "/run/user/*/**"
      case RunOther => "/run/**"
      case DevPts => "/dev/pts/*"
      case DevShm => "/dev/shm/*"
      case DevOther => "/dev/*"
      case TmpRandom => "/tmp/tmp*/**"
      case TmpOther => "/tmp/**"
    }

    /** The discriminant, used as a map key byte. */
    function Code(): (code: u8)
      ensures FromCode(code) == Some(this)
    {
      match this
      case Regular => 0
      case ProcPidCmdline => 1 case ProcPidComm => 2 case ProcPidCwd => 3
      case ProcPidEnviron => 4 case ProcPidExe => 5 case ProcPidFd => 6
      case ProcPidMaps => 7 case ProcPidMem => 8 case ProcPidMountinfo => 9
      case ProcPidMounts => 10 case ProcPidNet => 11 case ProcPidNs => 12
      case ProcPidRoot => 13 case ProcPidStat => 14 case ProcPidStatus => 15
      case ProcPidTask => 16 case ProcPidCgroup => 17 case ProcPidOther => 18
      case ProcSelf => 20
      case ProcGlobal => 30 case ProcGlobalSys => 31 case ProcGlobalNet => 32
      case SysCgroupDocker => 40 case SysCgroupOther => 41 case SysClassNet => 42 case SysOther => 43
      case RunDocker => 50 case RunUser => 51 case RunOther => 52
      case DevPts => 60 case DevShm => 61 case DevOther => 62
      case TmpRandom => 70 case TmpOther => 71
    }
  }

  /** Left inverse of `Code`: two classes never share a discriminant. */
  ghost function FromCode(code: u8): Option<PathPattern> {
    match code
    case 0 => Some(Regular)
    case 1 => Some(ProcPidCmdline) case 2 => Some(ProcPidComm) case 3 => Some(ProcPidCwd)
    case 4 => Some(ProcPidEnviron) case 5 => Some(ProcPidExe) case 6 => Some(ProcPidFd)
    case 7 => Some(ProcPidMaps) case 8 => Some(ProcPidMem) case 9 => Some(ProcPidMountinfo)
    case 10 => Some(ProcPidMounts) case 11 => Some(ProcPidNet) case 12 => Some(ProcPidNs)
    case 13 => Some(ProcPidRoot) case 14 => Some(ProcPidStat) case 15 => Some(ProcPidStatus)
    case 16 => Some(ProcPidTask) case 17 => Some(ProcPidCgroup) case 18 => Some(ProcPidOther)
    case 20 => Some(ProcSelf)
    case 30 => Some(ProcGlobal) case 31 => Some(ProcGlobalSys) case 32 => Some(ProcGlobalNet)
    case 40 => Some(SysCgroupDocker) case 41 => Some(SysCgroupOther)
    case 42 => Some(SysClassNet) case 43 => Some(SysOther)
    case 50 => Some(RunDocker) case 51 => Some(RunUser) case 52 => Some(RunOther)
    case 60 => Some(DevPts) case 61 => Some(DevShm) case 62 => Some(DevOther)
    case 70 => Some(TmpRandom) case 71 => Some(TmpOther)
    case _ => None
  }

  // ---- literal roots ----

  predicate IsGlobMeta(c: char) { c == '*' || c == '?' || c == '<' }

  /** The bytes of a wildcard text before its first wildcard or placeholder. */
  function GlobRoot(glob: string): (root: string)
    ensures root <= glob
    ensures forall c :: c in root ==> !IsGlobMeta(c)
    ensures |root| < |glob| ==> IsGlobMeta(glob[|root|])
  {
    if glob == "" || IsGlobMeta(glob[0]) then "" else [glob[0]] + GlobRoot(glob[1..])
  }

  lemma GlobRootUnique(glob: string, root: string)
    requires root <= glob
    requires forall c :: c in root ==> !IsGlobMeta(c)
    requires |root| < |glob| ==> IsGlobMeta(glob[|root|])
    ensures GlobRoot(glob) == root
  {
    var r := GlobRoot(glob);
    assert forall i :: 0 <= i < |r| ==> glob[i] in r;
    assert forall i :: 0 <= i < |root| ==> glob[i] in root;
  }

  /** Literal root of each class, in closed form. */
  function Root(c: PathPattern): string {
    match c
    case Regular => ""
    case ProcSelf => "/proc/self/"
    case ProcGlobalSys => "/proc/sys/"
    case ProcGlobalNet => "/proc/net/"
    case SysCgroupDocker | SysCgroupOther => "/sys/fs/cgroup/"
    case SysClassNet => "/sys/class/net/"
    case SysOther => "/sys/"
    case RunDocker => "/run/docker/"
    case RunUser => "/run/user/"
    case RunOther => "/run/"
    case DevPts => "/dev/pts/"
    case DevShm => "/dev/shm/"
    case DevOther => "/dev/"
    case TmpRandom => "/tmp/tmp"
    case TmpOther => "/tmp/"
    case _ => "/proc/"
  }

  lemma RootUnderProc(c: PathPattern)
    requires Root(c) == "/proc/"
    ensures GlobRoot(c.AsStr()) == "/proc/"
  {
    GlobRootUnique(c.AsStr(), "/proc/");
  }

  lemma RootElsewhere(c: PathPattern)
    requires Root(c) != "/proc/"
    ensures GlobRoot(c.AsStr()) == Root(c)
  {
    GlobRootUnique(c.AsStr(), Root(c));
  }

  lemma RootIsGlobRoot(c: PathPattern)
    ensures GlobRoot(c.AsStr()) == Root(c)
  {
    hide PathPattern.AsStr;
    if Root(c) == "/proc/" {
      RootUnderProc(c);
    } else {
      RootElsewhere(c);
    }
  }

  // ---- AARE matching ----

  /** Does the AARE text `glob` match the whole of `path`? `**` spans anything, `*` and `?` stop at '/'. */
  predicate AareMatch(glob: string, path: string)
    decreases |glob|, |path|
  {
    if glob == "" then path == ""
    else if |glob| >= 2 && glob[0] == '*' && glob[1] == '*' then
      AareMatch(glob[2..], path) || (path != "" && AareMatch(glob, path[1..]))
    else if glob[0] == '*' then
      AareMatch(glob[1..], path) || (path != "" && path[0] != '/' && AareMatch(glob, path[1..]))
    else if glob[0] == '?' then
      path != "" && path[0] != '/' && AareMatch(glob[1..], path[1..])
    else
      path != "" && path[0] == glob[0] && AareMatch(glob[1..], path[1..])
  }

  /** Whatever a wildcard text matches begins with its literal root. */
  lemma {:induction false} AareMatchesAreRooted(glob: string, path: string)
    requires AareMatch(glob, path)
    ensures GlobRoot(glob) <= path
    decreases |glob|
  {
    if glob != "" && !IsGlobMeta(glob[0]) {
      AareMatchesAreRooted(glob[1..], path[1..]);
    }
  }
}
