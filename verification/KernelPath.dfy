/** The fixed-size path buffer of the kernel programs: how a dentry chain is written into it from
    right to left, and what the readers of the buffer then see. */
module KernelPath {
  import opened Strings
  import Fnv

  const MAX_PATH_LEN := 1024
  const MAX_PATH_DEPTH := 128
  const MAX_NAME := 255
  const SLASH: u8 := 0x2F

  // ---- the kernel structures a walk reads ----

  type Id = nat

  const NULL: Id := 0

  datatype Mount = Mount(parent: Option<Id>, mountpoint: Option<Id>, root: Option<Id>)

  /** Parent and name of every dentry, and the mounts; what is absent cannot be read. */
  datatype Kernel = Kernel(parent: map<Id, Id>, name: map<Id, seq<u8>>, mounts: map<Id, Mount>)
  {
    function Parent(entry: Id): Option<Id> { if entry in parent then Some(parent[entry]) else None }

    function Name(entry: Id): Option<seq<u8>> { if entry in name then Some(name[entry]) else None }

    function MountParent(m: Id): Option<Id> { if m in mounts then mounts[m].parent else None }

    function Mountpoint(m: Id): Option<Id> { if m in mounts then mounts[m].mountpoint else None }

    function MountRoot(m: Id): Option<Id> { if m in mounts then mounts[m].root else None }
  }

  /** A `struct path`: its dentry, whether the inode behind it can be read, and its mount. */
  datatype PathRef =
    | NullPath
    | PathRef(dentry: Option<Id>, inodeReadable: bool, metadataReadable: bool, mount: Option<Id>)

  // ---- specification of the right-to-left writer ----

  /** The bytes at the tail of the buffer and the length counter, which can outgrow the buffer. */
  datatype Built = Built(tail: seq<u8>, len: nat) {
    predicate Valid() { |tail| == Min(len, MAX_PATH_LEN) }
  }

  function AddSep(b: Built): (r: Built)
    requires b.Valid()
    ensures r.Valid()
  {
    Built([SLASH] + (if b.len < MAX_PATH_LEN then b.tail else b.tail[1..]), b.len + 1)
  }

  function AddName(b: Built, name: seq<u8>): (r: Option<Built>)
    requires b.Valid()
    ensures r.Some? ==> r.value.Valid()
    ensures r.Some? <==> |name| <= MAX_NAME && b.len + |name| <= MAX_PATH_LEN
  {
    if |name| > MAX_NAME || b.len + |name| > MAX_PATH_LEN then None
    else Some(Built(name + b.tail, b.len + |name|))
  }

  datatype Outcome = Outcome(ok: bool, built: Built)

  /** The walk from `entry` in mount `m`, at most `steps` steps, on top of what is already written. */
  function Climb(k: Kernel, entry: Id, m: Id, mParent: Id, mRoot: Id, steps: nat, b: Built): (r: Outcome)
    requires b.Valid()
    ensures r.built.Valid()
    decreases steps
  {
    if steps == 0 then Outcome(true, AddSep(b))
    else if entry == mRoot then
      if m == mParent then Outcome(true, AddSep(b))
      else match (k.Mountpoint(m), k.MountParent(mParent), k.MountRoot(mParent))
        case (Some(at), Some(up), Some(root)) => Climb(k, at, mParent, up, root, steps - 1, b)
        case _ => Outcome(false, b)
    else match k.Parent(entry)
      case None => Outcome(false, b)
      case Some(parent) =>
        if entry == parent then Outcome(true, AddSep(b))
        else
          var s := if b.len > 0 then AddSep(b) else b;
          match k.Name(entry)
          case None => Outcome(false, s)
          case Some(name) =>
            match AddName(s, name)
            case None => Outcome(false, s)
            case Some(named) =>
              if parent == NULL then Outcome(true, AddSep(named))
              else Climb(k, parent, m, mParent, mRoot, steps - 1, named)
  }

  // ---- the buffer ----

  datatype Mode = Append | Prepend

  function CapSize(size: nat, cap: nat): nat
    requires cap > 0
  {
    if size >= cap then cap else size % cap
  }

  function Bounded(v: int, lo: int, hi: int): int { if v < lo then lo else if v > hi then hi else v }

  class Path {
    const buffer: array<u8>
    var len: u32
    var depth: u16
    var mode: Mode

    ghost predicate Valid()
      reads this, buffer
    {
      buffer.Length == MAX_PATH_LEN && len < 0x8000_0000
    }

    /** What has been written from the right end. */
    ghost function Written(): (b: Built)
      requires Valid()
      reads this, buffer
      ensures b.Valid()
    {
      Built(buffer[MAX_PATH_LEN - Min(len, MAX_PATH_LEN)..], len)
    }

    /** A zeroed path. */
    constructor ()
      ensures Valid() && fresh(buffer)
      ensures len == 0 && depth == 0 && mode == Append
      ensures forall i :: 0 <= i < buffer.Length ==> buffer[i] == 0
    {
      buffer := new u8[MAX_PATH_LEN](_ => 0);
      len, depth, mode := 0, 0, Append;
    }

    method PrependPathSep()
      requires Valid() && len < 0x7FFF_FFFF
      modifies this`len, buffer
      ensures Valid() && Written() == AddSep(old(Written())) && len == old(len) + 1
      ensures forall j :: 0 <= j < MAX_PATH_LEN - 1 - old(len) ==> buffer[j] == old(buffer[j])
    {
      var i := Bounded(buffer.Length - len - 1, 0, buffer.Length - 1);
      buffer[i] := SLASH;
      len := len + 1;
    }

    /** Writes one component; `name` is None when the kernel memory holding it cannot be read. */
    method PrependQstrName(name: Option<seq<u8>>) returns (ok: bool)
      requires Valid() && (name.Some? ==> |name.value| <= U32_MAX)
      modifies this`len, this`depth, buffer
      ensures Valid()
      ensures ok <==> name.Some? && AddName(old(Written()), name.value).Some?
      ensures ok ==> Written() == AddName(old(Written()), name.value).value
      ensures !ok ==> Written() == old(Written()) && buffer[..] == old(buffer[..])
      ensures old(len) <= len <= Max(old(len), MAX_PATH_LEN)
      ensures forall j :: 0 <= j < MAX_PATH_LEN - len ==> buffer[j] == old(buffer[j])
    {
      if name.None? {
        return false;
      }
      var qstrLen := |name.value|;
      var left := (buffer.Length - len) % 0x1_0000_0000;
      var size := qstrLen % 0x100;
      if qstrLen > MAX_NAME || left < qstrLen {
        return false;
      }
      var i := left - size;
      if i > buffer.Length {
        return false;
      }
      assert size == qstrLen && len + size <= MAX_PATH_LEN;
      forall k | 0 <= k < size {
        buffer[i + k] := name.value[k];
      }
      assert buffer[i..] == name.value + old(buffer[i + size..]);
      len := len + size;
      depth := (depth + 1) % 0x1_0000;
      return true;
    }

    /** The bytes before the written tail are as they were. */
    twostate predicate HeadKept()
      requires Valid()
      reads this, buffer
    {
      forall j :: 0 <= j < MAX_PATH_LEN - len && j < buffer.Length ==> buffer[j] == old(buffer[j])
    }

    /** Resolves `p` into the buffer; on failure the components written so far stay. */
    method CoreResolve(k: Kernel, p: PathRef, maxDepth: u16) returns (ok: bool)
      requires Valid() && len <= MAX_PATH_LEN
      requires forall e :: e in k.name ==> |k.name[e]| <= U32_MAX
      modifies this, buffer
      ensures Valid() && HeadKept()
      ensures Outcome(ok, Written()) == Resolved(k, p, maxDepth, old(Written()))
      ensures mode == if ReachesBuffer(p) then Prepend else old(mode)
    {
      hide AddSep, AddName;
      if p.NullPath? {
        return true;
      }
      if p.dentry.None? || !p.inodeReadable {
        return false;
      }
      var entry := p.dentry.value;
      mode := Prepend;
      if !p.metadataReadable || p.mount.None? {
        return false;
      }
      var mount := p.mount.value;
      var mntParent, mntRoot := k.MountParent(mount), k.MountRoot(mount);
      if mntParent.None? || mntRoot.None? {
        return false;
      }
      ghost var result := Climb(k, entry, mount, mntParent.value, mntRoot.value, maxDepth, old(Written()));
      var i := 0;
      ghost var b := Written();
      while i < maxDepth
        invariant Valid() && 0 <= i <= maxDepth && HeadKept()
        invariant mntParent.Some? && mntRoot.Some? && mode == Prepend
        invariant len <= MAX_PATH_LEN + i
        invariant b == Written()
        invariant result == Climb(k, entry, mount, mntParent.value, mntRoot.value, maxDepth - i, b)
      {
        if entry == mntRoot.value {
          if mount == mntParent.value {
            break;
          }
          var at := k.Mountpoint(mount);
          if at.None? {
            return false;
          }
          entry := at.value;
          mount := mntParent.value;
          mntParent, mntRoot := k.MountParent(mount), k.MountRoot(mount);
          if mntParent.None? || mntRoot.None? {
            return false;
          }
        } else {
          var parent := k.Parent(entry);
          if parent.None? {
            return false;
          }
          if entry == parent.value {
            break;
          }
          if len != 0 {
            PrependPathSep();
          }
          var named := PrependQstrName(k.Name(entry));
          if !named {
            return false;
          }
          if parent.value == NULL {
            break;
          }
          entry, b := parent.value, Written();
        }
        i := i + 1;
      }
      PrependPathSep();
      return true;
    }

    // ---- readers ----

    method HashPath() returns (hash: u64)
      requires Valid()
      ensures hash == Fnv.Hash(Seen(buffer[..], mode, len))
    {
      hide Fnv.Step;
      var start := RawStart(mode, len);
      ghost var seen := Seen(buffer[..], mode, len);
      hash := Fnv.OFFSET_BASIS;
      var i := 0;
      while i < MAX_PATH_LEN
        invariant 0 <= i <= Min(len, MAX_PATH_LEN)
        invariant Fnv.HashFrom(hash, seen[i..]) == Fnv.Hash(seen)
      {
        if i >= len {
          break;
        }
        var byte := buffer[(start + i) % MAX_PATH_LEN];
        assert byte == seen[i..][0];
        if byte == 0 {
          break;
        }
        assert seen[i..][1..] == seen[i + 1..];
        hash := Fnv.Step(hash, byte);
        i := i + 1;
      }
    }

    method ToClassifyBuffer() returns (out: array<u8>)
      requires Valid()
      ensures fresh(out) && out[..] == ClassifyBytes(buffer[..], mode, len)
    {
      out := new u8[MAX_PATH_DEPTH](_ => 0);
      if mode == Append {
        forall j | 0 <= j < MAX_PATH_DEPTH { out[j] := buffer[j]; }
        assert out[..] == buffer[..][..MAX_PATH_DEPTH];
      } else if len == 0 || len > MAX_PATH_LEN {
        assert out[..] == Zeros(MAX_PATH_DEPTH);
      } else if len >= MAX_PATH_DEPTH {
        var start := Bounded(MAX_PATH_LEN - CapSize(len, MAX_PATH_LEN), 0, MAX_PATH_LEN - MAX_PATH_DEPTH);
        forall j | 0 <= j < MAX_PATH_DEPTH { out[j] := buffer[start + j]; }
        assert out[..] == buffer[..][MAX_PATH_LEN - len..][..MAX_PATH_DEPTH];
      } else {
        var start := Bounded(MAX_PATH_LEN - CapSize(len, MAX_PATH_DEPTH), MAX_PATH_LEN - MAX_PATH_DEPTH, MAX_PATH_LEN - 1);
        for i := 0 to COPIED
          invariant forall j :: 0 <= j < i ==> out[j] == buffer[Min(start + j, MAX_PATH_LEN - 1)]
          invariant forall j :: i <= j < MAX_PATH_DEPTH ==> out[j] == 0
        {
          out[i] := buffer[Bounded(start + i, 0, MAX_PATH_LEN - 1)];
        }
        assert start == MAX_PATH_LEN - len;
        ShortCopy(buffer[..], len, out[..]);
      }
    }
  }

  function RawStart(mode: Mode, len: nat): (start: nat)
    ensures start <= MAX_PATH_LEN
  {
    match mode
    case Append => 0
    case Prepend => MAX_PATH_LEN - CapSize(len, MAX_PATH_LEN - 255)
  }

  /** The bytes the hash and the prefix comparison read, in the order they read them. */
  function Seen(buffer: seq<u8>, mode: Mode, len: nat): (bytes: seq<u8>)
    requires |buffer| == MAX_PATH_LEN
    ensures |bytes| == Min(len, MAX_PATH_LEN)
  {
    seq(Min(len, MAX_PATH_LEN), i requires 0 <= i => buffer[(RawStart(mode, len) + i) % MAX_PATH_LEN])
  }

  const COPIED := 32

  function Zeros(n: nat): seq<u8> { seq(n, _ => 0) }

  /** The first 32 bytes of a short path, its last byte repeated up to there, then zeros. */
  function ShortBytes(text: seq<u8>): (r: seq<u8>)
    requires text != []
    ensures |r| == MAX_PATH_DEPTH
  {
    seq(MAX_PATH_DEPTH, i requires 0 <= i => if i >= COPIED then 0 else text[Min(i, |text| - 1)])
  }

  lemma ShortCopy(buffer: seq<u8>, len: nat, out: seq<u8>)
    requires |buffer| == MAX_PATH_LEN && 0 < len < MAX_PATH_DEPTH && |out| == MAX_PATH_DEPTH
    requires forall j :: 0 <= j < COPIED ==> out[j] == buffer[Min(MAX_PATH_LEN - len + j, MAX_PATH_LEN - 1)]
    requires forall j :: COPIED <= j < MAX_PATH_DEPTH ==> out[j] == 0
    ensures out == ShortBytes(buffer[MAX_PATH_LEN - len..])
  {
    var text := buffer[MAX_PATH_LEN - len..];
    forall j | 0 <= j < COPIED ensures out[j] == ShortBytes(text)[j] {
      assert text[Min(j, len - 1)] == buffer[MAX_PATH_LEN - len + Min(j, len - 1)];
    }
  }

  /** The 128 bytes the classifier gets. */
  function ClassifyBytes(buffer: seq<u8>, mode: Mode, len: nat): (bytes: seq<u8>)
    requires |buffer| == MAX_PATH_LEN
    ensures |bytes| == MAX_PATH_DEPTH
  {
    if mode == Append then buffer[..MAX_PATH_DEPTH]
    else if len == 0 || len > MAX_PATH_LEN then Zeros(MAX_PATH_DEPTH)
    else if len >= MAX_PATH_DEPTH then buffer[MAX_PATH_LEN - len..][..MAX_PATH_DEPTH]
    else ShortBytes(buffer[MAX_PATH_LEN - len..])
  }

  predicate ReachesBuffer(p: PathRef) { p.PathRef? && p.dentry.Some? && p.inodeReadable }

  function Resolved(k: Kernel, p: PathRef, maxDepth: nat, b: Built): Outcome
    requires b.Valid()
  {
    if p.NullPath? then Outcome(true, b)
    else if !ReachesBuffer(p) || !p.metadataReadable || p.mount.None? then Outcome(false, b)
    else match (k.MountParent(p.mount.value), k.MountRoot(p.mount.value))
      case (Some(up), Some(root)) => Climb(k, p.dentry.value, p.mount.value, up, root, maxDepth, b)
      case _ => Outcome(false, b)
  }

  // ---- what the writer leaves: the absolute path of the file ----

  /** Component names from the root down, and whether the walk came to a root. */
  datatype Trail = Trail(names: seq<seq<u8>>, complete: bool)

  /** Where `entry` of mount `m` is: read from the root down, up to `steps` links above the entry. */
  function Location(k: Kernel, entry: Id, m: Id, mParent: Id, mRoot: Id, steps: nat): (r: Option<Trail>)
    decreases steps
  {
    if entry == mRoot && m == mParent then Some(Trail([], true))
    else if steps == 0 then Some(Trail([], false))
    else if entry == mRoot then
      match (k.Mountpoint(m), k.MountParent(mParent), k.MountRoot(mParent))
      case (Some(at), Some(up), Some(root)) => Location(k, at, mParent, up, root, steps - 1)
      case _ => None
    else match k.Parent(entry)
      case None => None
      case Some(parent) =>
        if entry == parent then Some(Trail([], true))
        else match k.Name(entry)
          case None => None
          case Some(name) =>
            match if parent == NULL then Some(Trail([], true)) else Location(k, parent, m, mParent, mRoot, steps - 1)
            case None => None
            case Some(above) => Some(Trail(above.names + [name], above.complete))
  }

  function Joined(names: seq<seq<u8>>): seq<u8> {
    if names == [] then [] else [SLASH] + names[0] + Joined(names[1..])
  }

  /** The absolute path with these components. */
  function Absolute(names: seq<seq<u8>>): seq<u8> {
    if names == [] then [SLASH] else Joined(names)
  }

  lemma {:induction false} JoinedAppend(a: seq<seq<u8>>, b: seq<seq<u8>>)
    ensures Joined(a + b) == Joined(a) + Joined(b)
    decreases |a|
  {
    if a == [] {
      assert a + b == b;
    } else {
      assert (a + b)[1..] == a[1..] + b;
      JoinedAppend(a[1..], b);
    }
  }

  predicate ShortNames(names: seq<seq<u8>>) { forall i :: 0 <= i < |names| ==> |names[i]| <= 255 }

  predicate Fits(names: seq<seq<u8>>) { ShortNames(names) && |Absolute(names)| <= 1024 }

  /** What is in the buffer below the components still to come: everything but the leading '/'. */
  function Below(names: seq<seq<u8>>): Built {
    if names == [] then Built([], 0) else Built(Joined(names)[1..], |Joined(names)| - 1)
  }

  /** A dentry that is not a root has a name. */
  predicate Named(names: seq<seq<u8>>) { forall i :: 0 <= i < |names| ==> names[i] != [] }

  lemma JoinedBelow(name: seq<u8>, below: seq<seq<u8>>)
    ensures Joined([name] + below)[0] == SLASH
    ensures Joined([name] + below)[1..] == name + Joined(below)
    ensures below != [] && Named(below) ==> |Joined(below)| >= 2
  {
    assert ([name] + below)[1..] == below;
  }

  lemma SepThenName(name: seq<u8>, below: seq<seq<u8>>)
    requires Named(below) && Below(below).Valid()
    ensures var b := Below(below); var s := if b.len > 0 then AddSep(b) else b;
      AddName(s, name) == if |name| <= MAX_NAME && |Joined([name] + below)| <= MAX_PATH_LEN + 1
                          then Some(Below([name] + below)) else None
  {
    JoinedBelow(name, below);
    var b := Below(below);
    if below != [] {
      JoinedBelow(below[0], below[1..]);
      assert below == [below[0]] + below[1..];
      if b.len < MAX_PATH_LEN {
        assert AddSep(b) == Built(Joined(below), |Joined(below)|);
      }
    } else {
      assert name + [] == name;
    }
  }

  lemma {:induction false} AbsoluteAtLeast(above: seq<seq<u8>>, below: seq<seq<u8>>)
    ensures |Absolute(above + below)| >= |Joined(below)|
    ensures !ShortNames(below) ==> !ShortNames(above + below)
  {
    JoinedAppend(above, below);
    if !ShortNames(below) {
      var i :| 0 <= i < |below| && |below[i]| > MAX_NAME;
      assert (above + below)[|above| + i] == below[i];
    }
  }

  /** At the top the leading '/' goes on; a buffer already full loses its first byte to it. */
  lemma FinalSep(names: seq<seq<u8>>)
    requires Named(names) && ShortNames(names) && Below(names).Valid()
    ensures Fits(names) <==> AddSep(Below(names)) == Built(Absolute(names), |Absolute(names)|)
  {
    if names != [] {
      JoinedBelow(names[0], names[1..]);
      assert names == [names[0]] + names[1..];
    }
  }

  lemma TooLong(names: seq<seq<u8>>, some: seq<seq<u8>>)
    requires |Absolute(names)| >= |Joined(some)|
    requires !ShortNames(some) ==> !ShortNames(names)
    requires !ShortNames(some) || |Joined(some)| > MAX_PATH_LEN
    ensures !Fits(names)
  {
    hide Joined;
  }

  lemma NamedParts(above: seq<seq<u8>>, name: seq<u8>, below: seq<seq<u8>>)
    requires Named(above + [name]) && Named(below) && ShortNames(below)
    ensures Named(above) && Named([name] + below)
    ensures ShortNames([name] + below) <==> |name| <= MAX_NAME
  {
    var all := above + [name];
    assert all[|above|] == name;
    assert forall i :: 0 <= i < |above| ==> all[i] == above[i];
    assert ([name] + below)[0] == name;
  }

  /** One step of the walk that writes a component. */
  lemma ClimbName(k: Kernel, entry: Id, m: Id, mParent: Id, mRoot: Id, steps: nat, below: seq<seq<u8>>, name: seq<u8>)
    requires Below(below).Valid() && Named(below) && steps > 0 && entry != mRoot
    requires k.Parent(entry).Some? && k.Parent(entry).value != entry && k.Name(entry) == Some(name)
    ensures var r := Climb(k, entry, m, mParent, mRoot, steps, Below(below));
      var more := [name] + below;
      if |name| > MAX_NAME || |Joined(more)| > MAX_PATH_LEN + 1 then !r.ok
      else
        && Below(more).Valid()
        && r == if k.Parent(entry).value == NULL then Outcome(true, AddSep(Below(more)))
                else Climb(k, k.Parent(entry).value, m, mParent, mRoot, steps - 1, Below(more))
  {
    hide Joined, Below, AddSep, AddName;
    SepThenName(name, below);
  }

  /** The walk adds the components above `entry` to those below it. */
  lemma {:induction false} ClimbJoins(
      k: Kernel, entry: Id, m: Id, mParent: Id, mRoot: Id, steps: nat, below: seq<seq<u8>>)
    requires Below(below).Valid() && ShortNames(below)
    requires Location(k, entry, m, mParent, mRoot, steps).Some?
    requires Named(Location(k, entry, m, mParent, mRoot, steps).value.names) && Named(below)
    ensures var names := Location(k, entry, m, mParent, mRoot, steps).value.names + below;
      var r := Climb(k, entry, m, mParent, mRoot, steps, Below(below));
      Fits(names) <==> r.ok && r.built == Built(Absolute(names), |Absolute(names)|)
    decreases steps
  {
    hide Joined, Below, AddSep, AddName, Absolute, Fits, Named;
    assert [] + below == below;
    if (entry == mRoot && m == mParent) || steps == 0 {
      FinalSep(below);
    } else if entry == mRoot {
      ClimbJoins(k, k.Mountpoint(m).value, mParent, k.MountParent(mParent).value, k.MountRoot(mParent).value,
                 steps - 1, below);
    } else if entry == k.Parent(entry).value {
      FinalSep(below);
    } else {
      var parent, name := k.Parent(entry).value, k.Name(entry).value;
      var more := [name] + below;
      var above := if parent == NULL then [] else Location(k, parent, m, mParent, mRoot, steps - 1).value.names;
      assert (above + [name]) + below == above + more;
      AbsoluteAtLeast(above, more);
      NamedParts(above, name, below);
      ClimbName(k, entry, m, mParent, mRoot, steps, below, name);
      if |name| > MAX_NAME || |Joined(more)| > MAX_PATH_LEN + 1 {
        TooLong(above + more, more);
      } else if parent == NULL {
        assert [] + more == more;
        FinalSep(more);
      } else {
        ClimbJoins(k, parent, m, mParent, mRoot, steps - 1, more);
      }
    }
  }

  /** A walk that runs into unreadable memory reports failure. */
  lemma {:induction false} UnreadableFails(
      k: Kernel, entry: Id, m: Id, mParent: Id, mRoot: Id, steps: nat, b: Built)
    requires b.Valid()
    requires Location(k, entry, m, mParent, mRoot, steps).None?
    ensures !Climb(k, entry, m, mParent, mRoot, steps, b).ok
    decreases steps
  {
    hide AddSep, AddName;
    if entry == mRoot {
      if k.Mountpoint(m).Some? && k.MountParent(mParent).Some? && k.MountRoot(mParent).Some? {
        UnreadableFails(k, k.Mountpoint(m).value, mParent, k.MountParent(mParent).value,
                        k.MountRoot(mParent).value, steps - 1, b);
      }
    } else if k.Parent(entry).Some? && k.Name(entry).Some? && k.Parent(entry).value != NULL {
      var s := if b.len > 0 then AddSep(b) else b;
      if AddName(s, k.Name(entry).value).Some? {
        UnreadableFails(k, k.Parent(entry).value, m, mParent, mRoot, steps - 1, AddName(s, k.Name(entry).value).value);
      }
    }
  }

  /** A walk that came to a root reads the same location under any larger step bound. */
  lemma {:induction false} CompleteIsStable(
      k: Kernel, entry: Id, m: Id, mParent: Id, mRoot: Id, steps: nat, more: nat)
    requires steps <= more
    requires Location(k, entry, m, mParent, mRoot, steps).Some?
    requires Location(k, entry, m, mParent, mRoot, steps).value.complete
    ensures Location(k, entry, m, mParent, mRoot, more) == Location(k, entry, m, mParent, mRoot, steps)
    decreases steps
  {
    if entry == mRoot && m == mParent {
    } else if entry == mRoot {
      CompleteIsStable(k, k.Mountpoint(m).value, mParent, k.MountParent(mParent).value,
                       k.MountRoot(mParent).value, steps - 1, more - 1);
    } else if entry != k.Parent(entry).value && k.Parent(entry).value != NULL {
      CompleteIsStable(k, k.Parent(entry).value, m, mParent, mRoot, steps - 1, more - 1);
    }
  }

  function Start(k: Kernel, p: PathRef, steps: nat): Option<Trail> {
    if !ReachesBuffer(p) || !p.metadataReadable || p.mount.None? then None
    else match (k.MountParent(p.mount.value), k.MountRoot(p.mount.value))
      case (Some(up), Some(root)) => Location(k, p.dentry.value, p.mount.value, up, root, steps)
      case _ => None
  }

  /** On a zeroed buffer, resolution succeeds with the file's absolute path exactly when it is
      readable and fits; a location deeper than the bound loses its components nearest the root. */
  lemma ResolveIsAbsolutePath(k: Kernel, p: PathRef, maxDepth: nat)
    requires Start(k, p, maxDepth).Some? ==> Named(Start(k, p, maxDepth).value.names)
    ensures var r := Resolved(k, p, maxDepth, Built([], 0));
      match Start(k, p, maxDepth)
      case None => r.ok <==> p.NullPath?
      case Some(trail) => Fits(trail.names) <==>
                          r.ok && r.built == Built(Absolute(trail.names), |Absolute(trail.names)|)
  {
    hide Location, Climb, Fits, Absolute;
    if ReachesBuffer(p) && p.metadataReadable && p.mount.Some? {
      var m := p.mount.value;
      var up, root := k.MountParent(m), k.MountRoot(m);
      if up.Some? && root.Some? {
        if Start(k, p, maxDepth).None? {
          UnreadableFails(k, p.dentry.value, m, up.value, root.value, maxDepth, Built([], 0));
        } else {
          var names := Start(k, p, maxDepth).value.names;
          assert names + [] == names;
          assert Below([]) == Built([], 0);
          ClimbJoins(k, p.dentry.value, m, up.value, root.value, maxDepth, []);
        }
      }
    }
  }

  // ---- what the readers see ----

  const EXACT_LEN := MAX_PATH_LEN - 255

  function UpToNul(bytes: seq<u8>): (r: seq<u8>)
    ensures r <= bytes && Fnv.NulFree(r)
    ensures |r| < |bytes| ==> bytes[|r|] == 0
  {
    if bytes == [] || bytes[0] == 0 then [] else [bytes[0]] + UpToNul(bytes[1..])
  }

  lemma UpToNulUnique(bytes: seq<u8>, r: seq<u8>)
    requires r <= bytes && Fnv.NulFree(r) && (|r| < |bytes| ==> bytes[|r|] == 0)
    ensures UpToNul(bytes) == r
  {
    var u := UpToNul(bytes);
    assert forall i :: 0 <= i < |u| ==> u[i] == bytes[i];
    assert forall i :: 0 <= i < |r| ==> r[i] == bytes[i];
  }

  /** A right-aligned path over zeros. */
  predicate RightAligned(buffer: seq<u8>, text: seq<u8>) {
    && |buffer| == MAX_PATH_LEN
    && |text| <= MAX_PATH_LEN
    && buffer == Zeros(MAX_PATH_LEN - |text|) + text
  }

  lemma SeenAt(buffer: seq<u8>, text: seq<u8>, i: nat)
    requires RightAligned(buffer, text) && i < |text|
    ensures Seen(buffer, Prepend, |text|)[i] ==
            if |text| <= EXACT_LEN then text[i]
            else if i < EXACT_LEN then text[|text| - EXACT_LEN + i]
            else if |text| < MAX_PATH_LEN && i == EXACT_LEN then 0
            else if |text| == MAX_PATH_LEN then text[i - EXACT_LEN]
            else buffer[i - EXACT_LEN]
  {
    var start := RawStart(Prepend, |text|);
    assert start == MAX_PATH_LEN - Min(|text|, EXACT_LEN);
    if i < EXACT_LEN {
      assert (start + i) % MAX_PATH_LEN == start + i;
    } else {
      assert (start + i) % MAX_PATH_LEN == i - EXACT_LEN;
    }
  }

  /** Up to 769 bytes the readers see exactly the path; a longer one has its front cut off, and one
      that fills the buffer is read from its byte 255 on and then around to its start. */
  lemma WhatIsSeen(buffer: seq<u8>, text: seq<u8>)
    requires RightAligned(buffer, text) && Fnv.NulFree(text)
    ensures UpToNul(Seen(buffer, Prepend, |text|)) ==
            if |text| <= 769 then text
            else if |text| < 1024 then text[|text| - 769..]
            else text[255..] + text[..255]
  {
    var n := |text|;
    var seen := Seen(buffer, Prepend, n);
    var r := if n <= EXACT_LEN then text
             else if n < MAX_PATH_LEN then text[n - EXACT_LEN..]
             else text[255..] + text[..255];
    forall i | 0 <= i < |r| ensures seen[i] == r[i] && r[i] != 0 {
      SeenAt(buffer, text, i);
    }
    assert seen[..|r|] == r;
    if |r| < n {
      SeenAt(buffer, text, |r|);
    }
    UpToNulUnique(seen, r);
  }

  /** The readers see the path itself exactly when it is at most 769 bytes long (or fills the buffer
      and is its own rotation). */
  lemma SeenExactlyWhen(buffer: seq<u8>, text: seq<u8>)
    requires RightAligned(buffer, text) && Fnv.NulFree(text)
    ensures UpToNul(Seen(buffer, Prepend, |text|)) == text <==>
            |text| <= 769 || (|text| == 1024 && text[255..] + text[..255] == text)
  {
    WhatIsSeen(buffer, text);
  }

  lemma {:induction false} HashUpToNul(h: u64, bytes: seq<u8>)
    ensures Fnv.HashFrom(h, bytes) == Fnv.HashFrom(h, UpToNul(bytes))
    decreases |bytes|
  {
    hide Fnv.Step;
    if bytes != [] && bytes[0] != 0 {
      var u := UpToNul(bytes);
      assert u[1..] == UpToNul(bytes[1..]);
      HashUpToNul(Fnv.Step(h, bytes[0]), bytes[1..]);
    }
  }

  /** The kernel's hash of a resolved path is the userspace hash of the same bytes up to 769 bytes;
      beyond that it is the hash of the last 769 bytes, so paths sharing those share the hash. */
  lemma KernelHashIsUserHash(buffer: seq<u8>, text: seq<u8>)
    requires RightAligned(buffer, text) && Fnv.NulFree(text) && |text| < MAX_PATH_LEN
    ensures Fnv.Hash(Seen(buffer, Prepend, |text|)) ==
            if |text| <= 769 then Fnv.Hash(text) else Fnv.Hash(text[|text| - 769..])
  {
    WhatIsSeen(buffer, text);
    HashUpToNul(Fnv.OFFSET_BASIS, Seen(buffer, Prepend, |text|));
  }

  lemma AppendModeSeesThePath(buffer: seq<u8>, len: nat)
    requires |buffer| == MAX_PATH_LEN && len <= MAX_PATH_LEN
    ensures Seen(buffer, Append, len) == buffer[..len]
  {
    var seen := Seen(buffer, Append, len);
    forall i | 0 <= i < len ensures seen[i] == buffer[i] {
      assert (RawStart(Append, len) + i) % MAX_PATH_LEN == i;
    }
  }
}
