/** Following a container across restarts: a watcher thread polls the container runtime and queues
    state changes; a consumer task takes them and moves the monitor's cgroup filter and the
    enforcement maps to the new cgroup. */
module Restart {
  import opened Strings
  import opened Ir
  import opened Loader

  // ---- messages ----

  datatype Message = Stopped | Started(containerId: string, cgroup: u64) | Error

  /** What the runtime answers to one poll; `cgroup` is None when the cgroup cannot be resolved. */
  datatype PollResult = Inspected(containerId: string, running: bool, cgroup: Option<u64>) | NotFound | Failed

  /** A FIFO channel as the log of everything queued, of which the first `taken` are delivered. */
  datatype Log = Log(sent: seq<Message>, taken: nat, senderOpen: bool, receiverOpen: bool) {
    predicate Valid() { taken <= |sent| }

    function Queue(): seq<Message>
      requires Valid()
    {
      sent[taken..]
    }
  }

  /** A message sent to a closed receiver is dropped. */
  function Send(ch: Log, m: Message): Log { if ch.receiverOpen then ch.(sent := ch.sent + [m]) else ch }

  class Channel {
    var log: Log

    constructor ()
      ensures log == Log([], 0, true, true)
    {
      log := Log([], 0, true, true);
    }

    method Push(m: Message)
      modifies this
      ensures log == Send(old(log), m)
    {
      if log.receiverOpen {
        log := log.(sent := log.sent + [m]);
      }
    }

    method TryRecv() returns (m: Option<Message>)
      requires log.Valid()
      modifies this
      ensures log.Valid()
      ensures old(log.taken) < |old(log.sent)| ==>
                m == Some(old(log.sent[log.taken])) && log == old(log).(taken := old(log.taken) + 1)
      ensures old(log.taken) == |old(log.sent)| ==> m == None && log == old(log)
    {
      if log.taken == |log.sent| {
        return None;
      }
      m := Some(log.sent[log.taken]);
      log := log.(taken := log.taken + 1);
    }
  }

  // ---- the watcher ----

  const NORMAL_INTERVAL := 2000
  const FAST_INTERVAL := 100
  const REMOVED_INTERVAL := 5000

  datatype WatcherState = WatcherState(
    wasRunning: bool, currentId: string, currentCgroup: u64, pollInterval: nat, looping: bool)

  /** Announces the cgroup of a container seen running again. */
  function Announced(w: WatcherState, ch: Log, id: string, cgroup: Option<u64>): (WatcherState, Log) {
    if cgroup.Some? then (w.(currentId := id, currentCgroup := cgroup.value), Send(ch, Started(id, cgroup.value)))
    else (w.(currentId := id), Send(ch, Error))
  }

  function Exit(w: WatcherState, ch: Log): (WatcherState, Log) { (w.(looping := false), ch.(senderOpen := false)) }

  /** One turn of the watcher's loop. */
  function Poll(w: WatcherState, ch: Log, stop: bool, r: PollResult): (WatcherState, Log) {
    if !w.looping then (w, ch)
    else if stop then Exit(w, ch)
    else match r
      case Inspected(id, running, cgroup) =>
        if !running && w.wasRunning then (w.(wasRunning := false, pollInterval := FAST_INTERVAL), Send(ch, Stopped))
        else if running && !w.wasRunning then
          Announced(w.(wasRunning := true, pollInterval := NORMAL_INTERVAL), ch, id, cgroup)
        else if running && cgroup.Some? && cgroup.value != w.currentCgroup then
          (w.(currentId := id, currentCgroup := cgroup.value), Send(ch, Started(id, cgroup.value)))
        else (w, ch)
      case NotFound =>
        if w.wasRunning then Exit(w, Send(ch, Error)) else (w.(pollInterval := REMOVED_INTERVAL), ch)
      case Failed => (w, Send(ch, Error))
  }

  class Watcher {
    const tx: Channel
    var wasRunning: bool
    var currentId: string
    var currentCgroup: u64
    var pollInterval: nat
    var looping: bool

    function State(): WatcherState
      reads this
    {
      WatcherState(wasRunning, currentId, currentCgroup, pollInterval, looping)
    }

    constructor (tx: Channel, initialId: string, initialCgroup: u64)
      ensures this.tx == tx
      ensures State() == WatcherState(true, initialId, initialCgroup, NORMAL_INTERVAL, true)
    {
      this.tx := tx;
      wasRunning, currentId, currentCgroup, pollInterval, looping := true, initialId, initialCgroup, NORMAL_INTERVAL, true;
    }

    method Turn(stop: bool, r: PollResult)
      modifies this, tx
      ensures (State(), tx.log) == Poll(old(State()), old(tx.log), stop, r)
    {
      if !looping {
        return;
      }
      if stop {
        Break();
        return;
      }
      match r
      case Inspected(id, running, cgroup) =>
        if !running && wasRunning {
          wasRunning := false;
          pollInterval := FAST_INTERVAL;
          tx.Push(Stopped);
        } else if running && !wasRunning {
          wasRunning := true;
          pollInterval := NORMAL_INTERVAL;
          SendCgroupUpdate(id, cgroup);
        } else if running {
          if cgroup.Some? && cgroup.value != currentCgroup {
            if id != currentId {
              currentId := id;
            }
            currentCgroup := cgroup.value;
            tx.Push(Started(id, cgroup.value));
          }
        }
      case NotFound =>
        if wasRunning {
          tx.Push(Error);
          Break();
        } else {
          pollInterval := REMOVED_INTERVAL;
        }
      case Failed =>
        tx.Push(Error);
    }

    method SendCgroupUpdate(id: string, cgroup: Option<u64>)
      modifies this, tx
      ensures (State(), tx.log) == Announced(old(State()), old(tx.log), id, cgroup)
    {
      if id != currentId {
        currentId := id;
      }
      if cgroup.Some? {
        currentCgroup := cgroup.value;
        tx.Push(Started(id, cgroup.value));
      } else {
        tx.Push(Error);
      }
    }

    method Break()
      modifies this`looping, tx
      ensures (State(), tx.log) == Exit(old(State()), old(tx.log))
    {
      looping := false;
      tx.log := tx.log.(senderOpen := false);
    }
  }

  // ---- the consumer ----

  const TRACKED: u32 := 1

  /** The policy being enforced, if any: its fixed part and the maps it is loaded into. */
  datatype Policy = Policy(auditOnly: bool, rules: seq<Rule>, maps: Maps)

  datatype ConsumerState = ConsumerState(
    filter: map<u64, u32>, current: u64, policy: Option<Policy>, looping: bool)

  function MovePolicy(p: Option<Policy>, oldCgroup: u64, newCgroup: u64): Option<Policy> {
    if p.Some? then
      Some(p.value.(maps := Rebound(p.value.maps, oldCgroup, newCgroup, p.value.auditOnly, p.value.rules)))
    else None
  }

  function Move(c: ConsumerState, cgroup: u64): ConsumerState {
    if cgroup == c.current then c
    else c.(filter := (c.filter - {c.current})[cgroup := TRACKED],
            policy := MovePolicy(c.policy, c.current, cgroup),
            current := cgroup)
  }

  function StopConsumer(c: ConsumerState, ch: Log): (ConsumerState, Log) {
    (c.(looping := false), ch.(receiverOpen := false))
  }

  /** One turn of the consumer's loop. */
  function Consume(c: ConsumerState, ch: Log): (r: (ConsumerState, Log))
    requires ch.Valid()
    ensures r.1.Valid()
  {
    if !c.looping then (c, ch)
    else if ch.taken == |ch.sent| then (if ch.senderOpen then (c, ch) else StopConsumer(c, ch))
    else
      var rest := ch.(taken := ch.taken + 1);
      match ch.sent[ch.taken]
      case Stopped => (c, rest)
      case Started(_, cgroup) => (Move(c, cgroup), rest)
      case Error => StopConsumer(c, rest)
  }

  class Consumer {
    const rx: Channel
    const loaded: LoadedPolicy?
    var filter: map<u64, u32>
    var current: u64
    var looping: bool

    function State(): ConsumerState
      reads this, loaded
    {
      ConsumerState(
        filter, current,
        if loaded == null then None else Some(Policy(loaded.auditOnly, loaded.rules, loaded.State())), looping)
    }

    /** The filter tracks the initial cgroup; `loaded` is the policy loaded for it, if enforcing. */
    constructor (rx: Channel, loaded: LoadedPolicy?, initialCgroup: u64)
      ensures this.rx == rx && this.loaded == loaded
      ensures State() == ConsumerState(
                map[initialCgroup := TRACKED], initialCgroup,
                if loaded == null then None else Some(Policy(loaded.auditOnly, loaded.rules, loaded.State())), true)
    {
      this.rx, this.loaded := rx, loaded;
      filter, current, looping := map[initialCgroup := TRACKED], initialCgroup, true;
    }

    method Turn()
      requires rx.log.Valid()
      modifies this, rx, loaded
      ensures (State(), rx.log) == Consume(old(State()), old(rx.log))
    {
      if !looping {
        return;
      }
      var m := rx.TryRecv();
      match m
      case None =>
        if !rx.log.senderOpen {
          Break();
        }
      case Some(Stopped) =>
      case Some(Started(_, cgroup)) =>
        if cgroup != current {
          filter := filter - {current};
          filter := filter[cgroup := TRACKED];
          if loaded != null {
            loaded.Rebind(current, cgroup);
          }
          current := cgroup;
        }
      case Some(Error) =>
        Break();
    }

    method Break()
      modifies this`looping, rx
      ensures (State(), rx.log) == StopConsumer(old(State()), old(rx.log))
    {
      looping := false;
      rx.log := rx.log.(receiverOpen := false);
    }
  }
}
