/** Every interleaving of watcher and consumer turns: what is tracked, what is enforced, and when
    the two lose the container. */
module RestartRuns {
  import opened Strings
  import opened Ir
  import opened Loader
  import opened Restart
  import opened Enforcement
  import opened Refinement
  import Hooks

  datatype World = World(w: WatcherState, ch: Log, c: ConsumerState)

  datatype Event = WatcherTurn(stop: bool, result: PollResult) | ConsumerTurn

  function Next(s: World, e: Event): (t: World)
    requires s.ch.Valid()
    ensures t.ch.Valid()
  {
    match e
    case WatcherTurn(stop, result) => var (w, ch) := Poll(s.w, s.ch, stop, result); World(w, ch, s.c)
    case ConsumerTurn => var (c, ch) := Consume(s.c, s.ch); World(s.w, ch, c)
  }

  function Run(s: World, events: seq<Event>): (t: World)
    requires s.ch.Valid()
    ensures t.ch.Valid()
  {
    if events == [] then s else Next(Run(s, events[..|events| - 1]), events[|events| - 1])
  }

  /** Both sides start on cgroup `c0`, with the policy, if any, freshly loaded for it. */
  function Initial(id: string, c0: u64, p: Option<Policy>): World {
    World(WatcherState(true, id, c0, NORMAL_INTERVAL, true), Log([], 0, true, true),
          ConsumerState(map[c0 := TRACKED], c0, p, true))
  }

  predicate FreshPolicy(p: Option<Policy>, c0: u64, m0: Maps) {
    p.Some? ==> Empty(m0) && p.value.maps == Bound(m0, c0, p.value.auditOnly, p.value.rules)
  }

  // ---- reading the log ----

  /** The cgroup of the last Started message, or `c0` without one. */
  function LastStarted(c0: u64, msgs: seq<Message>): u64 {
    if msgs == [] then c0
    else
      var m := msgs[|msgs| - 1];
      if m.Started? then m.cgroup else LastStarted(c0, msgs[..|msgs| - 1])
  }

  /** The cgroups moved through: repetitions of the current one are no move. */
  function Followed(c0: u64, msgs: seq<Message>): (ids: seq<u64>)
    ensures ids != [] && ids[|ids| - 1] == LastStarted(c0, msgs) && LastMoved(ids)
  {
    if msgs == [] then [c0]
    else
      var m, before := msgs[|msgs| - 1], Followed(c0, msgs[..|msgs| - 1]);
      if m.Started? && m.cgroup != before[|before| - 1] then before + [m.cgroup] else before
  }

  lemma {:induction false} LastStartedAppend(c0: u64, a: seq<Message>, b: seq<Message>)
    ensures LastStarted(c0, a + b) == LastStarted(LastStarted(c0, a), b)
    decreases |b|
  {
    if b == [] {
      assert a + b == a;
    } else {
      assert (a + b)[..|a + b| - 1] == a + b[..|b| - 1];
      LastStartedAppend(c0, a, b[..|b| - 1]);
    }
  }

  // ---- the invariant ----

  function Delivered(ch: Log): seq<Message>
    requires ch.Valid()
  {
    ch.sent[..ch.taken]
  }

  /** The consumer is where the delivered messages lead, and so are filter and policy. */
  predicate Tracks(c: ConsumerState, seen: seq<Message>, c0: u64, p: Option<Policy>, m0: Maps) {
    && c.current == LastStarted(c0, seen)
    && c.filter == map[c.current := 1]
    && c.policy == (if p.None? then None else
                      Some(p.value.(maps := AfterRun(m0, p.value.auditOnly, p.value.rules, Followed(c0, seen)))))
  }

  predicate ConsumerFollows(s: World, c0: u64, p: Option<Policy>, m0: Maps)
    requires s.ch.Valid()
  {
    Tracks(s.c, Delivered(s.ch), c0, p, m0)
  }

  predicate Ends(s: World)
    requires s.ch.Valid()
  {
    && s.c.looping == s.ch.receiverOpen && s.w.looping == s.ch.senderOpen
    && (s.c.looping ==> Error !in Delivered(s.ch))
    && (!s.c.looping ==> (Error in Delivered(s.ch) || (!s.ch.senderOpen && s.ch.taken == |s.ch.sent|)))
  }

  predicate WatcherLeads(s: World, c0: u64)
    requires s.ch.Valid()
  {
    s.ch.receiverOpen ==> s.w.currentCgroup == LastStarted(c0, s.ch.sent)
  }

  lemma DeliveredNext(ch: Log, rest: Log)
    requires ch.Valid() && ch.taken < |ch.sent| && rest == ch.(taken := ch.taken + 1)
    ensures Delivered(rest) == Delivered(ch) + [ch.sent[ch.taken]]
    ensures Delivered(rest)[..|Delivered(rest)| - 1] == Delivered(ch)
  {
  }

  lemma MoveTracks(c: ConsumerState, seen: seq<Message>, m: Message, c0: u64, p: Option<Policy>, m0: Maps)
    requires Tracks(c, seen, c0, p, m0)
    ensures Tracks(if m.Started? then Move(c, m.cgroup) else c, seen + [m], c0, p, m0)
  {
    hide Rebound, Bound, AfterRun;
    var more := seen + [m];
    assert more[..|more| - 1] == seen;
    var before := Followed(c0, seen);
    if m.Started? && m.cgroup != c.current && p.Some? {
      OneMoreMove(m0, p.value.auditOnly, p.value.rules, before, m.cgroup);
    }
  }

  lemma OneMoreMove(m0: Maps, auditOnly: bool, rules: seq<Rule>, ids: seq<u64>, id: u64)
    requires ids != []
    ensures AfterRun(m0, auditOnly, rules, ids + [id]) ==
            Rebound(AfterRun(m0, auditOnly, rules, ids), ids[|ids| - 1], id, auditOnly, rules)
  {
    hide Rebound, Bound;
    assert (ids + [id])[..|ids|] == ids;
  }

  lemma ConsumerKeeps(s: World, c0: u64, p: Option<Policy>, m0: Maps)
    requires s.ch.Valid() && ConsumerFollows(s, c0, p, m0) && Ends(s) && WatcherLeads(s, c0)
    ensures var t := Next(s, ConsumerTurn);
      ConsumerFollows(t, c0, p, m0) && Ends(t) && WatcherLeads(t, c0)
  {
    hide Tracks, MovePolicy, LastStarted;
    LoopingIsUntracked(s.c, Delivered(s.ch), c0, p, m0);
    if s.c.looping && s.ch.taken < |s.ch.sent| {
      var m := s.ch.sent[s.ch.taken];
      DeliveredNext(s.ch, s.ch.(taken := s.ch.taken + 1));
      MoveTracks(s.c, Delivered(s.ch), m, c0, p, m0);
      LoopingIsUntracked(s.c, Delivered(s.ch) + [m], c0, p, m0);
    }
  }

  lemma LoopingIsUntracked(c: ConsumerState, seen: seq<Message>, c0: u64, p: Option<Policy>, m0: Maps)
    ensures Tracks(c.(looping := false), seen, c0, p, m0) == Tracks(c, seen, c0, p, m0)
  {
    hide LastStarted, AfterRun, Followed;
  }

  lemma SendKeeps(s: World, t: World, m: Message, c0: u64, p: Option<Policy>, m0: Maps)
    requires s.ch.Valid() && ConsumerFollows(s, c0, p, m0) && Ends(s) && WatcherLeads(s, c0)
    requires t.c == s.c && t.ch == Send(s.ch, m) && t.w.looping == s.w.looping && s.w.looping
    requires t.w.currentCgroup == if m.Started? then m.cgroup else s.w.currentCgroup
    ensures t.ch.Valid() && ConsumerFollows(t, c0, p, m0) && Ends(t) && WatcherLeads(t, c0)
  {
    hide AfterRun, Followed;
    if s.ch.receiverOpen {
      assert t.ch.sent[..|t.ch.sent| - 1] == s.ch.sent;
    }
    assert Delivered(t.ch) == Delivered(s.ch);
  }

  lemma WatcherKeeps(s: World, stop: bool, r: PollResult, c0: u64, p: Option<Policy>, m0: Maps)
    requires s.ch.Valid() && ConsumerFollows(s, c0, p, m0) && Ends(s) && WatcherLeads(s, c0)
    ensures var t := Next(s, WatcherTurn(stop, r));
      ConsumerFollows(t, c0, p, m0) && Ends(t) && WatcherLeads(t, c0)
  {
    hide AfterRun, Followed, LastStarted;
    var t := Next(s, WatcherTurn(stop, r));
    if s.w.looping && !stop && t.ch.sent != s.ch.sent {
      var m := t.ch.sent[|t.ch.sent| - 1];
      var mid := World(t.w.(looping := true), Send(s.ch, m), s.c);
      SendKeeps(s, mid, m, c0, p, m0);
    }
  }

  /** Holds after every interleaving. */
  lemma {:induction false} RunsKeep(id: string, c0: u64, p: Option<Policy>, m0: Maps, events: seq<Event>)
    requires FreshPolicy(p, c0, m0)
    ensures var s := Run(Initial(id, c0, p), events);
      ConsumerFollows(s, c0, p, m0) && Ends(s) && WatcherLeads(s, c0)
    decreases |events|
  {
    hide Bound, Next, ConsumerFollows, Ends, WatcherLeads;
    if events == [] {
      InitialHolds(id, c0, p, m0);
    } else {
      var n := |events| - 1;
      RunsKeep(id, c0, p, m0, events[..n]);
      var s := Run(Initial(id, c0, p), events[..n]);
      match events[n]
      case WatcherTurn(stop, r) => WatcherKeeps(s, stop, r, c0, p, m0);
      case ConsumerTurn => ConsumerKeeps(s, c0, p, m0);
    }
  }

  lemma InitialHolds(id: string, c0: u64, p: Option<Policy>, m0: Maps)
    requires FreshPolicy(p, c0, m0)
    ensures var s := Initial(id, c0, p); ConsumerFollows(s, c0, p, m0) && Ends(s) && WatcherLeads(s, c0)
  {
    hide Bound;
  }

  // ---- what follows from it ----

  /** After every interleaving, stopped or not, failures included: the monitor filter names exactly
      the consumer's cgroup, and so do the enforcement allowlist and the egress filter's slot; that
      cgroup is the last one a delivered message announced. */
  lemma OneCgroupEverywhere(id: string, c0: u64, p: Option<Policy>, m0: Maps, events: seq<Event>)
    requires FreshPolicy(p, c0, m0)
    ensures var s := Run(Initial(id, c0, p), events);
      && s.c.current == LastStarted(c0, Delivered(s.ch))
      && s.c.filter == map[s.c.current := 1]
      && (s.c.policy.Some? <==> p.Some?)
      && (s.c.policy.Some? ==>
            && s.c.policy.value.maps.cgroups.Keys == {s.c.current}
            && (m0.skbCgroup.Some? ==> s.c.policy.value.maps.skbCgroup == Some(s.c.current)))
  {
    hide Run, LastStarted, AfterRun, Followed, Bound, Consistent;
    RunsKeep(id, c0, p, m0, events);
    var s := Run(Initial(id, c0, p), events);
    if p.Some? {
      RunsStayConsistent(m0, p.value.auditOnly, p.value.rules, Followed(c0, Delivered(s.ch)));
    }
  }

  /** And the hooks decide for that cgroup as if the policy had been loaded afresh for it. */
  lemma DecisionsMoveAlong(
      id: string, c0: u64, p: Option<Policy>, m0: Maps, events: seq<Event>,
      view: Hooks.PathView, req: bv8, ip: u32, port: u32)
    requires FreshPolicy(p, c0, m0) && p.Some?
    ensures var c := Run(Initial(id, c0, p), events).c;
      c.policy.Some? && c.current in c.policy.value.maps.cgroups
    ensures var c := Run(Initial(id, c0, p), events).c;
      var o, f := c.policy.value.maps, Bound(m0, c.current, p.value.auditOnly, p.value.rules);
      var config := o.cgroups[c.current];
      && o.cgroups == f.cgroups
      && Hooks.FileDecision(o, config, c.current, view, req) == Hooks.FileDecision(f, config, c.current, view, req)
      && Hooks.ExecDecision(o, config, c.current, view) == Hooks.ExecDecision(f, config, c.current, view)
      && Hooks.NetDecision(o, config, c.current, ip, port) == Hooks.NetDecision(f, config, c.current, ip, port)
  {
    hide Run, LastStarted, Followed, Bound, Consistent, Hooks.FileDecision, Hooks.ExecDecision, Hooks.NetDecision;
    RunsKeep(id, c0, p, m0, events);
    var s := Run(Initial(id, c0, p), events);
    RebindIsFreshLoad(m0, p.value.auditOnly, p.value.rules, Followed(c0, Delivered(s.ch)), view, req, ip, port);
  }

  /** While the consumer runs, the watcher's cgroup is the last one queued, or the consumer's own
      when none is. */
  lemma WatcherIsLastQueued(id: string, c0: u64, p: Option<Policy>, m0: Maps, events: seq<Event>)
    requires FreshPolicy(p, c0, m0)
    ensures var s := Run(Initial(id, c0, p), events);
      s.c.looping ==> s.w.currentCgroup == LastStarted(s.c.current, s.ch.Queue())
  {
    hide Run, LastStarted, AfterRun, Followed, Bound;
    RunsKeep(id, c0, p, m0, events);
    var s := Run(Initial(id, c0, p), events);
    assert Delivered(s.ch) + s.ch.Queue() == s.ch.sent;
    LastStartedAppend(c0, Delivered(s.ch), s.ch.Queue());
  }

  /** The messages before the first Error. */
  function BeforeError(msgs: seq<Message>): (r: seq<Message>)
    ensures r <= msgs && Error !in r && (Error !in msgs ==> r == msgs)
  {
    if msgs == [] || msgs[0] == Error then [] else [msgs[0]] + BeforeError(msgs[1..])
  }

  function Turns(n: nat): seq<Event> { seq(n, _ => ConsumerTurn) }

  lemma {:induction false} RunAppend(s: World, a: seq<Event>, b: seq<Event>)
    requires s.ch.Valid()
    ensures Run(s, a + b) == Run(Run(s, a), b)
    decreases |b|
  {
    hide Next;
    if b == [] {
      assert a + b == a;
    } else {
      assert (a + b)[..|a + b| - 1] == a + b[..|b| - 1];
      RunAppend(s, a, b[..|b| - 1]);
    }
  }

  lemma {:induction false} StoppedStays(s: World, events: seq<Event>)
    requires s.ch.Valid() && !s.c.looping
    ensures Run(s, events).c == s.c
    decreases |events|
  {
    if events != [] {
      StoppedStays(s, events[..|events| - 1]);
    }
  }

  lemma {:induction false} LastStartedCons(c0: u64, m: Message, msgs: seq<Message>)
    ensures LastStarted(c0, [m] + msgs) == LastStarted(if m.Started? then m.cgroup else c0, msgs)
  {
    LastStartedAppend(c0, [m], msgs);
    assert [m][..0] == [];
    assert LastStarted(c0, [m]) == if m.Started? then m.cgroup else c0;
  }

  lemma FirstTurn(s: World, n: nat)
    requires s.ch.Valid() && n > 0
    ensures Run(s, Turns(n)) == Run(Next(s, ConsumerTurn), Turns(n - 1))
  {
    hide Next;
    assert Turns(n) == [ConsumerTurn] + Turns(n - 1);
    RunAppend(s, [ConsumerTurn], Turns(n - 1));
    assert [ConsumerTurn][..0] == [];
    assert Run(s, []) == s;
    assert Run(s, [ConsumerTurn]) == Next(s, ConsumerTurn);
  }

  lemma TurnTakesFirst(s: World)
    requires s.ch.Valid() && s.c.looping && s.ch.Queue() != []
    ensures var t, m := Next(s, ConsumerTurn), s.ch.Queue()[0];
      && t.ch.Queue() == s.ch.Queue()[1..]
      && t.c.current == (if m.Started? then m.cgroup else s.c.current)
      && (t.c.looping <==> m != Error)
  {
    hide MovePolicy;
  }

  /** Left to itself, a running consumer works off the queue: it moves to the last cgroup announced
      before the first Error, and keeps running exactly when there is no Error. */
  lemma {:induction false} DrainReaches(s: World)
    requires s.ch.Valid() && s.c.looping
    ensures var t := Run(s, Turns(|s.ch.Queue()|));
      && t.c.current == LastStarted(s.c.current, BeforeError(s.ch.Queue()))
      && (t.c.looping <==> Error !in s.ch.Queue())
    decreases |s.ch.Queue()|
  {
    hide LastStarted, Next, Run, BeforeError, Turns;
    var q := s.ch.Queue();
    NothingStarted(s.c.current);
    BeforeErrorSteps(q);
    if q == [] {
      NoTurns(s);
    } else {
      var t := Next(s, ConsumerTurn);
      TurnTakesFirst(s);
      FirstTurn(s, |q|);
      if q[0] == Error {
        StoppedStays(t, Turns(|q| - 1));
      } else {
        DrainReaches(t);
        LastStartedCons(s.c.current, q[0], BeforeError(q[1..]));
      }
    }
  }

  lemma TurnKeepsSender(s: World)
    requires s.ch.Valid()
    ensures Next(s, ConsumerTurn).ch.senderOpen == s.ch.senderOpen
    ensures s.c.looping && s.ch.Queue() == [] ==> (Next(s, ConsumerTurn).c.looping <==> s.ch.senderOpen)
  {
    hide Move;
  }

  /** One turn after the queue is worked off, the consumer has stopped exactly when an Error was in it or the
      watcher has ended. */
  lemma {:induction false} DrainStops(s: World)
    requires s.ch.Valid() && s.c.looping
    ensures Run(s, Turns(|s.ch.Queue()| + 1)).c.looping <==> Error !in s.ch.Queue() && s.ch.senderOpen
    decreases |s.ch.Queue()|
  {
    hide Next, Run, Turns;
    var q, t := s.ch.Queue(), Next(s, ConsumerTurn);
    FirstTurn(s, |q| + 1);
    TurnKeepsSender(s);
    if q == [] {
      NoTurns(t);
    } else {
      TurnTakesFirst(s);
      BeforeErrorSteps(q);
      if q[0] == Error {
        StoppedStays(t, Turns(|q|));
      } else {
        DrainStops(t);
      }
    }
  }

  lemma NoTurns(s: World)
    requires s.ch.Valid()
    ensures Run(s, Turns(0)) == s
  {
    assert Turns(0) == [];
  }

  lemma BeforeErrorSteps(q: seq<Message>)
    ensures q == [] ==> BeforeError(q) == []
    ensures q != [] ==> BeforeError(q) == if q[0] == Error then [] else [q[0]] + BeforeError(q[1..])
    ensures q != [] ==> (Error in q <==> q[0] == Error || Error in q[1..])
  {
    if q != [] {
      assert q == [q[0]] + q[1..];
    }
  }

  lemma NothingStarted(c0: u64)
    ensures LastStarted(c0, []) == c0
  {
  }

  /** After any interleaving that leaves the consumer running, working off the queue brings it to the
      watcher's cgroup, provided no Error waits in it. */
  lemma ConsumerCatchesUp(id: string, c0: u64, p: Option<Policy>, m0: Maps, events: seq<Event>)
    requires FreshPolicy(p, c0, m0)
    ensures var s := Run(Initial(id, c0, p), events);
      s.c.looping && Error !in s.ch.Queue() ==>
        Run(s, Turns(|s.ch.Queue()|)).c.current == s.w.currentCgroup
  {
    hide Run, LastStarted;
    var s := Run(Initial(id, c0, p), events);
    WatcherIsLastQueued(id, c0, p, m0, events);
    if s.c.looping {
      DrainReaches(s);
    }
  }

  /** The consumer runs as long as it has been handed no Error, the watcher's own end aside. */
  lemma RunsUntilError(id: string, c0: u64, p: Option<Policy>, m0: Maps, events: seq<Event>)
    requires FreshPolicy(p, c0, m0)
    ensures var s := Run(Initial(id, c0, p), events);
      && (s.c.looping ==> Error !in Delivered(s.ch))
      && (!s.c.looping ==> Error in Delivered(s.ch) || (!s.w.looping && s.ch.Queue() == []))
  {
    hide Run, Tracks, WatcherLeads;
    RunsKeep(id, c0, p, m0, events);
  }

  // ---- which polls are fatal ----

  /** The watcher's own state, which nothing else influences. */
  function WatcherAfter(w: WatcherState, events: seq<Event>): WatcherState {
    if events == [] then w
    else
      var before := WatcherAfter(w, events[..|events| - 1]);
      match events[|events| - 1]
      case WatcherTurn(stop, r) => Poll(before, Log([], 0, true, true), stop, r).0
      case ConsumerTurn => before
  }

  /** The runtime fails, or no longer knows a container last seen running, or shows a restarted one whose
      cgroup cannot be resolved. */
  predicate Fatal(w: WatcherState, e: Event) {
    && e.WatcherTurn? && w.looping && !e.stop
    && match e.result
       case Failed => true
       case NotFound => w.wasRunning
       case Inspected(_, running, cgroup) => running && !w.wasRunning && cgroup.None?
  }

  predicate FatalAt(w: WatcherState, events: seq<Event>, n: nat)
    requires n < |events|
  {
    Fatal(WatcherAfter(w, events[..n]), events[n])
  }

  predicate SomeFatal(w: WatcherState, events: seq<Event>) { exists n :: 0 <= n < |events| && FatalAt(w, events, n) }

  lemma {:induction false} WatcherIsAlone(s: World, events: seq<Event>)
    requires s.ch.Valid()
    ensures Run(s, events).w == WatcherAfter(s.w, events)
    decreases |events|
  {
    if events != [] {
      WatcherIsAlone(s, events[..|events| - 1]);
    }
  }

  lemma SomeFatalExtends(w: WatcherState, events: seq<Event>)
    requires events != []
    ensures var n := |events| - 1;
      SomeFatal(w, events) <==> SomeFatal(w, events[..n]) || FatalAt(w, events, n)
  {
    hide WatcherAfter, Fatal;
    var front := events[..|events| - 1];
    assert forall n :: 0 <= n < |front| ==> front[..n] == events[..n] && front[n] == events[n];
    if SomeFatal(w, front) {
      var n :| 0 <= n < |front| && FatalAt(w, front, n);
      assert FatalAt(w, events, n);
    }
    if SomeFatal(w, events) {
      var n :| 0 <= n < |events| && FatalAt(w, events, n);
      assert n < |front| ==> FatalAt(w, front, n);
    }
  }

  lemma TurnQueuesError(s: World, e: Event)
    requires s.ch.Valid() && Ends(s)
    ensures Error in Next(s, e).ch.sent <==> Error in s.ch.sent || Fatal(s.w, e)
  {
    hide Move;
    if Error in Delivered(s.ch) {
      assert Error in s.ch.sent;
    }
  }

  /** The message that ends the consumer gets queued exactly when some poll of the sequence is fatal. */
  lemma {:induction false} ErrorQueuedExactlyWhen(id: string, c0: u64, p: Option<Policy>, m0: Maps, events: seq<Event>)
    requires FreshPolicy(p, c0, m0)
    ensures var s0 := Initial(id, c0, p);
      Error in Run(s0, events).ch.sent <==> SomeFatal(s0.w, events)
    decreases |events|
  {
    hide Bound, Next, Tracks, WatcherLeads, SomeFatal, Fatal, WatcherAfter, Ends;
    var s0 := Initial(id, c0, p);
    if events == [] {
      assert !SomeFatal(s0.w, []) by { NothingFatal(s0.w); }
    } else {
      var n := |events| - 1;
      ErrorQueuedExactlyWhen(id, c0, p, m0, events[..n]);
      RunsKeep(id, c0, p, m0, events[..n]);
      WatcherIsAlone(s0, events[..n]);
      TurnQueuesError(Run(s0, events[..n]), events[n]);
      SomeFatalExtends(s0.w, events);
    }
  }

  lemma NothingFatal(w: WatcherState)
    ensures !SomeFatal(w, [])
  {
  }

  /** As long as the watcher runs, the consumer, once it has worked off the queue, still follows the
      container exactly when no poll so far was fatal. */
  lemma FollowsExactlyWhen(id: string, c0: u64, p: Option<Policy>, m0: Maps, events: seq<Event>)
    requires FreshPolicy(p, c0, m0)
    ensures var s := Run(Initial(id, c0, p), events);
      s.w.looping ==> (Run(s, Turns(|s.ch.Queue()|)).c.looping <==> !SomeFatal(Initial(id, c0, p).w, events))
  {
    hide Run, LastStarted, SomeFatal, Tracks, WatcherLeads, Bound;
    var s := Run(Initial(id, c0, p), events);
    RunsKeep(id, c0, p, m0, events);
    ErrorQueuedExactlyWhen(id, c0, p, m0, events);
    assert Delivered(s.ch) + s.ch.Queue() == s.ch.sent;
    if s.c.looping {
      DrainReaches(s);
    } else {
      StoppedStays(s, Turns(|s.ch.Queue()|));
    }
  }

  /** One failed poll is enough to lose the container: the watcher carries on and sees it move to
      `c1`, but filter and policy stay on `c0` whatever happens next. */
  lemma FailedPollLosesTheContainer(id: string, c0: u64, c1: u64, p: Option<Policy>, later: seq<Event>)
    requires c1 != c0
    ensures var failed := [WatcherTurn(false, Failed), ConsumerTurn];
      var moved := [WatcherTurn(false, Inspected(id, true, Some(c1)))];
      && Run(Initial(id, c0, p), failed + moved).w.currentCgroup == c1
      && Run(Initial(id, c0, p), failed + moved + later).c == Initial(id, c0, p).c.(looping := false)
  {
    var s0 := Initial(id, c0, p);
    var failed := [WatcherTurn(false, Failed), ConsumerTurn];
    var moved := [WatcherTurn(false, Inspected(id, true, Some(c1)))];
    var s1 := Next(s0, failed[0]);
    var s2 := Next(s1, failed[1]);
    assert failed[..1] == [failed[0]] && [failed[0]][..0] == [];
    assert Run(s0, []) == s0 && Run(s0, [failed[0]]) == s1 && Run(s0, failed) == s2;
    assert !s2.c.looping && s2.w == s0.w;
    RunAppend(s0, failed, moved);
    assert moved[..0] == [] && Run(s2, []) == s2 && Run(s2, moved) == Next(s2, moved[0]);
    RunAppend(s0, failed, moved + later);
    assert failed + (moved + later) == failed + moved + later;
    StoppedStays(s2, moved + later);
  }

  // ---- the pace of the polls ----

  predicate SawRunning(e: Event) { e.WatcherTurn? && e.result.Inspected? && e.result.running }

  predicate SawStopped(e: Event) { e.WatcherTurn? && e.result.Inspected? && !e.result.running }

  predicate SawNone(e: Event) { e.WatcherTurn? && e.result.NotFound? }

  /** Some event from `from` on is one the watcher saw this in. */
  predicate StoppedSince(events: seq<Event>, from: int) { exists i :: 0 <= i < |events| && from <= i && SawStopped(events[i]) }

  predicate NoneSince(events: seq<Event>, from: int) { exists i :: 0 <= i < |events| && from <= i && SawNone(events[i]) }

  /** The polls after `from` never showed the container running. */
  predicate NotRunningSince(events: seq<Event>, from: int) {
    forall i :: 0 <= i < |events| && from <= i ==> !SawRunning(events[i])
  }

  /** Two seconds while running; once seen stopped a tenth of a second, until the runtime does not know the
      container: from then on five seconds, until it is seen running again. */
  predicate Paced(w: WatcherState, events: seq<Event>, from: int) {
    && (w.wasRunning <==> !StoppedSince(events, from)) && (w.wasRunning ==> !NoneSince(events, from))
    && w.pollInterval == if !StoppedSince(events, from) then 2000 else if NoneSince(events, from) then 5000 else 100
  }

  lemma SinceGrows(events: seq<Event>, from: int)
    requires events != [] && from < |events|
    ensures var n := |events| - 1; var e := events[n];
      && (StoppedSince(events, from) <==> StoppedSince(events[..n], from) || SawStopped(e))
      && (NoneSince(events, from) <==> NoneSince(events[..n], from) || SawNone(e))
      && (NotRunningSince(events, from) <==> NotRunningSince(events[..n], from) && !SawRunning(e))
  {
    hide SawStopped, SawNone, SawRunning;
    var n := |events| - 1;
    assert forall i :: 0 <= i < n ==> events[..n][i] == events[i];
    if StoppedSince(events[..n], from) {
      var i :| 0 <= i < n && from <= i && SawStopped(events[..n][i]);
      assert SawStopped(events[i]);
    }
    if NoneSince(events[..n], from) {
      var i :| 0 <= i < n && from <= i && SawNone(events[..n][i]);
      assert SawNone(events[i]);
    }
    if NotRunningSince(events, from) {
      forall i | 0 <= i < n && from <= i ensures !SawRunning(events[..n][i]) { assert !SawRunning(events[i]); }
    }
  }

  lemma NothingSince(events: seq<Event>)
    ensures !StoppedSince(events, |events|) && !NoneSince(events, |events|) && NotRunningSince(events, |events|)
  {
  }

  /** One poll keeps the pace, unless it shows the container running again. */
  lemma PollKeepsPace(w: WatcherState, ch: Log, stop: bool, r: PollResult, events: seq<Event>, from: int)
    requires Paced(w, events, from) && w.looping && from <= |events|
    ensures var e, t := WatcherTurn(stop, r), Poll(w, ch, stop, r).0;
      t.looping ==> if SawRunning(e) && StoppedSince(events, from) then t.wasRunning && t.pollInterval == 2000
                    else Paced(t, events + [e], from)
  {
    hide StoppedSince, NoneSince, NotRunningSince;
    var e := WatcherTurn(stop, r);
    SinceGrows(events + [e], from);
    assert (events + [e])[..|events|] == events;
  }

  lemma StaysStopped(s: World, e: Event)
    requires s.ch.Valid()
    ensures Next(s, e).w.looping ==> s.w.looping
    ensures e.ConsumerTurn? ==> Next(s, e).w == s.w
    ensures e.WatcherTurn? ==> Next(s, e).w == Poll(s.w, s.ch, e.stop, e.result).0
  {
    hide Consume;
  }

  /** Where the polls that last showed the container running end. */
  function LastRunningEnd(events: seq<Event>): (n: nat)
    ensures n <= |events|
  {
    if events == [] then 0
    else if SawRunning(events[|events| - 1]) then |events|
    else LastRunningEnd(events[..|events| - 1])
  }

  lemma {:induction false} LastRunningEndIs(events: seq<Event>, from: nat)
    requires from <= |events| && (from == 0 || SawRunning(events[from - 1])) && NotRunningSince(events, from)
    ensures LastRunningEnd(events) == from
  {
    hide SawRunning;
    if from < |events| {
      SinceGrows(events, from);
      LastRunningEndIs(events[..|events| - 1], from);
    }
  }

  lemma RunningPace(w: WatcherState, events: seq<Event>)
    requires w.wasRunning && w.pollInterval == 2000
    ensures Paced(w, events, |events|)
  {
    hide StoppedSince, NoneSince, NotRunningSince;
    NothingSince(events);
  }

  lemma RunningStays(w: WatcherState, ch: Log, stop: bool, r: PollResult, events: seq<Event>, from: int)
    requires Paced(w, events, from) && w.looping && SawRunning(WatcherTurn(stop, r))
    ensures var t := Poll(w, ch, stop, r).0; t.looping ==> t.wasRunning && t.pollInterval == 2000
  {
    hide StoppedSince, NoneSince;
  }

  lemma {:induction false} PaceAfter(id: string, c0: u64, p: Option<Policy>, events: seq<Event>)
    requires Run(Initial(id, c0, p), events).w.looping
    ensures Paced(Run(Initial(id, c0, p), events).w, events, LastRunningEnd(events))
  {
    hide Poll, Consume, Paced, SawRunning, SawStopped, SawNone, Next;
    if events == [] {
      RunningPace(Initial(id, c0, p).w, events);
      assert Run(Initial(id, c0, p), events) == Initial(id, c0, p);
    } else {
      var front, e := events[..|events| - 1], events[|events| - 1];
      var s := Run(Initial(id, c0, p), front);
      assert Run(Initial(id, c0, p), events) == Next(s, e);
      StaysStopped(s, e);
      PaceAfter(id, c0, p, front);
      if e.WatcherTurn? {
        PollKeepsPace(s.w, s.ch, e.stop, e.result, front, LastRunningEnd(front));
        assert front + [e] == events;
        if SawRunning(e) {
          RunningStays(s.w, s.ch, e.stop, e.result, front, LastRunningEnd(front));
          RunningPace(Next(s, e).w, events);
        }
      } else {
        ConsumerIsNoPoll(s.w, front, e, LastRunningEnd(front));
        assert front + [e] == events;
      }
    }
  }

  lemma ConsumerIsNoPoll(w: WatcherState, events: seq<Event>, e: Event, from: nat)
    requires e.ConsumerTurn? && Paced(w, events, from) && from <= |events|
    ensures !SawRunning(e) && Paced(w, events + [e], from)
  {
    hide StoppedSince, NoneSince, NotRunningSince;
    SinceGrows(events + [e], from);
    assert (events + [e])[..|events|] == events;
  }

  /** In every interleaving, a watcher still looping polls every two seconds from the last poll that showed
      the container running, every tenth of a second once it is seen stopped, and every five seconds once the
      runtime does not know it: then not faster again before it runs again, even if it is seen stopped. */
  lemma PaceFollows(id: string, c0: u64, p: Option<Policy>, events: seq<Event>, from: nat)
    requires from <= |events| && (from == 0 || SawRunning(events[from - 1])) && NotRunningSince(events, from)
    requires Run(Initial(id, c0, p), events).w.looping
    ensures var w := Run(Initial(id, c0, p), events).w;
      && (w.wasRunning <==> !StoppedSince(events, from))
      && w.pollInterval == if !StoppedSince(events, from) then 2000 else if NoneSince(events, from) then 5000 else 100
  {
    hide Run, StoppedSince, NoneSince, NotRunningSince, SawRunning;
    LastRunningEndIs(events, from);
    PaceAfter(id, c0, p, events);
  }

  // ---- what is queued ----

  /** What a poll queues, told from the polls before: `stopped` if they last saw the container stopped,
      `known` the cgroup last announced. */
  function Queued(r: PollResult, stopped: bool, known: u64): seq<Message> {
    match r
    case Failed => [Error]
    case NotFound => if stopped then [] else [Error]
    case Inspected(id, running, cgroup) =>
      if !running then (if stopped then [] else [Stopped])
      else if cgroup == None then (if stopped then [Error] else [])
      else if stopped || cgroup.value != known then [Started(id, cgroup.value)]
      else []
  }

  lemma PollQueues(w: WatcherState, ch: Log, r: PollResult)
    requires w.looping && ch.receiverOpen
    ensures Poll(w, ch, false, r).1.sent == ch.sent + Queued(r, !w.wasRunning, w.currentCgroup)
  {
  }

  /** After every interleaving, while both sides run, the next poll queues exactly this: a stop once when the
      container is first seen stopped; its cgroup when it runs again, or runs in another one than last
      announced; an error when the poll fails, when a running container is gone, or when the cgroup of a
      restarted one cannot be told; and nothing else. A poll told to stop queues nothing. */
  lemma NextPollQueues(id: string, c0: u64, p: Option<Policy>, m0: Maps, events: seq<Event>, from: nat, stop: bool, r: PollResult)
    requires FreshPolicy(p, c0, m0)
    requires from <= |events| && (from == 0 || SawRunning(events[from - 1])) && NotRunningSince(events, from)
    requires Run(Initial(id, c0, p), events).w.looping && Run(Initial(id, c0, p), events).ch.receiverOpen
    ensures var s := Run(Initial(id, c0, p), events);
      Next(s, WatcherTurn(stop, r)).ch.sent ==
      s.ch.sent + if stop then [] else Queued(r, StoppedSince(events, from), LastStarted(c0, s.ch.sent))
  {
    hide Run, StoppedSince, NoneSince, NotRunningSince, SawRunning, FreshPolicy, LastStarted, Consume, Queued;
    var s := Run(Initial(id, c0, p), events);
    PaceFollows(id, c0, p, events, from);
    RunsKeep(id, c0, p, m0, events);
    if stop {
      assert s.ch.sent + [] == s.ch.sent;
    } else {
      hide Poll;
      PollQueues(s.w, s.ch, r);
    }
  }

  /** The container id of the last Started message, or `id` without one. */
  function LastNamed(id: string, msgs: seq<Message>): string {
    if msgs == [] then id
    else
      var m := msgs[|msgs| - 1];
      if m.Started? then m.containerId else LastNamed(id, msgs[..|msgs| - 1])
  }

  lemma NamedNext(id: string, msgs: seq<Message>, m: Message)
    ensures LastNamed(id, msgs + [m]) == if m.Started? then m.containerId else LastNamed(id, msgs)
  {
    assert (msgs + [m])[..|msgs|] == msgs;
  }

  lemma PollNames(w: WatcherState, ch: Log, stop: bool, r: PollResult, id: string)
    requires w.currentId == LastNamed(id, ch.sent) && ch.receiverOpen
    ensures var (t, o) := Poll(w, ch, stop, r);
      o.receiverOpen && (Error !in o.sent ==> t.currentId == LastNamed(id, o.sent) && Error !in ch.sent)
  {
    hide LastNamed;
    forall m: Message ensures LastNamed(id, ch.sent + [m]) == if m.Started? then m.containerId else LastNamed(id, ch.sent) {
      NamedNext(id, ch.sent, m);
    }
    assert Error in ch.sent ==> forall m: Message :: Error in ch.sent + [m];
  }

  lemma ClosedStays(s: World, e: Event)
    requires s.ch.Valid()
    ensures Next(s, e).ch.receiverOpen ==> s.ch.receiverOpen
    ensures e.ConsumerTurn? ==> Next(s, e).ch.sent == s.ch.sent
    ensures forall m :: m in s.ch.sent ==> m in Next(s, e).ch.sent
  {
    hide Move;
  }

  /** Until an error is queued, the watcher's container id is the one it last announced. */
  lemma {:induction false} NameIsLastQueued(id: string, c0: u64, p: Option<Policy>, events: seq<Event>)
    requires Run(Initial(id, c0, p), events).ch.receiverOpen && Error !in Run(Initial(id, c0, p), events).ch.sent
    ensures Run(Initial(id, c0, p), events).w.currentId == LastNamed(id, Run(Initial(id, c0, p), events).ch.sent)
  {
    hide Poll, Consume, LastNamed, Next;
    if events == [] {
      assert Run(Initial(id, c0, p), events) == Initial(id, c0, p);
      assert LastNamed(id, []) == id by { NothingNamed(id); }
    } else {
      var front, e := events[..|events| - 1], events[|events| - 1];
      var s := Run(Initial(id, c0, p), front);
      assert Run(Initial(id, c0, p), events) == Next(s, e);
      ClosedStays(s, e);
      StaysStopped(s, e);
      NameIsLastQueued(id, c0, p, front);
      if e.WatcherTurn? {
        PollNames(s.w, s.ch, e.stop, e.result, id);
        WatcherTurnIs(s, e);
      }
    }
  }

  lemma NothingNamed(id: string)
    ensures LastNamed(id, []) == id
  {
  }

  lemma WatcherTurnIs(s: World, e: Event)
    requires s.ch.Valid() && e.WatcherTurn?
    ensures (Next(s, e).w, Next(s, e).ch) == Poll(s.w, s.ch, e.stop, e.result)
  {
    hide Poll;
  }
}
