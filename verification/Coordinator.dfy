/** The phone's reconnect coordinator (apps/mobile/src/application/connectionCoordinator.ts).

    Each call of `synchronize` is a run with its own version; it is suspended at every `await`, and its continuation
    may be resumed after any number of other events. `runs` holds the suspended runs. The socket and its requests
    (apps/mobile/src/protocol/mobileClient.ts) are the environment: an awaited operation may settle at any time with
    any outcome. `armed` holds the timers of the environment, `timer` the handle the coordinator keeps. `log` records
    what the coordinator does, with the run that does it. */
module Coordinator {
  import opened Options

  datatype Status = Idle | Connecting | Online | Reconnecting | Resyncing | Recovery | PairingRequired

  /** What a suspended run is waiting for; `Invalidation` is the callback that follows a pairing error. */
  datatype Stage = Connect | Resume | List | Subscribe | Invalidation

  /** The outcome of an awaited operation: a pairing error, an error of an absent desktop, or any other. */
  datatype Outcome = Ok | PairingError | DesktopAbsent | OtherError

  datatype Act =
    | Began(run: nat)
    | BeganResync(run: nat)
    | Resumed(run: nat)
    | DispatchedList(run: nat, open: bool)   // with or without a session open on the phone
    | AskedSubscribe(run: nat)
    | DispatchedSubscribe(run: nat)
    | WentOnline(run: nat)
    | Entered(status: Status)   // any other status
    | DispatchedEvent
    | ClosedTransport           // the client's socket, for a new one or for good
    | LostTransport             // the client reports that its socket is gone

  datatype State = State(
    status: Status,
    profile: Option<string>,
    timer: Option<nat>,
    armed: set<nat>,
    disposed: bool,
    version: nat,
    transport: bool,            // `hasActiveTransport`
    runs: map<nat, Stage>,
    log: seq<Act>)

  const INIT := State(Idle, None, None, {}, false, 0, false, map[], [])

  // ---- The functions ----------------------------------------------------------------------

  function Enter(c: State, status: Status): State {
    if c.disposed || c.status == status then c else c.(status := status, log := c.log + [Entered(status)])
  }

  function CancelReconnect(c: State): State {
    if c.timer.None? then c else c.(timer := None, armed := c.armed - {c.timer.value})
  }

  /** `handle` is what the environment's `setTimeout` returns. */
  function ScheduleReconnect(c: State, handle: nat): State {
    if c.disposed || c.profile.None? || c.timer.Some? then c
    else Enter(c, Reconnecting).(timer := Some(handle), armed := c.armed + {handle})
  }

  function CloseTransport(c: State): State {
    if c.transport then c.(transport := false, log := c.log + [ClosedTransport]) else c
  }

  function Synchronize(c: State, entry: Status): State {
    if c.disposed || c.profile.None? then c
    else
      var v := c.version + 1;
      CloseTransport(Enter(c.(version := v, log := c.log + [Began(v)]), entry)).(runs := c.runs[v := Connect])
  }

  /** The failure of run `v`, which is current. */
  function HandleFailure(c: State, v: nat, outcome: Outcome, handle: nat): State {
    var ended := c.(runs := c.runs - {v});
    if c.disposed then ended
    else if outcome.PairingError? then CancelReconnect(c).(profile := None, runs := c.runs[v := Invalidation])
    else if outcome.DesktopAbsent? then Enter(CancelReconnect(ended), Recovery)
    else ScheduleReconnect(ended, handle)
  }

  function GoOnline(c: State, v: nat): State {
    c.(status := Online, log := c.log + [WentOnline(v)], runs := c.runs - {v})
  }

  /** What run `v` awaits has settled; `open` says whether a session is open on the phone. */
  function Continue(c: State, v: nat, outcome: Outcome, open: bool, handle: nat): State
    requires v in c.runs
  {
    var stage := c.runs[v];
    var ended := c.(runs := c.runs - {v});
    if stage == Invalidation then
      if outcome.Ok? then Enter(ended, PairingRequired) else ended
    else if !outcome.Ok? then
      if v == c.version then HandleFailure(c, v, outcome, handle) else ended
    else if c.disposed || v != c.version then ended
    else Advance(c, v, stage, open)
  }

  /** The current run goes on from `stage`. */
  function Advance(c: State, v: nat, stage: Stage, open: bool): State
    requires stage != Invalidation
  {
    match stage
    case Connect =>
      c.(transport := true, status := Resyncing, log := c.log + [BeganResync(v)], runs := c.runs[v := Resume])
    case Resume => c.(log := c.log + [Resumed(v)], runs := c.runs[v := List])
    case List =>
      var listed := c.(log := c.log + [DispatchedList(v, open)]);
      if open then listed.(log := listed.log + [AskedSubscribe(v)], runs := c.runs[v := Subscribe])
      else GoOnline(listed, v)
    case Subscribe => GoOnline(c.(log := c.log + [DispatchedSubscribe(v)]), v)
  }

  function Start(c: State, profile: Option<string>): State {
    var c1 := CancelReconnect(c).(profile := profile);
    if profile.None? then Enter(c1, PairingRequired) else Synchronize(c1, Connecting)
  }

  function Retry(c: State): State {
    if c.disposed || c.profile.None? then c else Synchronize(CancelReconnect(c), Reconnecting)
  }

  /** The environment fires the timer `handle`. */
  function FireTimer(c: State, handle: nat): State {
    Synchronize(c.(timer := None, armed := c.armed - {handle}), Reconnecting)
  }

  /** The client reports that its socket is gone; disposal has unsubscribed from that. */
  function Disconnect(c: State, handle: nat): State {
    if c.disposed then c else
    var c1 := c.(transport := false, log := c.log + [LostTransport]);
    if c.status in {Idle, Recovery, PairingRequired} then c1 else ScheduleReconnect(c1, handle)
  }

  function ReceiveEvent(c: State): State {
    if !c.disposed && c.status == Online then c.(log := c.log + [DispatchedEvent]) else c
  }

  function Dispose(c: State): State {
    if c.disposed then c else CloseTransport(CancelReconnect(c.(disposed := true, version := c.version + 1)))
  }

  datatype Event =
    | Starts(profile: Option<string>)
    | Retries
    | TimerFires(timer: nat)
    | Disconnects(handle: nat)
    | EventArrives
    | Disposes
    | Settles(run: nat, outcome: Outcome, open: bool, handle: nat)

  /** Only a suspended run settles, only an armed timer fires, and `setTimeout` returns a handle that is not armed. */
  predicate Enabled(c: State, e: Event) {
    match e
    case Settles(run, _, _, handle) => run in c.runs && handle !in c.armed
    case TimerFires(timer) => timer in c.armed
    case Disconnects(handle) => handle !in c.armed
    case _ => true
  }

  function Step(c: State, e: Event): State
    requires Enabled(c, e)
  {
    match e
    case Starts(profile) => Start(c, profile)
    case Retries => Retry(c)
    case TimerFires(timer) => FireTimer(c, timer)
    case Disconnects(handle) => Disconnect(c, handle)
    case EventArrives => ReceiveEvent(c)
    case Disposes => Dispose(c)
    case Settles(v, outcome, open, handle) => Continue(c, v, outcome, open, handle)
  }

  /** An event that cannot happen is skipped. */
  function Next(c: State, e: Event): State {
    if Enabled(c, e) then Step(c, e) else c
  }

  function After(c: State, es: seq<Event>): State
    decreases |es|
  {
    if es == [] then c else After(Next(c, es[0]), es[1..])
  }

  // ---- What a log means -------------------------------------------------------------------

  predicate ByRun(act: Act) {
    !act.Entered? && !act.DispatchedEvent? && !act.ClosedTransport? && !act.LostTransport?
  }

  /** What run `v` has done, in order. */
  function Doings(log: seq<Act>, v: nat): seq<Act> {
    if log == [] then []
    else
      var last := log[|log| - 1];
      Doings(log[..|log| - 1], v) + (if ByRun(last) && last.run == v then [last] else [])
  }

  /** The status the log ends in. */
  function StatusOf(log: seq<Act>): Status {
    if log == [] then Idle
    else
      var last := log[|log| - 1];
      match last
      case BeganResync(_) => Resyncing
      case WentOnline(_) => Online
      case Entered(s) => s
      case _ => StatusOf(log[..|log| - 1])
  }

  /** The run that acted last. */
  function Actor(log: seq<Act>): nat {
    if log == [] then 0
    else if ByRun(log[|log| - 1]) then log[|log| - 1].run
    else Actor(log[..|log| - 1])
  }

  /** Whether the log leaves a socket up. */
  predicate Up(log: seq<Act>) {
    log != [] &&
    var last := log[|log| - 1];
    last.BeganResync? || (!last.ClosedTransport? && !last.LostTransport? && Up(log[..|log| - 1]))
  }

  /** The whole course of a run without and with an open session. */
  function Course(v: nat, open: bool): seq<Act> {
    [Began(v), BeganResync(v), Resumed(v), DispatchedList(v, open)] +
    (if open then [AskedSubscribe(v), DispatchedSubscribe(v)] else []) + [WentOnline(v)]
  }

  /** How many steps of its course a suspended run has taken. */
  function Progress(stage: Stage): nat {
    match stage
    case Connect => 1
    case Resume => 2
    case List => 3
    case Subscribe => 5
    case Invalidation => 0
  }

  predicate OnCourse(done: seq<Act>, v: nat) {
    done <= Course(v, false) || done <= Course(v, true)
  }

  /** Runs act in the order of their versions, each along its course, events pass only online, no status is entered
      twice, and a socket is closed only when one is up, and always before a new one is. */
  predicate Lawful(log: seq<Act>) {
    log == [] ||
    var front, last := log[..|log| - 1], log[|log| - 1];
    && Lawful(front)
    && (ByRun(last) ==> Actor(front) <= last.run && OnCourse(Doings(log, last.run), last.run))
    && (last.DispatchedEvent? ==> StatusOf(front) == Online)
    && (last.Entered? ==> last.status != Online && last.status != StatusOf(front))
    && (last.BeganResync? ==> !Up(front))
    && (last.ClosedTransport? ==> Up(front))
  }

  // ---- The invariant ----------------------------------------------------------------------

  ghost predicate Tracked(log: seq<Act>, runs: map<nat, Stage>) {
    forall v :: v in runs && runs[v] != Invalidation ==> Doings(log, v) == Course(v, true)[..Progress(runs[v])]
  }

  /** The one armed timer is the one the coordinator knows, and it has a profile to reconnect with. */
  predicate TimerInv(c: State) {
    && c.armed == (if c.timer.Some? then {c.timer.value} else {})
    && (c.timer.Some? ==> c.profile.Some? && !c.disposed)
  }

  ghost predicate Inv(c: State) {
    && TimerInv(c)
    && Lawful(c.log) && Actor(c.log) <= c.version
    && c.status == StatusOf(c.log)
    && (forall v :: v in c.runs ==> v <= c.version)
    && Tracked(c.log, c.runs)
    && (c.transport <==> Up(c.log)) && (c.disposed ==> !c.transport)
    && (c.version in c.runs && c.runs[c.version] == Connect ==> !c.transport)
  }

  lemma Appended(log: seq<Act>, act: Act, v: nat)
    ensures Doings(log + [act], v) == Doings(log, v) + (if ByRun(act) && act.run == v then [act] else [])
    ensures Actor(log + [act]) == if ByRun(act) then act.run else Actor(log)
    ensures act.Entered? ==> StatusOf(log + [act]) == act.status
    ensures act.BeganResync? ==> StatusOf(log + [act]) == Resyncing
    ensures act.WentOnline? ==> StatusOf(log + [act]) == Online
    ensures !act.Entered? && !act.BeganResync? && !act.WentOnline? ==> StatusOf(log + [act]) == StatusOf(log)
    ensures Lawful(log + [act]) <==>
      && Lawful(log)
      && (ByRun(act) ==> Actor(log) <= act.run && OnCourse(Doings(log + [act], act.run), act.run))
      && (act.DispatchedEvent? ==> StatusOf(log) == Online)
      && (act.Entered? ==> act.status != Online && act.status != StatusOf(log))
      && (act.BeganResync? ==> !Up(log))
      && (act.ClosedTransport? ==> Up(log))
    ensures Up(log + [act]) <==> act.BeganResync? || (!act.ClosedTransport? && !act.LostTransport? && Up(log))
  {
    assert (log + [act])[..|log|] == log;
  }

  lemma {:induction false} LaterRunsHaveDoneNothing(log: seq<Act>, v: nat)
    requires Lawful(log) && Actor(log) < v
    ensures Doings(log, v) == []
  {
    if log != [] {
      LaterRunsHaveDoneNothing(log[..|log| - 1], v);
    }
  }

  lemma OthersStayTracked(log: seq<Act>, act: Act, runs: map<nat, Stage>)
    requires Tracked(log, runs)
    ensures Tracked(log + [act], if ByRun(act) then runs - {act.run} else runs)
  {
    var left := if ByRun(act) then runs - {act.run} else runs;
    forall v | v in left && left[v] != Invalidation
      ensures Doings(log + [act], v) == Course(v, true)[..Progress(left[v])]
    {
      Appended(log, act, v);
    }
  }

  /** Run `v` takes one step of its course and waits again. */
  lemma RunStep(log: seq<Act>, act: Act, runs: map<nat, Stage>, stage: Stage)
    requires Lawful(log) && Tracked(log, runs) && ByRun(act) && Actor(log) <= act.run
    requires Doings(log, act.run) + [act] == Course(act.run, true)[..Progress(stage)]
    requires act.BeganResync? ==> !Up(log)
    ensures Lawful(log + [act]) && Actor(log + [act]) == act.run
    ensures Tracked(log + [act], runs[act.run := stage])
  {
    Appended(log, act, act.run);
    OthersStayTracked(log, act, runs);
    var next := runs[act.run := stage];
    assert (runs - {act.run})[act.run := stage] == next;
  }

  /** Run `v` takes a step of its course, and others stay as they are. */
  lemma LastSteps(log: seq<Act>, act: Act, runs: map<nat, Stage>)
    requires Lawful(log) && Tracked(log, runs) && ByRun(act) && Actor(log) <= act.run
    requires OnCourse(Doings(log, act.run) + [act], act.run) && !act.BeganResync?
    ensures Lawful(log + [act]) && Actor(log + [act]) == act.run
    ensures Tracked(log + [act], runs - {act.run})
  {
    Appended(log, act, act.run);
    OthersStayTracked(log, act, runs);
  }

  lemma EnterKeepsInv(c: State, status: Status)
    requires Inv(c) && status != Online
    ensures Inv(Enter(c, status))
  {
    hide Lawful, Up, Doings, Actor, StatusOf, Course;
    Appended(c.log, Entered(status), 0);
    OthersStayTracked(c.log, Entered(status), c.runs);
  }

  lemma SynchronizeKeepsInv(c: State, entry: Status)
    requires Inv(c) && entry != Online
    ensures Inv(Synchronize(c, entry))
  {
    hide Lawful, Up, Doings, Actor, StatusOf, Course, Tracked;
    if !c.disposed && c.profile.Some? {
      var v := c.version + 1;
      var c1 := c.(version := v, log := c.log + [Began(v)]);
      BeginningKeepsInv(c);
      EnterKeepsInv(c1, entry);
      EnterDoesNothing(c1, entry, v);
      CloseKeepsInv(Enter(c1, entry), v);
      WaitsForSocket(CloseTransport(Enter(c1, entry)), v);
    }
  }

  lemma BeginningKeepsInv(c: State)
    requires Inv(c)
    ensures
      var v := c.version + 1;
      Inv(c.(version := v, log := c.log + [Began(v)])) && Doings(c.log + [Began(v)], v) == [Began(v)]
  {
    hide Lawful, Up, Doings, Actor, StatusOf;
    var v := c.version + 1;
    LaterRunsHaveDoneNothing(c.log, v);
    Appended(c.log, Began(v), v);
    LastSteps(c.log, Began(v), c.runs);
    assert c.runs - {v} == c.runs;
  }

  lemma WaitsForSocket(c: State, v: nat)
    requires Inv(c) && v == c.version && !c.transport && Doings(c.log, v) == [Began(v)]
    ensures Inv(c.(runs := c.runs[v := Connect]))
  {
    hide Lawful, Up, Doings, Actor, StatusOf;
  }

  lemma CloseKeepsInv(c: State, v: nat)
    requires Inv(c)
    ensures Inv(CloseTransport(c)) && !CloseTransport(c).transport
    ensures Doings(CloseTransport(c).log, v) == Doings(c.log, v)
  {
    hide Lawful, Up, Doings, Actor, StatusOf, Course;
    Appended(c.log, ClosedTransport, v);
    OthersStayTracked(c.log, ClosedTransport, c.runs);
  }

  lemma LossKeepsInv(c: State)
    requires Inv(c)
    ensures Inv(c.(transport := false, log := c.log + [LostTransport]))
  {
    hide Lawful, Up, Doings, Actor, StatusOf, Course;
    Appended(c.log, LostTransport, 0);
    OthersStayTracked(c.log, LostTransport, c.runs);
  }

  lemma HandleFailureKeepsInv(c: State, v: nat, outcome: Outcome, handle: nat)
    requires Inv(c) && v in c.runs && handle !in c.armed
    ensures Inv(HandleFailure(c, v, outcome, handle))
  {
    hide Lawful, Up, Doings, Actor, StatusOf, Course;
    var ended := c.(runs := c.runs - {v});
    assert Inv(ended);
    EnterKeepsInv(CancelReconnect(ended), Recovery);
    EnterKeepsInv(ended, Reconnecting);
  }

  lemma DoneSoFar(c: State, v: nat)
    requires Inv(c) && v in c.runs && c.runs[v] != Invalidation
    ensures Doings(c.log, v) == Course(v, true)[..Progress(c.runs[v])]
  {
  }

  lemma AdvanceKeepsInv(c: State, v: nat, open: bool)
    requires Inv(c) && !c.disposed && v == c.version && v in c.runs && c.runs[v] != Invalidation
    ensures Inv(Advance(c, v, c.runs[v], open))
  {
    hide Lawful, Up, Doings, Actor, StatusOf, Tracked;
    DoneSoFar(c, v);
    match c.runs[v]
    case Connect =>
      RunStep(c.log, BeganResync(v), c.runs, Resume);
      Appended(c.log, BeganResync(v), v);
    case Resume =>
      RunStep(c.log, Resumed(v), c.runs, List);
      Appended(c.log, Resumed(v), v);
    case List =>
      ListKeepsInv(c, v, open);
    case Subscribe =>
      assert Doings(c.log, v) + [DispatchedSubscribe(v), WentOnline(v)] == Course(v, true);
      FinishKeepsInv(c, v, DispatchedSubscribe(v));
  }

  lemma ListKeepsInv(c: State, v: nat, open: bool)
    requires Inv(c) && v == c.version && v in c.runs && c.runs[v] == List
    ensures Inv(Advance(c, v, List, open))
  {
    hide Lawful, Up, Doings, Actor, StatusOf, Tracked;
    DoneSoFar(c, v);
    if open {
      var listed := c.log + [DispatchedList(v, true)];
      LastSteps(c.log, DispatchedList(v, true), c.runs);
      Appended(c.log, DispatchedList(v, true), v);
      RunStep(listed, AskedSubscribe(v), c.runs - {v}, Subscribe);
      Appended(listed, AskedSubscribe(v), v);
      assert (c.runs - {v})[v := Subscribe] == c.runs[v := Subscribe];
    } else {
      assert Doings(c.log, v) + [DispatchedList(v, false), WentOnline(v)] == Course(v, false);
      FinishKeepsInv(c, v, DispatchedList(v, false));
    }
  }

  /** The last two steps of a run, taken at once. */
  lemma FinishKeepsInv(c: State, v: nat, act: Act)
    requires Inv(c) && v == c.version && v in c.runs && ByRun(act) && act.run == v
    requires act.DispatchedList? || act.DispatchedSubscribe?
    requires Doings(c.log, v) + [act, WentOnline(v)] in {Course(v, false), Course(v, true)}
    ensures Inv(GoOnline(c.(log := c.log + [act]), v))
  {
    hide Lawful, Up, Doings, Actor, StatusOf, Tracked;
    assert Doings(c.log, v) + [act, WentOnline(v)] == (Doings(c.log, v) + [act]) + [WentOnline(v)];
    LastSteps(c.log, act, c.runs);
    Appended(c.log, act, v);
    LastSteps(c.log + [act], WentOnline(v), c.runs - {v});
    Appended(c.log + [act], WentOnline(v), v);
    assert c.runs - {v} - {v} == c.runs - {v};
  }

  lemma ReceiveEventKeepsInv(c: State)
    requires Inv(c)
    ensures Inv(ReceiveEvent(c))
  {
    hide Lawful, Up, Doings, Actor, StatusOf, Course;
    Appended(c.log, DispatchedEvent, 0);
    OthersStayTracked(c.log, DispatchedEvent, c.runs);
  }

  lemma SettlingKeepsInv(c: State, v: nat, outcome: Outcome, open: bool, handle: nat)
    requires Inv(c) && v in c.runs && handle !in c.armed
    ensures Inv(Continue(c, v, outcome, open, handle))
  {
    hide Lawful, Up, Doings, Actor, StatusOf, Course, HandleFailure, Advance, Enter;
    var ended := c.(runs := c.runs - {v});
    assert Inv(ended);
    EnterKeepsInv(ended, PairingRequired);
    HandleFailureKeepsInv(c, v, outcome, handle);
    if c.runs[v] != Invalidation && v == c.version && !c.disposed {
      AdvanceKeepsInv(c, v, open);
    }
  }

  lemma StepKeepsInv(c: State, e: Event)
    requires Inv(c) && Enabled(c, e)
    ensures Inv(Step(c, e))
  {
    hide Lawful, Up, Doings, Actor, StatusOf, Tracked, Continue, Synchronize, ReceiveEvent, Enter;
    match e
    case Starts(profile) =>
      EnterKeepsInv(CancelReconnect(c).(profile := profile), PairingRequired);
      SynchronizeKeepsInv(CancelReconnect(c).(profile := profile), Connecting);
    case Retries =>
      SynchronizeKeepsInv(CancelReconnect(c), Reconnecting);
    case TimerFires(timer) =>
      SynchronizeKeepsInv(c.(timer := None, armed := c.armed - {timer}), Reconnecting);
    case Disconnects(handle) =>
      var lost := c.(transport := false, log := c.log + [LostTransport]);
      LossKeepsInv(c);
      EnterKeepsInv(lost, Reconnecting);
      EnterKeepsTimer(lost, Reconnecting);
    case EventArrives => ReceiveEventKeepsInv(c);
    case Disposes => CloseKeepsInv(c, 0);
    case Settles(v, outcome, open, handle) => SettlingKeepsInv(c, v, outcome, open, handle);
  }

  lemma EnterKeepsTimer(c: State, status: Status)
    ensures Enter(c, status) == c.(status := Enter(c, status).status, log := Enter(c, status).log)
  {
  }

  lemma {:induction false} RunKeepsInv(c: State, es: seq<Event>)
    requires Inv(c)
    ensures Inv(After(c, es))
    decreases |es|
  {
    hide Inv, Step;
    if es != [] {
      if Enabled(c, es[0]) {
        StepKeepsInv(c, es[0]);
      }
      RunKeepsInv(Next(c, es[0]), es[1..]);
    }
  }

  // ---- Results about every run ------------------------------------------------------------

  /** At most one timer is armed, it is the one the coordinator can cancel, and only to reconnect a live pairing. */
  lemma OneTimer(es: seq<Event>)
    ensures var c := After(INIT, es);
      && |c.armed| <= 1
      && forall handle :: handle in c.armed ==> c.timer == Some(handle) && c.profile.Some? && !c.disposed
  {
    RunKeepsInv(INIT, es);
  }

  lemma {:induction false} LawfulPrefix(log: seq<Act>, k: nat)
    requires Lawful(log) && k <= |log|
    ensures Lawful(log[..k])
  {
    if k < |log| {
      LawfulPrefix(log[..|log| - 1], k);
      assert log[..|log| - 1][..k] == log[..k];
    } else {
      assert log[..k] == log;
    }
  }

  lemma {:induction false} DoingsPrefix(log: seq<Act>, k: nat, v: nat)
    requires Lawful(log) && k <= |log|
    ensures Doings(log[..k], v) <= Doings(log, v) && OnCourse(Doings(log, v), v)
    decreases |log|
  {
    if log != [] {
      DoingsPrefix(log[..|log| - 1], if k < |log| then k else 0, v);
    }
    if k < |log| {
      assert log[..|log| - 1][..k] == log[..k];
    } else {
      assert log[..k] == log;
    }
  }

  /** A run goes online only after it has resynchronised: it has begun, resumed, dispatched the list and, when it asked
      for the open session, that subscription, in this order, and it does nothing afterwards. */
  lemma OnlineIsEarned(es: seq<Event>, i: nat)
    requires i < |After(INIT, es).log| && After(INIT, es).log[i].WentOnline?
    ensures
      var log := After(INIT, es).log;
      var v := log[i].run;
      && (Doings(log[..i + 1], v) == Course(v, false) || Doings(log[..i + 1], v) == Course(v, true))
      && Doings(log, v) == Doings(log[..i + 1], v)
  {
    RunKeepsInv(INIT, es);
    EarnedIn(After(INIT, es).log, i);
  }

  lemma EarnedIn(log: seq<Act>, i: nat)
    requires Lawful(log) && i < |log| && log[i].WentOnline?
    ensures
      var v := log[i].run;
      && (Doings(log[..i + 1], v) == Course(v, false) || Doings(log[..i + 1], v) == Course(v, true))
      && Doings(log, v) == Doings(log[..i + 1], v)
  {
    hide Lawful, Doings, Course, OnCourse;
    var v := log[i].run;
    LawfulPrefix(log, i + 1);
    DoingsPrefix(log[..i + 1], 0, v);
    DoingsPrefix(log, i + 1, v);
    assert log[..i + 1] == log[..i] + [log[i]];
    Appended(log[..i], log[i], v);
    OnlineIsLast(Doings(log[..i + 1], v), Doings(log, v), v);
  }

  lemma OnlineIsLast(done: seq<Act>, more: seq<Act>, v: nat)
    requires OnCourse(done, v) && OnCourse(more, v) && done <= more && WentOnline(v) in done
    ensures done == Course(v, false) || done == Course(v, true)
    ensures more == done
  {
  }

  lemma {:induction false} ActorsAscend(log: seq<Act>, i: nat)
    requires Lawful(log) && i < |log| && ByRun(log[i])
    ensures log[i].run <= Actor(log)
  {
    if i < |log| - 1 {
      ActorsAscend(log[..|log| - 1], i);
    }
  }

  /** Runs never act out of the order in which they began. */
  lemma RunsActInOrder(es: seq<Event>, i: nat, j: nat)
    requires i < j < |After(INIT, es).log|
    requires ByRun(After(INIT, es).log[i]) && ByRun(After(INIT, es).log[j])
    ensures After(INIT, es).log[i].run <= After(INIT, es).log[j].run
  {
    RunKeepsInv(INIT, es);
    OrderedIn(After(INIT, es).log, i, j);
  }

  lemma OrderedIn(log: seq<Act>, i: nat, j: nat)
    requires Lawful(log) && i < j < |log| && ByRun(log[i]) && ByRun(log[j])
    ensures log[i].run <= log[j].run
  {
    hide Lawful, Actor;
    LawfulPrefix(log, j + 1);
    assert log[..j + 1] == log[..j] + [log[j]];
    Appended(log[..j], log[j], 0);
    ActorsAscend(log[..j], i);
  }

  /** What run `v` does from the list on depends on whether a session was open when the list came: it goes online by the
      whole course if one was, so only after asking for the subscription and dispatching its answer, and by the short
      course if none was. */
  lemma OpenSessionIsSubscribedIff(before: seq<Event>, v: nat, open: bool, handle: nat, later: seq<Event>, i: nat)
    requires
      var c := After(INIT, before);
      v in c.runs && c.runs[v] == List && v == c.version && !c.disposed && handle !in c.armed
    requires
      var log := After(Next(After(INIT, before), Settles(v, Ok, open, handle)), later).log;
      i < |log| && log[i] == WentOnline(v)
    ensures
      var log := After(Next(After(INIT, before), Settles(v, Ok, open, handle)), later).log;
      && Doings(log[..i + 1], v) == Course(v, open)
      && (open <==> AskedSubscribe(v) in log[..i])
      && (open <==> DispatchedSubscribe(v) in log[..i])
  {
    hide Lawful, Doings, After, Next, Course, OnCourse, Inv;
    var c, e := After(INIT, before), Settles(v, Ok, open, handle);
    var listed := Next(c, e);
    var log := After(listed, later).log;
    InitKeepsInv();
    RunKeepsInv(INIT, before);
    ListIsDispatched(c, v, open, handle);
    RunKeepsInv(listed, later);
    LogGrows(listed, later);
    InvLawful(After(listed, later));
    EarnedIn(log, i);
    assert log[..|listed.log|] == listed.log;
    DoingsPrefix(log, |listed.log|, v);
    CourseTells(Doings(log, v), v, open);
    DoneIff(log[..i + 1], v, AskedSubscribe(v));
    DoneIff(log[..i + 1], v, DispatchedSubscribe(v));
    InCourse(v, open);
    assert log[..i + 1] == log[..i] + [WentOnline(v)];
  }

  lemma InitKeepsInv()
    ensures Inv(INIT)
  {
  }

  lemma InvLawful(c: State)
    requires Inv(c)
    ensures Lawful(c.log) && Actor(c.log) <= c.version
  {
  }

  /** The step that dispatches the list leaves its mark. */
  lemma ListIsDispatched(c: State, v: nat, open: bool, handle: nat)
    requires Inv(c) && v in c.runs && c.runs[v] == List && v == c.version && !c.disposed && handle !in c.armed
    ensures
      var listed := Next(c, Settles(v, Ok, open, handle));
      Inv(listed) && DispatchedList(v, open) in Doings(listed.log, v)
  {
    hide Lawful, Up, Doings, Actor, StatusOf, Tracked, Inv, Course;
    StepKeepsInv(c, Settles(v, Ok, open, handle));
    var listed := Next(c, Settles(v, Ok, open, handle));
    DoneIff(listed.log, v, DispatchedList(v, open));
  }

  lemma {:induction false} DoneIff(log: seq<Act>, v: nat, act: Act)
    requires ByRun(act) && act.run == v
    ensures act in Doings(log, v) <==> act in log
  {
    if log != [] {
      DoneIff(log[..|log| - 1], v, act);
      assert log == log[..|log| - 1] + [log[|log| - 1]];
    }
  }

  lemma CourseTells(done: seq<Act>, v: nat, open: bool)
    requires done == Course(v, false) || done == Course(v, true)
    requires DispatchedList(v, open) in done
    ensures done == Course(v, open)
  {
  }

  lemma InCourse(v: nat, open: bool)
    ensures open <==> AskedSubscribe(v) in Course(v, open)
    ensures open <==> DispatchedSubscribe(v) in Course(v, open)
  {
    if open {
      assert Course(v, open)[4] == AskedSubscribe(v) && Course(v, open)[5] == DispatchedSubscribe(v);
    }
  }

  lemma {:induction false} LogGrows(c: State, es: seq<Event>)
    ensures c.log <= After(c, es).log
    decreases |es|
  {
    hide Step, Enabled;
    if es != [] {
      if Enabled(c, es[0]) {
        StepGrows(c, es[0]);
      }
      LogGrows(Next(c, es[0]), es[1..]);
    }
  }

  lemma StepGrows(c: State, e: Event)
    requires Enabled(c, e)
    ensures c.log <= Step(c, e).log
  {
    hide Advance, Synchronize;
    match e
    case Starts(profile) => SynchronizeGrows(CancelReconnect(c).(profile := profile), Connecting);
    case Retries => SynchronizeGrows(CancelReconnect(c), Reconnecting);
    case TimerFires(timer) => SynchronizeGrows(c.(timer := None, armed := c.armed - {timer}), Reconnecting);
    case Settles(v, _, open, _) => if c.runs[v] != Invalidation { AdvanceGrows(c, v, c.runs[v], open); }
    case _ =>
  }

  lemma SynchronizeGrows(c: State, entry: Status)
    ensures c.log <= Synchronize(c, entry).log
  {
  }

  lemma AdvanceGrows(c: State, v: nat, stage: Stage, open: bool)
    requires stage != Invalidation
    ensures c.log <= Advance(c, v, stage, open).log
  {
  }

  /** What makes a new run begin, in a coordinator that is not disposed: a start with a profile, a retry with one, or
      the timer. */
  predicate Begins(c: State, e: Event) {
    && !c.disposed
    && match e
       case Starts(profile) => profile.Some?
       case Retries => c.profile.Some?
       case TimerFires(timer) => timer in c.armed
       case _ => false
  }

  /** The run that event `e` has begun takes the place of the timer and of every run before it. */
  predicate HasBegun(c: State, e: Event, d: State) {
    && d.version == c.version + 1 && InFlight(d) && d.armed == {} && d.profile.Some?
    && d.status == if e.Starts? then Connecting else Reconnecting
  }

  /** A new run begins exactly then. */
  lemma BeginsIff(es: seq<Event>, e: Event)
    ensures
      var c := After(INIT, es);
      && Doings(Next(c, e).log, c.version + 1) == (if Begins(c, e) then [Began(c.version + 1)] else [])
      && (Begins(c, e) ==> HasBegun(c, e, Next(c, e)))
  {
    InitKeepsInv();
    RunKeepsInv(INIT, es);
    NextBeginsIff(After(INIT, es), e);
  }

  lemma NextBeginsIff(c: State, e: Event)
    requires Inv(c)
    ensures Doings(Next(c, e).log, c.version + 1) == (if Begins(c, e) then [Began(c.version + 1)] else [])
    ensures Begins(c, e) ==> HasBegun(c, e, Next(c, e))
  {
    hide *;
    if Begins(c, e) {
      EventBegins(c, e);
    } else {
      BeginsNothing(c, e);
    }
  }

  lemma EventBegins(c: State, e: Event)
    requires Inv(c) && Begins(c, e)
    ensures Doings(Next(c, e).log, c.version + 1) == [Began(c.version + 1)] && HasBegun(c, e, Next(c, e))
  {
    hide Lawful, Up, Doings, Actor, StatusOf, Course, Tracked, Synchronize;
    match e
    case Starts(profile) => RunBegins(CancelReconnect(c).(profile := profile), Connecting);
    case Retries => RunBegins(CancelReconnect(c), Reconnecting);
    case TimerFires(timer) => RunBegins(c.(timer := None, armed := c.armed - {timer}), Reconnecting);
  }

  lemma BeginsNothing(c: State, e: Event)
    requires Inv(c) && !Begins(c, e)
    ensures Doings(Next(c, e).log, c.version + 1) == []
  {
    hide Lawful, Up, Doings, Actor, StatusOf, Course, Tracked, Begins, Step;
    LaterRunsHaveDoneNothing(c.log, c.version + 1);
    if Enabled(c, e) {
      StepKeepsInv(c, e);
      VersionStays(c, e);
      Appended(c.log, ClosedTransport, c.version + 1);
      InvLawful(Step(c, e));
      if Step(c, e).version == c.version {
        LaterRunsHaveDoneNothing(Step(c, e).log, c.version + 1);
      }
    }
  }

  lemma VersionStays(c: State, e: Event)
    requires TimerInv(c) && Enabled(c, e) && !Begins(c, e)
    ensures Step(c, e).version == c.version || (e.Disposes? && Step(c, e).log in [c.log, c.log + [ClosedTransport]])
  {
    hide Advance;
    if e.Settles? && c.runs[e.run] != Invalidation {
      AdvanceKeepsVersion(c, e.run, c.runs[e.run], e.open);
    }
  }

  lemma AdvanceKeepsVersion(c: State, v: nat, stage: Stage, open: bool)
    requires stage != Invalidation
    ensures Advance(c, v, stage, open).version == c.version
  {
  }

  lemma RunBegins(c: State, entry: Status)
    requires Inv(c) && !c.disposed && c.profile.Some? && c.armed == {} && entry != Online
    ensures
      var d, v := Synchronize(c, entry), c.version + 1;
      && Doings(d.log, v) == [Began(v)] && d.version == v && InFlight(d) && d.armed == {} && d.profile == c.profile
      && d.status == entry
  {
    hide Lawful, Up, Doings, Actor, StatusOf, Course, Tracked;
    var v := c.version + 1;
    LaterRunsHaveDoneNothing(c.log, v);
    Appended(c.log, Began(v), v);
    EnterDoesNothing(c.(version := v, log := c.log + [Began(v)]), entry, v);
    Appended(Enter(c.(version := v, log := c.log + [Began(v)]), entry).log, ClosedTransport, v);
  }

  lemma {:induction false} StaysDisposed(c: State, es: seq<Event>)
    requires Inv(c) && c.disposed
    ensures After(c, es).log == c.log && After(c, es).disposed && After(c, es).armed == {}
    decreases |es|
  {
    hide Lawful, Up, Doings, Actor, StatusOf, Course, Tracked;
    if es != [] {
      if Enabled(c, es[0]) {
        StepKeepsInv(c, es[0]);
      }
      StaysDisposed(Next(c, es[0]), es[1..]);
    }
  }

  /** Disposal closes the socket that is up, does nothing else, and after it nothing is done and nothing is reported any
      more, whatever happens: no timer is armed, and every socket there was has been closed or lost. */
  lemma DisposedIsSilent(before: seq<Event>, later: seq<Event>)
    ensures
      var c, d := After(INIT, before), After(Next(After(INIT, before), Disposes), later);
      && d.disposed && d.armed == {}
      && (d.log == c.log || d.log == c.log + [ClosedTransport])
      && (forall k :: 0 <= k < |d.log| && d.log[k].BeganResync? ==>
            exists m :: k < m < |d.log| && EndsTransport(d.log[m]))
  {
    InitKeepsInv();
    RunKeepsInv(INIT, before);
    var c := After(INIT, before);
    StepKeepsInv(c, Disposes);
    var d := Next(c, Disposes);
    StaysDisposed(d, later);
    hide After, Lawful, Up, Doings, Actor, StatusOf, Course, Tracked;
    assert !Up(d.log);
    DownMeansEnded(d.log);
  }

  lemma DownMeansEnded(log: seq<Act>)
    requires !Up(log)
    ensures forall k :: 0 <= k < |log| && log[k].BeganResync? ==> exists m :: k < m < |log| && EndsTransport(log[m])
  {
    forall k | 0 <= k < |log| && log[k].BeganResync? ensures exists m :: k < m < |log| && EndsTransport(log[m]) {
      if forall m :: k < m < |log| ==> !EndsTransport(log[m]) {
        StillUp(log, k);
      }
    }
  }

  /** What the callback that follows a pairing error does to the status: it ends in `PairingRequired` exactly when the
      callback succeeds before disposal, or that was the status already. */
  lemma InvalidationIff(c: State, v: nat, outcome: Outcome, open: bool, handle: nat)
    requires v in c.runs && c.runs[v] == Invalidation && handle !in c.armed
    ensures
      var d := Next(c, Settles(v, outcome, open, handle));
      && (d.status == PairingRequired <==> c.status == PairingRequired || (outcome.Ok? && !c.disposed))
      && (d.status == c.status <==> d.log == c.log)
      && d.profile == c.profile && d.timer == c.timer && d.runs.Keys == c.runs.Keys - {v}
  {
  }

  predicate EndsTransport(act: Act) {
    act.ClosedTransport? || act.LostTransport?
  }

  lemma {:induction false} UpSince(log: seq<Act>) returns (k: nat)
    requires Up(log)
    ensures k < |log| && log[k].BeganResync? && forall m :: k < m < |log| ==> !EndsTransport(log[m])
  {
    k := |log| - 1;
    if !log[k].BeganResync? {
      k := UpSince(log[..k]);
    }
  }

  lemma {:induction false} StillUp(log: seq<Act>, k: nat)
    requires k < |log| && log[k].BeganResync? && forall m :: k < m < |log| ==> !EndsTransport(log[m])
    ensures Up(log)
  {
    if k < |log| - 1 {
      StillUp(log[..|log| - 1], k);
      assert !EndsTransport(log[|log| - 1]);
    }
  }

  /** One socket at a time: it is resynchronised over a new one only when none is up, so the one before has been lost or
      closed; and only a socket that is up is closed. */
  lemma OneTransport(es: seq<Event>, i: nat)
    requires i < |After(INIT, es).log|
    ensures
      var log := After(INIT, es).log;
      var up := exists k :: 0 <= k < i && log[k].BeganResync? && forall m :: k < m < i ==> !EndsTransport(log[m]);
      (log[i].BeganResync? ==> !up) && (log[i].ClosedTransport? ==> up)
  {
    RunKeepsInv(INIT, es);
    var log := After(INIT, es).log;
    hide After, Lawful, Up, Inv;
    InvLawful(After(INIT, es));
    UpBefore(log, i);
  }

  lemma UpBefore(log: seq<Act>, i: nat)
    requires Lawful(log) && i < |log|
    ensures
      var up := exists k :: 0 <= k < i && log[k].BeganResync? && forall m :: k < m < i ==> !EndsTransport(log[m]);
      (log[i].BeganResync? ==> !up) && (log[i].ClosedTransport? ==> up)
  {
    hide Lawful, Up;
    LawfulPrefix(log, i + 1);
    assert log[..i + 1] == log[..i] + [log[i]];
    Appended(log[..i], log[i], 0);
    if Up(log[..i]) {
      var k := UpSince(log[..i]);
      assert forall m :: 0 <= m < i ==> log[..i][m] == log[m];
    }
    if k :| 0 <= k < i && log[k].BeganResync? && forall m :: k < m < i ==> !EndsTransport(log[m]) {
      StillUp(log[..i], k);
    }
  }

  predicate ChangesStatus(act: Act) {
    act.BeganResync? || act.WentOnline? || act.Entered?
  }

  lemma {:induction false} OnlineSince(log: seq<Act>) returns (k: nat)
    requires Lawful(log) && StatusOf(log) == Online
    ensures k < |log| && log[k].WentOnline?
    ensures forall m :: k < m < |log| ==> !ChangesStatus(log[m])
  {
    if log[|log| - 1].WentOnline? {
      k := |log| - 1;
    } else {
      k := OnlineSince(log[..|log| - 1]);
    }
  }

  lemma {:induction false} OnlineStill(log: seq<Act>, k: nat)
    requires k < |log| && log[k].WentOnline? && forall m :: k < m < |log| ==> !ChangesStatus(log[m])
    ensures StatusOf(log) == Online
  {
    if k < |log| - 1 {
      assert !ChangesStatus(log[|log| - 1]);
      OnlineStill(log[..|log| - 1], k);
    }
  }

  /** An arriving event is dispatched exactly when, before disposal, a run has gone online and no status has been entered
      since. */
  lemma EventsPassIff(es: seq<Event>)
    ensures
      var c := After(INIT, es);
      Next(c, EventArrives).log == c.log + [DispatchedEvent] <==>
      && !c.disposed
      && exists k :: 0 <= k < |c.log| && c.log[k].WentOnline? && forall m :: k < m < |c.log| ==> !ChangesStatus(c.log[m])
  {
    RunKeepsInv(INIT, es);
    var c := After(INIT, es);
    if c.status == Online {
      var k := OnlineSince(c.log);
    } else if k :| 0 <= k < |c.log| && c.log[k].WentOnline? && forall m :: k < m < |c.log| ==> !ChangesStatus(c.log[m]) {
      OnlineStill(c.log, k);
    }
    assert c.log != c.log + [DispatchedEvent];
  }

  /** An event is dispatched only after some run has gone online, and before any other change of the status. */
  lemma EventsPassOnlyOnline(es: seq<Event>, i: nat)
    requires i < |After(INIT, es).log| && After(INIT, es).log[i].DispatchedEvent?
    ensures
      var log := After(INIT, es).log;
      exists k :: 0 <= k < i && log[k].WentOnline? && forall m :: k < m < i ==> !ChangesStatus(log[m])
  {
    RunKeepsInv(INIT, es);
    var k := OnlineBefore(After(INIT, es).log, i);
  }

  lemma OnlineBefore(log: seq<Act>, i: nat) returns (k: nat)
    requires Lawful(log) && i < |log| && log[i].DispatchedEvent?
    ensures k < i && log[k].WentOnline? && forall m :: k < m < i ==> !ChangesStatus(log[m])
  {
    hide Lawful, StatusOf;
    LawfulPrefix(log, i + 1);
    assert log[..i + 1] == log[..i] + [log[i]];
    Appended(log[..i], log[i], 0);
    k := OnlineSince(log[..i]);
  }

  lemma SupersededStep(c: State, e: Event, v: nat)
    requires Enabled(c, e) && v < c.version
    ensures Doings(Step(c, e).log, v) == Doings(c.log, v) && c.version <= Step(c, e).version
  {
    hide Doings, Synchronize, Enter, Continue;
    match e
    case Starts(profile) =>
      SynchronizeDoesNothing(CancelReconnect(c).(profile := profile), Connecting, v);
      EnterDoesNothing(CancelReconnect(c).(profile := profile), PairingRequired, v);
    case Retries => SynchronizeDoesNothing(CancelReconnect(c), Reconnecting, v);
    case TimerFires(timer) => SynchronizeDoesNothing(c.(timer := None, armed := c.armed - {timer}), Reconnecting, v);
    case Disconnects(handle) =>
      Appended(c.log, LostTransport, v);
      EnterDoesNothing(c.(transport := false, log := c.log + [LostTransport]), Reconnecting, v);
    case EventArrives => Appended(c.log, DispatchedEvent, v);
    case Disposes => Appended(c.log, ClosedTransport, v);
    case Settles(u, outcome, open, handle) => ContinueDoesNothing(c, u, outcome, open, handle, v);
  }

  lemma EnterDoesNothing(c: State, status: Status, v: nat)
    ensures Doings(Enter(c, status).log, v) == Doings(c.log, v) && Enter(c, status).version == c.version
  {
    hide Doings;
    Appended(c.log, Entered(status), v);
  }

  lemma SynchronizeDoesNothing(c: State, entry: Status, v: nat)
    requires v <= c.version
    ensures Doings(Synchronize(c, entry).log, v) == Doings(c.log, v) && c.version <= Synchronize(c, entry).version
  {
    hide Doings, Enter;
    var u := c.version + 1;
    Appended(c.log, Began(u), v);
    var c1 := c.(version := u, log := c.log + [Began(u)]);
    EnterDoesNothing(c1, entry, v);
    Appended(Enter(c1, entry).log, ClosedTransport, v);
  }

  lemma ContinueDoesNothing(c: State, u: nat, outcome: Outcome, open: bool, handle: nat, v: nat)
    requires u in c.runs && v < c.version
    ensures Doings(Continue(c, u, outcome, open, handle).log, v) == Doings(c.log, v)
    ensures Continue(c, u, outcome, open, handle).version == c.version
  {
    hide Doings, Enter, Advance;
    var ended := c.(runs := c.runs - {u});
    EnterDoesNothing(ended, PairingRequired, v);
    EnterDoesNothing(ended, Reconnecting, v);
    EnterDoesNothing(CancelReconnect(ended), Recovery, v);
    if c.runs[u] != Invalidation && u == c.version {
      AdvanceDoesNothing(c, u, c.runs[u], open, v);
    }
  }

  lemma AdvanceDoesNothing(c: State, u: nat, stage: Stage, open: bool, v: nat)
    requires stage != Invalidation && u != v
    ensures Doings(Advance(c, u, stage, open).log, v) == Doings(c.log, v)
    ensures Advance(c, u, stage, open).version == c.version
  {
    hide Doings;
    Appended(c.log, BeganResync(u), v);
    Appended(c.log, Resumed(u), v);
    Appended(c.log, DispatchedList(u, open), v);
    Appended(c.log + [DispatchedList(u, open)], AskedSubscribe(u), v);
    Appended(c.log + [DispatchedList(u, open)], WentOnline(u), v);
    Appended(c.log, DispatchedSubscribe(u), v);
    Appended(c.log + [DispatchedSubscribe(u)], WentOnline(u), v);
  }

  /** Once a newer run has begun, or the coordinator is disposed, a run takes no further step of its course, whenever
      and however what it awaits settles. Only the callback of its pairing error can still be heard:
      `PairingHoldsIff`. */
  lemma {:induction false} SupersededRunsAreSilent(c: State, es: seq<Event>, v: nat)
    requires v < c.version
    ensures Doings(After(c, es).log, v) == Doings(c.log, v)
    decreases |es|
  {
    if es != [] {
      if Enabled(c, es[0]) {
        SupersededStep(c, es[0], v);
      }
      SupersededRunsAreSilent(Next(c, es[0]), es[1..], v);
    }
  }

  // ---- Progress ---------------------------------------------------------------------------

  /** Whether the current run is waiting for a step of its course. */
  predicate InFlight(c: State) {
    c.version in c.runs && c.runs[c.version] != Invalidation
  }

  /** A coordinator with a pairing that is not online waits for a run or for its timer. */
  predicate Awake(c: State) {
    !c.disposed && c.profile.Some? && c.status in {Connecting, Reconnecting, Resyncing} ==> InFlight(c) || c.timer.Some?
  }

  lemma StepKeepsAwake(c: State, e: Event)
    requires Awake(c) && Enabled(c, e)
    ensures Awake(Step(c, e))
  {
    hide Continue;
    if e.Settles? {
      SettlingKeepsAwake(c, e.run, e.outcome, e.open, e.handle);
    }
  }

  lemma SettlingKeepsAwake(c: State, v: nat, outcome: Outcome, open: bool, handle: nat)
    requires Awake(c) && v in c.runs
    ensures Awake(Continue(c, v, outcome, open, handle))
  {
  }

  /** While it reports that it is connecting, reconnecting or resynchronising, the coordinator is never stuck. */
  lemma {:induction false} NeverStuck(es: seq<Event>)
    ensures Awake(After(INIT, es))
  {
    StaysAwake(INIT, es);
  }

  lemma {:induction false} StaysAwake(c: State, es: seq<Event>)
    requires Awake(c)
    ensures Awake(After(c, es))
    decreases |es|
  {
    hide Step, Awake;
    if es != [] {
      if Enabled(c, es[0]) {
        StepKeepsAwake(c, es[0]);
      }
      StaysAwake(Next(c, es[0]), es[1..]);
    }
  }

  /** Neither online nor on the way: no timer is armed and the current run waits for nothing. */
  predicate Quiet(c: State) {
    c.armed == {} && !InFlight(c) && c.status in {Idle, Recovery, PairingRequired}
  }

  /** Nobody starts or retries. */
  predicate Unasked(es: seq<Event>) {
    forall i :: 0 <= i < |es| ==> !es[i].Starts? && !es[i].Retries?
  }

  lemma StepStaysQuiet(c: State, e: Event)
    requires Inv(c) && Quiet(c) && Enabled(c, e) && !e.Starts? && !e.Retries?
    ensures Quiet(Step(c, e)) && Step(c, e).version == (if e.Disposes? && !c.disposed then c.version + 1 else c.version)
  {
    hide Lawful, Up, Doings, Actor, StatusOf, Course, Tracked;
  }

  lemma {:induction false} QuietUntilAsked(c: State, es: seq<Event>)
    requires Inv(c) && Quiet(c) && Unasked(es)
    ensures Quiet(After(c, es))
    decreases |es|
  {
    hide Inv, Quiet, Step;
    if es != [] {
      if Enabled(c, es[0]) {
        StepKeepsInv(c, es[0]);
        StepStaysQuiet(c, es[0]);
      }
      QuietUntilAsked(Next(c, es[0]), es[1..]);
    }
  }

  /** What becomes of the failure of the current run, in whatever state of whatever run of the coordinator: with its
      desktop absent it enters recovery and stays off the network, whatever happens, until someone starts or retries;
      with its pairing refused it drops the profile and its timer; after any other failure it is about to reconnect. */
  lemma FailuresAreJudged(before: seq<Event>, outcome: Outcome, open: bool, handle: nat, es: seq<Event>)
    requires InFlight(After(INIT, before)) && After(INIT, before).profile.Some?
    requires !outcome.Ok? && !After(INIT, before).disposed && handle !in After(INIT, before).armed
    ensures
      var c := After(INIT, before);
      var d := Continue(c, c.version, outcome, open, handle);
      match outcome
      case DesktopAbsent => d.status == Recovery && (Unasked(es) ==> Quiet(After(d, es)))
      case PairingError => d.profile.None? && d.armed == {} && d.runs[d.version] == Invalidation
      case _ => d.timer.Some? && d.armed == {d.timer.value} && d.profile == c.profile
                && d.status == if c.timer.None? then Reconnecting else c.status
  {
    RunKeepsInv(INIT, before);
    var c := After(INIT, before);
    hide After, Lawful, Doings, Actor, StatusOf, Course, Tracked;
    var d := Continue(c, c.version, outcome, open, handle);
    SettlingKeepsInv(c, c.version, outcome, open, handle);
    if outcome.DesktopAbsent? && Unasked(es) {
      QuietUntilAsked(d, es);
    }
  }

  /** Nothing but lost sockets, events, and late outcomes that do not refuse the pairing or the desktop. */
  predicate Uneventful(es: seq<Event>) {
    forall i :: 0 <= i < |es| ==>
      || es[i].Disconnects? || es[i].EventArrives?
      || (es[i].Settles? && (es[i].outcome.Ok? || es[i].outcome.OtherError?))
  }

  /** What is left of a lost connection: the timer `handle` is armed, or was before, with a profile. */
  predicate WillReconnect(c: State, handle: nat) {
    c.timer == Some(handle) && handle in c.armed && c.profile.Some? && !c.disposed
  }

  lemma {:induction false} StillReconnects(c: State, handle: nat, es: seq<Event>)
    requires WillReconnect(c, handle) && Uneventful(es)
    ensures WillReconnect(After(c, es), handle) && After(c, es).version == c.version
    decreases |es|
  {
    if es != [] {
      StepStillReconnects(c, handle, es[0]);
      StillReconnects(Next(c, es[0]), handle, es[1..]);
    }
  }

  lemma StepStillReconnects(c: State, handle: nat, e: Event)
    requires WillReconnect(c, handle)
    requires e.Disconnects? || e.EventArrives? || (e.Settles? && (e.outcome.Ok? || e.outcome.OtherError?))
    ensures WillReconnect(Next(c, e), handle) && Next(c, e).version == c.version
  {
  }

  /** From every state in which there is a connection to lose, losing it leads to a reconnect: however many uneventful
      things happen before the timer fires, when it fires a new run begins. */
  lemma LostSocketReconnects(before: seq<Event>, handle: nat, es: seq<Event>)
    requires Uneventful(es) && handle !in After(INIT, before).armed
    ensures
      var c := After(INIT, before);
      !c.disposed && c.profile.Some? && c.status in {Connecting, Online, Reconnecting, Resyncing} ==>
        var lost := Next(c, Disconnects(handle));
        var later := After(lost, es);
        && lost.timer.Some? && Enabled(later, TimerFires(lost.timer.value))
        && var again := Next(later, TimerFires(lost.timer.value));
           again.version == c.version + 1 && InFlight(again) && again.status == Reconnecting && again.armed == {}
  {
    RunKeepsInv(INIT, before);
    var c := After(INIT, before);
    hide After, Inv, Enabled, Next;
    if !c.disposed && c.profile.Some? && c.status in {Connecting, Online, Reconnecting, Resyncing} {
      var lost := Next(c, Disconnects(handle));
      LosingArms(c, handle);
      StillReconnects(lost, lost.timer.value, es);
      RunKeepsInv(lost, es);
      FiredTimerBegins(After(lost, es), lost.timer.value);
    }
  }

  lemma LosingArms(c: State, handle: nat)
    requires Inv(c) && handle !in c.armed && !c.disposed && c.profile.Some?
    requires c.status in {Connecting, Online, Reconnecting, Resyncing}
    ensures
      var lost := Next(c, Disconnects(handle));
      Inv(lost) && lost.timer.Some? && WillReconnect(lost, lost.timer.value) && lost.version == c.version
  {
    StepKeepsInv(c, Disconnects(handle));
    hide Lawful, Up, Doings, Actor, StatusOf, Course, Tracked;
  }

  lemma FiredTimerBegins(c: State, handle: nat)
    requires Inv(c) && WillReconnect(c, handle)
    ensures Enabled(c, TimerFires(handle))
    ensures
      var again := Next(c, TimerFires(handle));
      again.version == c.version + 1 && InFlight(again) && again.status == Reconnecting && again.armed == {}
  {
    hide Lawful, Up, Doings, Actor, StatusOf, Course, Tracked;
  }

  // ---- Where the code falls short ---------------------------------------------------------

  /** No event pairs the phone. */
  predicate Unassisted(es: seq<Event>) {
    forall i :: 0 <= i < |es| ==> !(es[i].Starts? && es[i].profile.Some?)
  }

  predicate OnlineUnpaired(c: State) {
    c.status == Online && c.profile.None?
  }

  /** `start(null)` does not advance the version, so a run in flight still goes online, without a profile. It keeps the
      coordinator offline until the next pairing exactly when no run is in flight. */
  lemma UnpairingHoldsIff(before: seq<Event>)
    requires !After(INIT, before).disposed
    ensures
      var c := After(INIT, before);
      (forall es :: Unassisted(es) ==> !OnlineUnpaired(After(Start(c, None), es)))
      <==> !InFlight(c)
  {
    RunKeepsInv(INIT, before);
    var c := After(INIT, before);
    hide After, Inv, Start, InFlight, Unassisted, OnlineUnpaired;
    if InFlight(c) {
      var es := RunReachesOnline(c);
    } else {
      UnpairedStaysOffline(c);
    }
  }

  lemma RunReachesOnline(c: State) returns (es: seq<Event>)
    requires Inv(c) && InFlight(c) && !c.disposed
    ensures Unassisted(es) && OnlineUnpaired(After(Start(c, None), es))
  {
    hide After, Lawful, Doings, Actor, StatusOf, Course, Tracked;
    StartDisarms(c, None);
    es := ReachesOnline(Start(c, None));
  }

  lemma UnpairedStaysOffline(c: State)
    requires Inv(c) && !InFlight(c) && !c.disposed
    ensures forall es :: Unassisted(es) ==> !OnlineUnpaired(After(Start(c, None), es))
  {
    hide After, Lawful, Doings, Actor, StatusOf, Course, Tracked;
    StepKeepsInv(c, Starts(None));
    forall es | Unassisted(es) ensures !OnlineUnpaired(After(Start(c, None), es)) {
      StaysOffline(Start(c, None), es);
    }
  }

  /** How many outcomes a run still awaits. */
  function Remaining(stage: Stage): nat {
    match stage
    case Connect => 4
    case Resume => 3
    case List => 2
    case Subscribe => 1
    case Invalidation => 0
  }

  lemma {:induction false} ReachesOnline(c: State) returns (es: seq<Event>)
    requires InFlight(c) && c.profile.None? && !c.disposed && c.armed == {}
    ensures Unassisted(es) && OnlineUnpaired(After(c, es))
    decreases Remaining(c.runs[c.version])
  {
    var e := Settles(c.version, Ok, false, 0);
    var next := Step(c, e);
    var rest := [];
    if c.runs[c.version] in {Connect, Resume} {
      rest := ReachesOnline(next);
    }
    es := [e] + rest;
    assert es[1..] == rest;
  }

  predicate Offline(c: State) {
    c.profile.None? && c.status != Online && !InFlight(c)
  }

  lemma {:induction false} StaysOffline(c: State, es: seq<Event>)
    requires Inv(c) && Offline(c) && Unassisted(es)
    ensures !OnlineUnpaired(After(c, es))
    decreases |es|
  {
    hide Lawful, Up, Doings, Actor, StatusOf, Course, Tracked;
    if es != [] {
      if Enabled(c, es[0]) {
        StepKeepsInv(c, es[0]);
      }
      StaysOffline(Next(c, es[0]), es[1..]);
    }
  }

  lemma StartDisarms(c: State, profile: Option<string>)
    requires Inv(c)
    ensures Start(c, profile).armed == {}
    ensures !c.disposed && profile.None? ==> Start(c, profile).status == PairingRequired
  {
  }

  predicate AwaitsInvalidation(c: State) {
    exists v :: v in c.runs && c.runs[v] == Invalidation
  }

  /** The callback of an earlier pairing error sets `pairingRequired` without looking at the version: after a new
      pairing the coordinator can still end up asking for one, exactly when such a callback is pending. */
  lemma PairingHoldsIff(before: seq<Event>, profile: string)
    requires !After(INIT, before).disposed
    ensures
      var c := After(INIT, before);
      var paired := Start(c, Some(profile));
      (forall es :: Unassisted(es) && After(paired, es).profile.Some? ==>
         After(paired, es).status != PairingRequired)
      <==> !AwaitsInvalidation(c)
  {
    RunKeepsInv(INIT, before);
    var c := After(INIT, before);
    hide After, Inv, Start;
    var paired := Start(c, Some(profile));
    StepKeepsInv(c, Starts(Some(profile)));
    if AwaitsInvalidation(c) {
      var es := CallbackUnpairs(c, profile);
    } else {
      StartPairsSoundly(c, profile);
      forall es | Unassisted(es) && After(paired, es).profile.Some?
        ensures After(paired, es).status != PairingRequired
      {
        StaysPaired(paired, es);
      }
    }
  }

  lemma CallbackUnpairs(c: State, profile: string) returns (es: seq<Event>)
    requires Inv(c) && AwaitsInvalidation(c) && !c.disposed
    ensures
      var paired := Start(c, Some(profile));
      && Unassisted(es)
      && After(paired, es).profile.Some? && After(paired, es).status == PairingRequired
  {
    hide Lawful, Up, Doings, Actor, StatusOf, Course, Tracked;
    var v :| v in c.runs && c.runs[v] == Invalidation;
    var e := Settles(v, Ok, false, 0);
    es := [e];
    var paired := Start(c, Some(profile));
    StartDisarms(c, Some(profile));
    assert v in paired.runs && paired.runs[v] == Invalidation;
    assert Enabled(paired, e);
    assert es[1..] == [];
  }

  lemma StartPairsSoundly(c: State, profile: string)
    requires !c.disposed && !AwaitsInvalidation(c)
    ensures SoundlyPaired(Start(c, Some(profile)))
  {
    var paired := Start(c, Some(profile));
    forall v | v in paired.runs ensures paired.runs[v] != Invalidation {
    }
  }

  predicate SoundlyPaired(c: State) {
    c.profile.Some? ==> c.status != PairingRequired && !AwaitsInvalidation(c)
  }

  lemma {:induction false} StaysPaired(c: State, es: seq<Event>)
    requires SoundlyPaired(c) && Unassisted(es)
    ensures SoundlyPaired(After(c, es))
    decreases |es|
  {
    hide SoundlyPaired, Step;
    if es != [] {
      if Enabled(c, es[0]) {
        StepStaysPaired(c, es[0]);
      }
      StaysPaired(Next(c, es[0]), es[1..]);
    }
  }

  lemma StepStaysPaired(c: State, e: Event)
    requires SoundlyPaired(c) && Enabled(c, e) && !(e.Starts? && e.profile.Some?)
    ensures SoundlyPaired(Step(c, e))
  {
    hide Continue;
    var d := Step(c, e);
    if e.Settles? {
      SettlingStaysPaired(c, e.run, e.outcome, e.open, e.handle);
    } else if d.profile.Some? {
      forall v | v in d.runs ensures d.runs[v] != Invalidation {
        if v in c.runs {
          assert c.runs[v] != Invalidation;
        }
      }
    }
  }

  lemma SettlingStaysPaired(c: State, v: nat, outcome: Outcome, open: bool, handle: nat)
    requires SoundlyPaired(c) && v in c.runs
    ensures SoundlyPaired(Continue(c, v, outcome, open, handle))
  {
    var d := Continue(c, v, outcome, open, handle);
    if d.profile.Some? {
      assert c.profile.Some?;
      forall u | u in d.runs ensures d.runs[u] != Invalidation {
        assert u in c.runs && c.runs[u] != Invalidation;
      }
    }
  }

  // ---- The coordinator itself -------------------------------------------------------------

  class ConnectionCoordinator {
    var status: Status
    var profile: Option<string>
    var reconnectTimer: Option<nat>
    var armed: set<nat>            // the timers of the environment
    var disposed: bool
    var runVersion: nat
    var hasActiveTransport: bool
    var runs: map<nat, Stage>      // the continuations the environment holds
    ghost var log: seq<Act>

    ghost function Snapshot(): State
      reads this
    {
      State.State(status, profile, reconnectTimer, armed, disposed, runVersion, hasActiveTransport, runs, log)
    }

    constructor ()
      ensures Snapshot() == INIT
    {
      status, profile, reconnectTimer, armed, disposed := Idle, None, None, {}, false;
      runVersion, hasActiveTransport, runs, log := 0, false, map[], [];
    }

    method SetStatus(next: Status)
      modifies this`status, this`log
      ensures Snapshot() == Enter(old(Snapshot()), next)
    {
      if disposed || status == next { return; }
      status := next;
      log := log + [Entered(next)];
    }

    method Cancel()
      modifies this`reconnectTimer, this`armed
      ensures Snapshot() == CancelReconnect(old(Snapshot()))
    {
      if reconnectTimer.None? { return; }
      armed := armed - {reconnectTimer.value};
      reconnectTimer := None;
    }

    method Schedule(handle: nat)
      modifies this`status, this`log, this`reconnectTimer, this`armed
      ensures Snapshot() == ScheduleReconnect(old(Snapshot()), handle)
    {
      if disposed || profile.None? || reconnectTimer.Some? { return; }
      SetStatus(Reconnecting);
      armed := armed + {handle};
      reconnectTimer := Some(handle);
    }

    method CloseActiveTransport()
      modifies this`hasActiveTransport, this`log
      ensures Snapshot() == CloseTransport(old(Snapshot()))
    {
      if !hasActiveTransport { return; }
      hasActiveTransport := false;
      log := log + [ClosedTransport];
    }

    /** Up to the first `await`, for the connection. */
    method BeginRun(entry: Status)
      modifies this
      ensures Snapshot() == Synchronize(old(Snapshot()), entry)
    {
      if disposed || profile.None? { return; }
      runVersion := runVersion + 1;
      log := log + [Began(runVersion)];
      SetStatus(entry);
      CloseActiveTransport();
      runs := runs[runVersion := Connect];
    }

    /** Settles run `v`, whose awaited operation has succeeded or failed. */
    method Settle(v: nat, outcome: Outcome, open: bool, handle: nat)
      requires v in runs
      modifies this
      ensures Snapshot() == Continue(old(Snapshot()), v, outcome, open, handle)
    {
      var stage := runs[v];
      if stage == Invalidation {
        runs := runs - {v};
        if outcome.Ok? && !disposed { SetStatus(PairingRequired); }
      } else if !outcome.Ok? {
        if v == runVersion { Fail(v, outcome, handle); } else { runs := runs - {v}; }
      } else if disposed || v != runVersion {
        runs := runs - {v};
      } else {
        GoOn(v, stage, open);
      }
    }

    method GoOn(v: nat, stage: Stage, open: bool)
      requires stage != Invalidation
      modifies this
      ensures Snapshot() == Advance(old(Snapshot()), v, stage, open)
    {
      match stage
      case Connect =>
        hasActiveTransport := true;
        status := Resyncing;
        log := log + [BeganResync(v)];
        runs := runs[v := Resume];
      case Resume =>
        log := log + [Resumed(v)];
        runs := runs[v := List];
      case List =>
        log := log + [DispatchedList(v, open)];
        if open {
          log := log + [AskedSubscribe(v)];
          runs := runs[v := Subscribe];
        } else {
          FinishRun(v);
        }
      case Subscribe =>
        log := log + [DispatchedSubscribe(v)];
        FinishRun(v);
    }

    method FinishRun(v: nat)
      modifies this`status, this`log, this`runs
      ensures Snapshot() == GoOnline(old(Snapshot()), v)
    {
      status := Online;
      log := log + [WentOnline(v)];
      runs := runs - {v};
    }

    method Fail(v: nat, outcome: Outcome, handle: nat)
      modifies this
      ensures Snapshot() == HandleFailure(old(Snapshot()), v, outcome, handle)
    {
      if disposed { runs := runs - {v}; return; }
      if outcome.PairingError? {
        Cancel();
        profile := None;
        runs := runs[v := Invalidation];
        return;
      }
      runs := runs - {v};
      if outcome.DesktopAbsent? {
        Cancel();
        SetStatus(Recovery);
        return;
      }
      Schedule(handle);
    }

    method StartWith(nextProfile: Option<string>)
      modifies this
      ensures Snapshot() == Start(old(Snapshot()), nextProfile)
    {
      Cancel();
      profile := nextProfile;
      if profile.None? {
        SetStatus(PairingRequired);
        return;
      }
      BeginRun(Connecting);
    }

    method RetryNow()
      modifies this
      ensures Snapshot() == Retry(old(Snapshot()))
    {
      if disposed || profile.None? { return; }
      Cancel();
      BeginRun(Reconnecting);
    }

    method OnTimer(handle: nat)
      modifies this
      ensures Snapshot() == FireTimer(old(Snapshot()), handle)
    {
      armed := armed - {handle};
      reconnectTimer := None;
      BeginRun(Reconnecting);
    }

    method OnDisconnected(handle: nat)
      modifies this
      ensures Snapshot() == Disconnect(old(Snapshot()), handle)
    {
      if disposed { return; }
      hasActiveTransport := false;
      log := log + [LostTransport];
      if status != Idle && status != Recovery && status != PairingRequired { Schedule(handle); }
    }

    method OnEvent() returns (dispatched: bool)
      modifies this`log
      ensures Snapshot() == ReceiveEvent(old(Snapshot()))
      ensures dispatched <==> !disposed && status == Online
    {
      dispatched := !disposed && status == Online;
      if dispatched { log := log + [DispatchedEvent]; }
    }

    method Close()
      modifies this`disposed, this`runVersion, this`reconnectTimer, this`armed, this`hasActiveTransport, this`log
      ensures Snapshot() == Dispose(old(Snapshot()))
    {
      if disposed { return; }
      disposed := true;
      runVersion := runVersion + 1;
      Cancel();
      CloseActiveTransport();
    }
  }
}
