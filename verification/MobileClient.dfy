/** The phone's protocol client (apps/mobile/src/protocol/mobileClient.ts): one current socket, one attempt to connect
    that can be superseded, and the requests that wait for a response.

    Sockets and attempts are numbered together: attempt `n` makes socket `n`, unless the factory fails. What a socket
    reports may come at any time, also after it has been superseded. */
module MobileClient {
  import opened Options
  import opened Sequences

  datatype Connection = Disconnected | Connecting | Connected

  datatype Pending = Pending(id: string, socket: nat)

  datatype Fact =
    | Asked(id: string)
    | Answered(id: string, ok: bool)
    | Attempted(attempt: nat)
    | Concluded(attempt: nat, ok: bool)
    | Dispatched                            // an event, to the listeners
    | Told(connection: Connection)          // to the listeners

  datatype State = State(
    socket: Option<nat>,
    connection: Connection,
    cancel: Option<nat>,                    // the attempt `cancelConnect` would reject
    settled: set<nat>,                      // the attempts that have concluded
    attempts: nat,
    pending: seq<Pending>,                  // a `Map` keeps the order of insertion
    log: seq<Fact>)

  const INIT := State(None, Disconnected, None, {}, 0, [], [])

  // ---- The functions ----------------------------------------------------------------------

  function Tell(c: State, connection: Connection): State {
    c.(connection := connection, log := c.log + [Told(connection)])
  }

  /** `cancelAttempt` of attempt `n`. */
  function CancelAttempt(c: State, n: nat): State {
    if n in c.settled then c
    else
      c.(settled := c.settled + {n}, cancel := if c.cancel == Some(n) then None else c.cancel,
         log := c.log + [Concluded(n, false)])
  }

  /** `fails` says that the socket factory throws. */
  function Connect(c: State, fails: bool): State {
    var n := c.attempts;
    var c1 := if c.cancel.Some? then CancelAttempt(c, c.cancel.value) else c;
    var c2 := Tell(c1, Connecting).(attempts := n + 1);
    var c3 := c2.(log := c2.log + [Attempted(n)]);
    if fails then
      var c4 := Tell(c3, Disconnected);
      c4.(settled := c4.settled + {n}, log := c4.log + [Concluded(n, false)])
    else c3.(cancel := Some(n), socket := Some(n))
  }

  function Open(c: State, n: nat): State {
    if n in c.settled || c.socket != Some(n) then c
    else
      var cancel := if c.cancel == Some(n) then None else c.cancel;
      var c1 := Tell(c.(settled := c.settled + {n}, cancel := cancel), Connected);
      c1.(log := c1.log + [Concluded(n, true)])
  }

  function Rejections(pending: seq<Pending>): seq<Fact> {
    if pending == [] then [] else [Answered(pending[0].id, false)] + Rejections(pending[1..])
  }

  function Close(c: State, n: nat): State {
    var c1 := CancelAttempt(c, n);
    if c1.socket != Some(n) then c1
    else Tell(c1.(socket := None, pending := [], log := c1.log + Rejections(c1.pending)), Disconnected)
  }

  function Fail(c: State, n: nat): State {
    if n !in c.settled && c.socket == Some(n) then Tell(CancelAttempt(c, n), Disconnected) else c
  }

  function Without(pending: seq<Pending>, id: string): seq<Pending> {
    if pending == [] then []
    else if pending[0].id == id then pending[1..]
    else [pending[0]] + Without(pending[1..], id)
  }

  predicate Waits(pending: seq<Pending>, id: string) {
    pending != [] && (pending[0].id == id || Waits(pending[1..], id))
  }

  /** A response from any socket, current or not. */
  function Respond(c: State, id: string, ok: bool): State {
    if !Waits(c.pending, id) then c
    else c.(pending := Without(c.pending, id), log := c.log + [Answered(id, ok)])
  }

  /** `fails` says that sending throws. A refused request leaves no trace but its answer. */
  function Request(c: State, id: string, fails: bool): State {
    if c.socket.None? || c.connection != Connected || fails then
      c.(log := c.log + [Asked(id), Answered(id, false)])
    else
      c.(pending := c.pending + [Pending(id, c.socket.value)], log := c.log + [Asked(id)])
  }

  datatype Event =
    | Connects(fails: bool)
    | Opens(socket: nat)
    | Closes(socket: nat)
    | Errs(socket: nat)
    | Responds(socket: nat, id: string, ok: bool)
    | Notifies(socket: nat)
    | Requests(id: string, fails: bool)

  /** A new request has a new id, and only sockets that were made report anything. */
  predicate Enabled(c: State, e: Event) {
    match e
    case Connects(_) => true
    case Requests(id, _) => Asked(id) !in c.log
    case Responds(socket, _, _) => socket < c.attempts
    case _ => e.socket < c.attempts
  }

  function Step(c: State, e: Event): State
    requires Enabled(c, e)
  {
    match e
    case Connects(fails) => Connect(c, fails)
    case Opens(n) => Open(c, n)
    case Closes(n) => Close(c, n)
    case Errs(n) => Fail(c, n)
    case Responds(_, id, ok) => Respond(c, id, ok)
    case Notifies(_) => c.(log := c.log + [Dispatched])
    case Requests(id, fails) => Request(c, id, fails)
  }

  /** An event that cannot happen is skipped. */
  function Next(c: State, e: Event): State {
    if Enabled(c, e) then Step(c, e) else c
  }

  function After(c: State, es: seq<Event>): State
    decreases |es|
  {
    if es == [] then c else After(Next(c, es[0]), es[1..])
  }

  // ---- What a log means -------------------------------------------------------------------

  function Count(log: seq<Fact>, f: Fact): nat {
    if log == [] then 0 else Count(log[..|log| - 1], f) + if log[|log| - 1] == f then 1 else 0
  }

  /** How often a request was answered, and an attempt concluded. */
  function TimesAnswered(log: seq<Fact>, id: string): nat {
    Count(log, Answered(id, true)) + Count(log, Answered(id, false))
  }

  function TimesConcluded(log: seq<Fact>, n: nat): nat {
    Count(log, Concluded(n, true)) + Count(log, Concluded(n, false))
  }

  function TimesPending(pending: seq<Pending>, id: string): nat {
    if pending == [] then 0 else (if pending[0].id == id then 1 else 0) + TimesPending(pending[1..], id)
  }

  /** The number of attempts begun so far. */
  function Begun(log: seq<Fact>): nat {
    if log == [] then 0
    else
      var last := log[|log| - 1];
      if last.Attempted? then last.attempt + 1 else Begun(log[..|log| - 1])
  }

  /** Only the newest attempt ever succeeds. */
  predicate NewestSucceeds(log: seq<Fact>) {
    log == [] ||
    var front, last := log[..|log| - 1], log[|log| - 1];
    && NewestSucceeds(front)
    && (last.Concluded? && last.ok ==> last.attempt + 1 == Begun(front))
  }

  /** Every request is answered once or waits. */
  ghost predicate Conserved(c: State) {
    forall id ::
      && Count(c.log, Asked(id)) <= 1
      && TimesAnswered(c.log, id) + TimesPending(c.pending, id) == Count(c.log, Asked(id))
  }

  ghost predicate Concluding(c: State) {
    forall n: nat ::
      && TimesConcluded(c.log, n) == (if n in c.settled then 1 else 0)
      && (n in c.settled ==> n < c.attempts)
      && (n < c.attempts && n !in c.settled ==> c.cancel == Some(n))
  }

  predicate Current(c: State) {
    && (c.cancel.Some? ==> c.cancel.value !in c.settled && c.cancel.value + 1 == c.attempts && c.socket == c.cancel)
    && (c.socket.Some? ==> c.socket.value < c.attempts)
    && (c.connection.Connected? ==> c.socket.Some? && Concluded(c.socket.value, true) in c.log)
    && Begun(c.log) == c.attempts && NewestSucceeds(c.log)
  }

  ghost predicate Inv(c: State) {
    Conserved(c) && Concluding(c) && Current(c)
  }

  lemma {:induction false} Counts(log: seq<Fact>, more: seq<Fact>, f: Fact)
    ensures Count(log + more, f) == Count(log, f) + Count(more, f)
  {
    if more == [] {
      assert log + more == log;
    } else {
      Counts(log, more[..|more| - 1], f);
      assert (log + more)[..|log + more| - 1] == log + more[..|more| - 1];
    }
  }

  lemma {:induction false} CountedIsIn(log: seq<Fact>, f: Fact)
    ensures Count(log, f) > 0 <==> f in log
  {
    if log != [] {
      CountedIsIn(log[..|log| - 1], f);
      assert log == log[..|log| - 1] + [log[|log| - 1]];
    }
  }

  /** The facts a step adds. */
  function Added(c: State, e: Event): seq<Fact>
    requires Enabled(c, e)
  {
    match e
    case Connects(fails) =>
      (if c.cancel.Some? && c.cancel.value !in c.settled then [Concluded(c.cancel.value, false)] else []) +
      [Told(Connecting), Attempted(c.attempts)] +
      (if fails then [Told(Disconnected), Concluded(c.attempts, false)] else [])
    case Opens(n) => if n in c.settled || c.socket != Some(n) then [] else [Told(Connected), Concluded(n, true)]
    case Closes(n) =>
      (if n in c.settled then [] else [Concluded(n, false)]) +
      (if c.socket == Some(n) then Rejections(c.pending) + [Told(Disconnected)] else [])
    case Errs(n) =>
      if n !in c.settled && c.socket == Some(n) then [Concluded(n, false), Told(Disconnected)] else []
    case Responds(_, id, ok) => if Waits(c.pending, id) then [Answered(id, ok)] else []
    case Notifies(_) => [Dispatched]
    case Requests(id, fails) =>
      [Asked(id)] + if c.socket.None? || c.connection != Connected || fails then [Answered(id, false)] else []
  }

  lemma StepAdds(c: State, e: Event)
    requires Enabled(c, e)
    ensures Step(c, e).log == c.log + Added(c, e)
  {
    hide Rejections, Without;
    if e.Connects? {
      ConnectAdds(c, e.fails);
    }
  }

  lemma ConnectAdds(c: State, fails: bool)
    ensures Connect(c, fails).log == c.log + Added(c, Connects(fails))
  {
    var n := c.attempts;
    var first := if c.cancel.Some? && c.cancel.value !in c.settled then [Concluded(c.cancel.value, false)] else [];
    assert c.log + [] == c.log;
    assert c.log + first + [Told(Connecting)] + [Attempted(n)]
        == c.log + (first + [Told(Connecting), Attempted(n)]);
  }

  lemma CountShort(a: Fact, b: Fact, f: Fact)
    ensures Count([a], f) == if a == f then 1 else 0
    ensures Count([a, b], f) == (if a == f then 1 else 0) + (if b == f then 1 else 0)
    ensures Count([], f) == 0
  {
    assert [a][..0] == [] && [a, b][..1] == [a];
  }

  // ---- Requests ---------------------------------------------------------------------------

  lemma {:induction false} RejectionsAnswerAll(pending: seq<Pending>, id: string)
    ensures TimesAnswered(Rejections(pending), id) == TimesPending(pending, id)
    ensures Count(Rejections(pending), Asked(id)) == 0
  {
    if pending != [] {
      var first, rest := Answered(pending[0].id, false), Rejections(pending[1..]);
      RejectionsAnswerAll(pending[1..], id);
      CountShort(first, first, Asked(id));
      CountShort(first, first, Answered(id, true));
      CountShort(first, first, Answered(id, false));
      Counts([first], rest, Asked(id));
      Counts([first], rest, Answered(id, true));
      Counts([first], rest, Answered(id, false));
    }
  }

  lemma {:induction false} WithoutOne(pending: seq<Pending>, id: string, other: string)
    requires Waits(pending, id)
    ensures TimesPending(Without(pending, id), other) == TimesPending(pending, other) - if other == id then 1 else 0
  {
    if pending[0].id != id {
      WithoutOne(pending[1..], id, other);
      assert ([pending[0]] + Without(pending[1..], id))[1..] == Without(pending[1..], id);
    }
  }

  lemma {:induction false} PendingAppend(pending: seq<Pending>, p: Pending, id: string)
    ensures TimesPending(pending + [p], id) == TimesPending(pending, id) + if p.id == id then 1 else 0
  {
    if pending != [] {
      PendingAppend(pending[1..], p, id);
      assert (pending + [p])[1..] == pending[1..] + [p];
    }
  }

  /** A step asks what it requests, and answers what no longer waits. */
  lemma AddedBalances(c: State, e: Event, id: string)
    requires Enabled(c, e)
    ensures Count(Added(c, e), Asked(id)) == if e.Requests? && e.id == id then 1 else 0
    ensures TimesAnswered(Added(c, e), id) + TimesPending(Step(c, e).pending, id)
         == TimesPending(c.pending, id) + Count(Added(c, e), Asked(id))
  {
    hide Count, Rejections, Without;
    var added := Added(c, e);
    RejectionsAreAnswers(c.pending);
    CountedIsIn(added, Asked(id));
    CountedIsIn(added, Answered(id, true));
    CountedIsIn(added, Answered(id, false));
    match e
    case Requests(own, fails) =>
      if c.socket.Some? { PendingAppend(c.pending, Pending(own, c.socket.value), id); }
      RequestCounts(added, own, id);
    case Responds(_, own, ok) =>
      if Waits(c.pending, own) {
        WithoutOne(c.pending, own, id);
        AnswerCounts(own, ok, id);
      }
    case Closes(n) => CloseBalances(c, n, id);
    case _ =>
  }

  lemma RequestCounts(added: seq<Fact>, own: string, id: string)
    requires added == [Asked(own)] || added == [Asked(own), Answered(own, false)]
    ensures Count(added, Asked(id)) == if own == id then 1 else 0
    ensures TimesAnswered(added, id) == if |added| == 2 && own == id then 1 else 0
  {
    CountShort(Asked(own), Answered(own, false), Asked(id));
    CountShort(Asked(own), Answered(own, false), Answered(id, true));
    CountShort(Asked(own), Answered(own, false), Answered(id, false));
  }

  lemma AnswerCounts(own: string, ok: bool, id: string)
    ensures TimesAnswered([Answered(own, ok)], id) == if own == id then 1 else 0
  {
    CountShort(Answered(own, ok), Dispatched, Answered(id, true));
    CountShort(Answered(own, ok), Dispatched, Answered(id, false));
  }

  lemma CloseBalances(c: State, n: nat, id: string)
    requires Enabled(c, Closes(n))
    ensures
      var added := Added(c, Closes(n));
      && Count(added, Asked(id)) == 0
      && TimesAnswered(added, id) == if c.socket == Some(n) then TimesPending(c.pending, id) else 0
  {
    var first := if n in c.settled then [] else [Concluded(n, false)];
    var mid, last := Rejections(c.pending), [Told(Disconnected)];
    RejectionsAnswerAll(c.pending, id);
    CountsThree(first, mid, last, Asked(id));
    CountsThree(first, mid, last, Answered(id, true));
    CountsThree(first, mid, last, Answered(id, false));
    assert first + [] == first;
  }

  lemma CountsThree(first: seq<Fact>, mid: seq<Fact>, last: seq<Fact>, f: Fact)
    requires f !in first && f !in last
    ensures Count(first + (mid + last), f) == Count(mid, f) && Count(first, f) == 0
  {
    Counts(first, mid + last, f);
    Counts(mid, last, f);
    CountedIsIn(first, f);
    CountedIsIn(last, f);
  }

  lemma StepConserves(c: State, e: Event)
    requires Conserved(c) && Enabled(c, e)
    ensures Conserved(Step(c, e))
  {
    hide Count, TimesPending, Step, Added, TimesAnswered;
    var d := Step(c, e);
    forall id
      ensures Count(d.log, Asked(id)) <= 1
      ensures TimesAnswered(d.log, id) + TimesPending(d.pending, id) == Count(d.log, Asked(id))
    {
      StepAdds(c, e);
      AddedBalances(c, e, id);
      Counts(c.log, Added(c, e), Asked(id));
      AnswersAdd(c.log, Added(c, e), id);
      CountedIsIn(c.log, Asked(id));
    }
  }

  lemma AnswersAdd(log: seq<Fact>, more: seq<Fact>, id: string)
    ensures TimesAnswered(log + more, id) == TimesAnswered(log, id) + TimesAnswered(more, id)
  {
    Counts(log, more, Answered(id, true));
    Counts(log, more, Answered(id, false));
  }

  // ---- Attempts ---------------------------------------------------------------------------

  lemma StepConcludes(c: State, e: Event)
    requires Concluding(c) && Current(c) && Enabled(c, e)
    ensures Concluding(Step(c, e))
  {
    hide Count, Step, Added, TimesConcluded, Current;
    var d := Step(c, e);
    StepAdds(c, e);
    forall n: nat
      ensures TimesConcluded(d.log, n) == (if n in d.settled then 1 else 0)
      ensures n in d.settled ==> n < d.attempts
      ensures n < d.attempts && n !in d.settled ==> d.cancel == Some(n)
    {
      ConclusionsAdd(c.log, Added(c, e), n);
      StepSettles(c, e, n);
      assert TimesConcluded(c.log, n) == (if n in c.settled then 1 else 0);
    }
  }

  lemma ConclusionsAdd(log: seq<Fact>, more: seq<Fact>, n: nat)
    ensures TimesConcluded(log + more, n) == TimesConcluded(log, n) + TimesConcluded(more, n)
  {
    Counts(log, more, Concluded(n, true));
    Counts(log, more, Concluded(n, false));
  }

  lemma StepSettles(c: State, e: Event, n: nat)
    requires Concluding(c) && Current(c) && Enabled(c, e)
    ensures
      var d := Step(c, e);
      && TimesConcluded(Added(c, e), n) == (if n in d.settled && n !in c.settled then 1 else 0)
      && c.settled <= d.settled
      && (n in d.settled ==> n < d.attempts)
      && (n < d.attempts && n !in d.settled ==> d.cancel == Some(n))
  {
    assert (n in c.settled ==> n < c.attempts) && (n < c.attempts && n !in c.settled ==> c.cancel == Some(n));
    assert c.attempts !in c.settled;
    hide Concluding, TimesConcluded, Added;
    AddedConclusions(c, e, n);
  }

  /** A step concludes exactly the attempts it settles. */
  lemma AddedConclusions(c: State, e: Event, n: nat)
    requires Enabled(c, e) && c.attempts !in c.settled
    requires c.cancel.Some? ==> c.cancel.value !in c.settled && c.cancel.value < c.attempts
    ensures TimesConcluded(Added(c, e), n) == if n in Step(c, e).settled && n !in c.settled then 1 else 0
  {
    hide Count, TimesConcluded, Rejections;
    match e
    case Connects(fails) =>
      var first := if c.cancel.Some? then [Concluded(c.cancel.value, false)] else [];
      var last := if fails then [Told(Disconnected), Concluded(c.attempts, false)] else [];
      ConclusionsAdd(first + [Told(Connecting), Attempted(c.attempts)], last, n);
      ConclusionsAdd(first, [Told(Connecting), Attempted(c.attempts)], n);
      OneConclusion(if c.cancel.Some? then c.cancel.value else 0, false, Told(Connecting), n);
      OneConclusion(c.attempts, false, Told(Disconnected), n);
      ConclusionsOf([Told(Connecting), Attempted(c.attempts)], n);
      ConclusionsOf([], n);
    case Opens(m) =>
      OneConclusion(m, true, Told(Connected), n);
      ConclusionsOf([], n);
    case Closes(m) =>
      var first := if m in c.settled then [] else [Concluded(m, false)];
      var last := if c.socket == Some(m) then Rejections(c.pending) + [Told(Disconnected)] else [];
      ConclusionsAdd(first, last, n);
      OneConclusion(m, false, Told(Connecting), n);
      NoConclusion(c.pending, n);
      ConclusionsOf(last, n);
      ConclusionsOf([], n);
    case Errs(m) =>
      OneConclusion(m, false, Told(Disconnected), n);
      ConclusionsOf([], n);
    case _ => ConclusionsOf(Added(c, e), n);
  }

  lemma {:induction false} NoConclusion(pending: seq<Pending>, n: nat)
    ensures Concluded(n, true) !in Rejections(pending) && Concluded(n, false) !in Rejections(pending)
  {
    if pending != [] {
      NoConclusion(pending[1..], n);
    }
  }

  lemma OneConclusion(m: nat, ok: bool, other: Fact, n: nat)
    requires !other.Concluded?
    ensures TimesConcluded([Concluded(m, ok)], n) == if m == n then 1 else 0
    ensures TimesConcluded([other, Concluded(m, ok)], n) == if m == n then 1 else 0
    ensures TimesConcluded([Concluded(m, ok), other], n) == if m == n then 1 else 0
  {
    CountShort(Concluded(m, ok), other, Concluded(n, true));
    CountShort(Concluded(m, ok), other, Concluded(n, false));
    CountShort(other, Concluded(m, ok), Concluded(n, true));
    CountShort(other, Concluded(m, ok), Concluded(n, false));
  }

  /** How many conclusions of one attempt a short log holds. */
  lemma ConclusionsOf(log: seq<Fact>, n: nat)
    ensures TimesConcluded(log, n) == 0 <==> Concluded(n, true) !in log && Concluded(n, false) !in log
  {
    CountedIsIn(log, Concluded(n, true));
    CountedIsIn(log, Concluded(n, false));
  }

  // ---- The newest attempt -----------------------------------------------------------------

  lemma OneMoreFact(log: seq<Fact>, f: Fact)
    ensures Begun(log + [f]) == if f.Attempted? then f.attempt + 1 else Begun(log)
    ensures NewestSucceeds(log + [f]) <==>
      NewestSucceeds(log) && (f.Concluded? && f.ok ==> f.attempt + 1 == Begun(log))
  {
    assert (log + [f])[..|log|] == log;
  }

  /** Facts that neither begin an attempt nor conclude one well. */
  lemma {:induction false} MoreFacts(log: seq<Fact>, more: seq<Fact>)
    requires forall f :: f in more ==> !f.Attempted? && !(f.Concluded? && f.ok)
    ensures Begun(log + more) == Begun(log) && (NewestSucceeds(log) ==> NewestSucceeds(log + more))
  {
    if more == [] {
      assert log + more == log;
    } else {
      var front, last := more[..|more| - 1], more[|more| - 1];
      MoreFacts(log, front);
      OneMoreFact(log + front, last);
      assert log + more == (log + front) + [last] && more == front + [last];
    }
  }

  lemma {:induction false} RejectionsAreAnswers(pending: seq<Pending>)
    ensures forall f :: f in Rejections(pending) ==> f.Answered?
  {
    if pending != [] {
      RejectionsAreAnswers(pending[1..]);
    }
  }

  lemma ConnectKeepsNewest(c: State, fails: bool)
    requires Begun(c.log) == c.attempts && NewestSucceeds(c.log)
    ensures var log := c.log + Added(c, Connects(fails));
      Begun(log) == c.attempts + 1 && NewestSucceeds(log)
  {
    hide Begun, NewestSucceeds;
    var first := if c.cancel.Some? && c.cancel.value !in c.settled then [Concluded(c.cancel.value, false)] else [];
    var last := if fails then [Told(Disconnected), Concluded(c.attempts, false)] else [];
    var log1 := c.log + first;
    var log2 := log1 + [Told(Connecting)];
    var log3 := log2 + [Attempted(c.attempts)];
    MoreFacts(c.log, first);
    OneMoreFact(log1, Told(Connecting));
    OneMoreFact(log2, Attempted(c.attempts));
    MoreFacts(log3, last);
    Associative(log1, [Told(Connecting)], [Attempted(c.attempts)]);
    assert [Told(Connecting)] + [Attempted(c.attempts)] == [Told(Connecting), Attempted(c.attempts)];
    Associative(c.log, first, [Told(Connecting), Attempted(c.attempts)]);
    Associative(c.log, first + [Told(Connecting), Attempted(c.attempts)], last);
  }

  lemma OpenKeepsNewest(c: State, n: nat)
    requires Begun(c.log) == c.attempts && NewestSucceeds(c.log) && n + 1 == c.attempts
    ensures var log := c.log + [Told(Connected), Concluded(n, true)];
      Begun(log) == c.attempts && NewestSucceeds(log)
  {
    hide Begun, NewestSucceeds;
    OneMoreFact(c.log, Told(Connected));
    OneMoreFact(c.log + [Told(Connected)], Concluded(n, true));
    Associative(c.log, [Told(Connected)], [Concluded(n, true)]);
    assert [Told(Connected)] + [Concluded(n, true)] == [Told(Connected), Concluded(n, true)];
  }

  lemma OthersKeepNewest(c: State, e: Event)
    requires Enabled(c, e) && !e.Connects? && !e.Opens? && Begun(c.log) == c.attempts && NewestSucceeds(c.log)
    ensures var log := c.log + Added(c, e);
      Begun(log) == c.attempts && NewestSucceeds(log)
  {
    hide Begun, NewestSucceeds, Rejections;
    RejectionsAreAnswers(c.pending);
    MoreFacts(c.log, Added(c, e));
  }

  lemma StepKeepsNewest(c: State, e: Event)
    requires Enabled(c, e) && Concluding(c) && Current(c)
    ensures Begun(Step(c, e).log) == Step(c, e).attempts && NewestSucceeds(Step(c, e).log)
  {
    assert e.Opens? ==> (e.socket < c.attempts && e.socket !in c.settled ==> c.cancel == Some(e.socket));
    hide Begun, NewestSucceeds, Step, Concluding;
    StepAdds(c, e);
    AttemptsAdvance(c, e);
    if e.Connects? {
      ConnectKeepsNewest(c, e.fails);
    } else if e.Opens? && e.socket !in c.settled && c.socket == Some(e.socket) {
      OpenKeepsNewest(c, e.socket);
    } else if e.Opens? {
      assert c.log + [] == c.log;
    } else {
      OthersKeepNewest(c, e);
    }
  }

  lemma AttemptsAdvance(c: State, e: Event)
    requires Enabled(c, e)
    ensures Step(c, e).attempts == if e.Connects? then c.attempts + 1 else c.attempts
  {
  }

  /** What is current after a step, leaving out the log. */
  lemma StepKeepsSocket(c: State, e: Event)
    requires Enabled(c, e) && Concluding(c) && Current(c)
    ensures
      var d := Step(c, e);
      && (d.cancel.Some? ==> d.cancel.value !in d.settled && d.cancel.value + 1 == d.attempts && d.socket == d.cancel)
      && (d.socket.Some? ==> d.socket.value < d.attempts)
  {
    assert c.attempts !in c.settled;
    hide Begun, NewestSucceeds, Concluding, Rejections, Without;
  }

  lemma ConnectedIsConcluded(c: State, e: Event)
    requires Enabled(c, e)
    requires c.connection.Connected? ==> c.socket.Some? && Concluded(c.socket.value, true) in c.log
    ensures
      var d := Step(c, e);
      d.connection.Connected? ==> d.socket.Some? && Concluded(d.socket.value, true) in c.log + Added(c, e)
  {
    hide Rejections, Without;
  }

  lemma StepKeepsCurrent(c: State, e: Event)
    requires Enabled(c, e) && Concluding(c) && Current(c)
    ensures Current(Step(c, e))
  {
    hide Begun, NewestSucceeds, Concluding, Step, Added;
    StepKeepsNewest(c, e);
    StepKeepsSocket(c, e);
    ConnectedIsConcluded(c, e);
    StepAdds(c, e);
  }

  lemma {:induction false} RunKeepsInv(c: State, es: seq<Event>)
    requires Inv(c)
    ensures Inv(After(c, es))
    decreases |es|
  {
    hide Conserved, Concluding, Current, Step;
    if es != [] {
      if Enabled(c, es[0]) {
        StepConserves(c, es[0]);
        StepConcludes(c, es[0]);
        StepKeepsCurrent(c, es[0]);
      }
      RunKeepsInv(Next(c, es[0]), es[1..]);
    }
  }

  // ---- Results about every run ------------------------------------------------------------

  /** Every request is answered at most once, and as long as it is not, it waits. */
  lemma RequestsSettleOnce(es: seq<Event>, id: string)
    ensures
      var c := After(INIT, es);
      && TimesAnswered(c.log, id) <= 1
      && (Asked(id) !in c.log ==> TimesAnswered(c.log, id) == 0)
      && (Asked(id) in c.log && TimesAnswered(c.log, id) == 0 <==> Waits(c.pending, id))
  {
    InitKeepsInv();
    RunKeepsInv(INIT, es);
    var c := After(INIT, es);
    hide After, TimesAnswered;
    assert Count(c.log, Asked(id)) <= 1
        && TimesAnswered(c.log, id) + TimesPending(c.pending, id) == Count(c.log, Asked(id));
    CountedIsIn(c.log, Asked(id));
    WaitsIff(c.pending, id);
  }

  lemma InitKeepsInv()
    ensures Inv(INIT)
  {
  }

  lemma {:induction false} WaitsIff(pending: seq<Pending>, id: string)
    ensures Waits(pending, id) <==> TimesPending(pending, id) > 0
  {
    if pending != [] {
      WaitsIff(pending[1..], id);
    }
  }

  /** Every attempt to connect concludes at most once; all but the newest have concluded, and the client is connected
      only through an attempt that succeeded. */
  lemma AttemptsConcludeOnce(es: seq<Event>, n: nat)
    ensures
      var c := After(INIT, es);
      && TimesConcluded(c.log, n) <= 1
      && (n + 1 < c.attempts ==> TimesConcluded(c.log, n) == 1)
      && (c.connection.Connected? ==> c.socket.Some? && Concluded(c.socket.value, true) in c.log)
  {
    InitKeepsInv();
    RunKeepsInv(INIT, es);
    var c := After(INIT, es);
    hide After, TimesConcluded;
    assert TimesConcluded(c.log, n) == (if n in c.settled then 1 else 0);
  }

  lemma {:induction false} BegunSince(log: seq<Fact>, i: nat)
    requires NewestSucceeds(log) && i < |log| && log[i].Concluded? && log[i].ok
    ensures log[i].attempt + 1 == Begun(log[..i])
  {
    if i < |log| - 1 {
      BegunSince(log[..|log| - 1], i);
      assert log[..|log| - 1][..i] == log[..i];
    }
  }

  /** A superseded attempt never succeeds: at the time an attempt succeeds it is the newest. */
  lemma OnlyNewestSucceeds(es: seq<Event>, i: nat)
    requires i < |After(INIT, es).log|
    requires After(INIT, es).log[i].Concluded? && After(INIT, es).log[i].ok
    ensures After(INIT, es).log[i].attempt + 1 == Begun(After(INIT, es).log[..i])
  {
    InitKeepsInv();
    RunKeepsInv(INIT, es);
    BegunSince(After(INIT, es).log, i);
  }

  /** Every waiting request is carried by a socket that was made. */
  predicate Carried(c: State) {
    && (c.socket.Some? ==> c.socket.value < c.attempts)
    && forall p :: p in c.pending ==> p.socket < c.attempts
  }

  lemma {:induction false} StaysCarried(c: State, es: seq<Event>)
    requires Carried(c)
    ensures Carried(After(c, es))
    decreases |es|
  {
    if es != [] {
      StepCarries(c, es[0]);
      StaysCarried(Next(c, es[0]), es[1..]);
    }
  }

  lemma StepCarries(c: State, e: Event)
    requires Carried(c)
    ensures Carried(Next(c, e))
  {
    if e.Responds? {
      WithoutMembers(c.pending, e.id);
    }
  }

  lemma {:induction false} WithoutMembers(pending: seq<Pending>, id: string)
    ensures forall p :: p in Without(pending, id) ==> p in pending
  {
    if pending != [] {
      WithoutMembers(pending[1..], id);
    }
  }

  lemma {:induction false} MemberWaits(pending: seq<Pending>, p: Pending)
    requires p in pending
    ensures Waits(pending, p.id)
  {
    if pending[0] != p {
      MemberWaits(pending[1..], p);
    }
  }

  /** The close of the socket that carries a waiting request answers it, and reports the loss, exactly when that socket
      is still the current one; a superseded socket's close leaves the request waiting, without a socket. */
  lemma CloseAnswersIff(es: seq<Event>, p: Pending)
    requires p in After(INIT, es).pending
    ensures
      var c := After(INIT, es);
      var d := Close(c, p.socket);
      && Enabled(c, Closes(p.socket))
      && (Waits(d.pending, p.id) <==> c.socket != Some(p.socket))
      && (TimesAnswered(d.log, p.id) == 1 <==> c.socket == Some(p.socket))
      && (c.socket == Some(p.socket) ==> d.pending == [] && d.connection == Disconnected)
      && (c.socket != Some(p.socket) ==> d.pending == c.pending && d.connection == c.connection)
  {
    InitKeepsInv();
    RunKeepsInv(INIT, es);
    StaysCarried(INIT, es);
    var c := After(INIT, es);
    StepConserves(c, Closes(p.socket));
    hide After, TimesAnswered;
    var d := Close(c, p.socket);
    MemberWaits(c.pending, p);
    assert Count(c.log, Asked(p.id)) <= 1
        && TimesAnswered(c.log, p.id) + TimesPending(c.pending, p.id) == Count(c.log, Asked(p.id));
    WaitsIff(c.pending, p.id);
    WaitsIff(d.pending, p.id);
    AskedStays(c, p.socket, p.id);
    assert TimesAnswered(d.log, p.id) + TimesPending(d.pending, p.id) == Count(d.log, Asked(p.id));
  }

  /** Such a request: asked on socket 0, which a second attempt supersedes and which then closes. */
  lemma SupersededRequestWaits(id: string)
    ensures
      var c := After(INIT, [Connects(false), Opens(0), Requests(id, false), Connects(false), Closes(0)]);
      c.pending == [Pending(id, 0)] && c.socket == Some(1) && c.connection == Connecting
  {
    var e1, e2, e3, e4, e5 := Connects(false), Opens(0), Requests(id, false), Connects(false), Closes(0);
    var c1 := Next(INIT, e1);
    var c2 := Next(c1, e2);
    var c3 := Next(c2, e3);
    var c4 := Next(c3, e4);
    assert c1.socket == Some(0) && c1.settled == {} && c1.attempts == 1;
    assert c2.connection == Connected;
    assert c2.log == [Told(Connecting), Attempted(0), Told(Connected), Concluded(0, true)];
    assert c3.pending == [Pending(id, 0)];
    assert c4.socket == Some(1) && c4.pending == [Pending(id, 0)];
    AfterFive(INIT, e1, e2, e3, e4, e5);
  }

  lemma AfterFive(c: State, e1: Event, e2: Event, e3: Event, e4: Event, e5: Event)
    ensures After(c, [e1, e2, e3, e4, e5]) == Next(Next(Next(Next(Next(c, e1), e2), e3), e4), e5)
  {
    hide Next, After;
    var c1 := Next(c, e1);
    var c2 := Next(c1, e2);
    var c3 := Next(c2, e3);
    var c4 := Next(c3, e4);
    assert [e1, e2, e3, e4, e5] == [e1] + [e2, e3, e4, e5] && [e2, e3, e4, e5] == [e2] + [e3, e4, e5];
    assert [e3, e4, e5] == [e3] + [e4, e5] && [e4, e5] == [e4] + [e5] && [e5] == [e5] + [];
    AfterFirst(c, e1, [e2, e3, e4, e5]);
    AfterFirst(c1, e2, [e3, e4, e5]);
    AfterFirst(c2, e3, [e4, e5]);
    AfterFirst(c3, e4, [e5]);
    AfterFirst(c4, e5, []);
  }

  lemma AfterFirst(c: State, e: Event, es: seq<Event>)
    ensures After(c, [e] + es) == After(Next(c, e), es) && After(c, []) == c
    ensures es == [] ==> After(c, [e] + es) == Next(c, e)
  {
    assert ([e] + es)[1..] == es;
  }

  lemma AskedStays(c: State, n: nat, id: string)
    requires n < c.attempts
    ensures Count(Close(c, n).log, Asked(id)) == Count(c.log, Asked(id))
  {
    hide Count, TimesAnswered, Added;
    StepAdds(c, Closes(n));
    Counts(c.log, Added(c, Closes(n)), Asked(id));
    AddedBalances(c, Closes(n), id);
  }

  // ---- What decides an attempt ------------------------------------------------------------

  function Attempts(es: seq<Event>): nat {
    if es == [] then 0 else Attempts(es[..|es| - 1]) + if es[|es| - 1].Connects? then 1 else 0
  }

  /** The events that conclude attempt `n` when it is still open. */
  predicate Decides(e: Event, n: nat) {
    e.Connects? || e == Opens(n) || e == Closes(n) || e == Errs(n)
  }

  predicate Undecided(es: seq<Event>, n: nat) {
    forall j :: 0 <= j < |es| ==> !Decides(es[j], n)
  }

  /** The first event to decide attempt `n` is its socket's opening. */
  predicate Won(es: seq<Event>, n: nat) {
    exists k :: 0 <= k < |es| && es[k] == Opens(n) && Undecided(es[..k], n)
  }

  lemma {:induction false} AfterOneMore(c: State, es: seq<Event>, e: Event)
    ensures After(c, es + [e]) == Next(After(c, es), e)
    decreases |es|
  {
    hide Next;
    if es == [] {
      AfterFirst(c, e, []);
      assert es + [e] == [e] + [];
    } else {
      AfterOneMore(Next(c, es[0]), es[1..], e);
      assert es + [e] == [es[0]] + (es[1..] + [e]);
      AfterFirst(c, es[0], es[1..] + [e]);
    }
  }

  lemma HistoryOneMore(since: seq<Event>, e: Event, n: nat)
    ensures Undecided(since + [e], n) <==> Undecided(since, n) && !Decides(e, n)
    ensures Won(since + [e], n) <==> Won(since, n) || (Undecided(since, n) && e == Opens(n))
    ensures Won(since, n) ==> !Undecided(since, n)
    ensures Attempts(since + [e]) == Attempts(since) + if e.Connects? then 1 else 0
  {
    var more := since + [e];
    assert more[..|since|] == since && more[|since|] == e;
    assert forall k :: 0 <= k < |since| ==> more[..k] == since[..k] && more[k] == since[k];
    UndecidedOneMore(since, e, n);
    hide Undecided;
    if Won(since, n) {
      var k :| 0 <= k < |since| && since[k] == Opens(n) && Undecided(since[..k], n);
      assert more[k] == Opens(n) && Undecided(more[..k], n);
      WonIsDecided(since, n);
    }
    if Undecided(since, n) && e == Opens(n) {
      assert more[|since|] == Opens(n) && Undecided(more[..|since|], n);
    }
  }

  lemma WonIsDecided(since: seq<Event>, n: nat)
    requires Won(since, n)
    ensures !Undecided(since, n)
  {
    var k :| 0 <= k < |since| && since[k] == Opens(n) && Undecided(since[..k], n);
    assert Decides(since[k], n);
  }

  lemma UndecidedOneMore(since: seq<Event>, e: Event, n: nat)
    ensures Undecided(since + [e], n) <==> Undecided(since, n) && !Decides(e, n)
  {
    var more := since + [e];
    if Undecided(more, n) {
      assert !Decides(more[|since|], n);
      assert forall j :: 0 <= j < |since| ==> since[j] == more[j];
    }
  }

  lemma {:induction false} AttemptsAreCounted(es: seq<Event>)
    ensures After(INIT, es).attempts == Attempts(es) && Inv(After(INIT, es))
  {
    hide Inv, Next, After;
    InitKeepsInv();
    RunKeepsInv(INIT, es);
    if es == [] {
      AfterFirst(INIT, Connects(true), []);
    } else {
      var front, e := es[..|es| - 1], es[|es| - 1];
      AttemptsAreCounted(front);
      AfterOneMore(INIT, front, e);
      assert es == front + [e];
      NextAdvances(After(INIT, front), e);
    }
  }

  lemma NextAdvances(c: State, e: Event)
    ensures Next(c, e).attempts == c.attempts + if e.Connects? then 1 else 0
  {
    if Enabled(c, e) {
      AttemptsAdvance(c, e);
    }
  }

  /** Which attempts a step settles, and which of them well. */
  lemma NextSettles(c: State, e: Event, n: nat)
    requires Inv(c) && n < c.attempts
    ensures n in Next(c, e).settled <==> n in c.settled || Decides(e, n)
    ensures Concluded(n, true) in Next(c, e).log <==> Concluded(n, true) in c.log || (e == Opens(n) && n !in c.settled)
  {
    assert n !in c.settled ==> c.cancel == Some(n);
    assert Current(c);
    hide Inv, Step;
    if Enabled(c, e) {
      StepAdds(c, e);
      StepSettlesIff(c, e, n);
      AddsSuccessIff(c, e, n);
    }
  }

  lemma StepSettlesIff(c: State, e: Event, n: nat)
    requires Enabled(c, e) && Current(c) && n < c.attempts && (n !in c.settled ==> c.cancel == Some(n))
    ensures n in Step(c, e).settled <==> n in c.settled || Decides(e, n)
  {
    hide Begun, NewestSucceeds, Rejections, Without;
  }

  lemma AddsSuccessIff(c: State, e: Event, n: nat)
    requires Enabled(c, e) && Current(c) && n < c.attempts && (n !in c.settled ==> c.cancel == Some(n))
    ensures Concluded(n, true) in Added(c, e) <==> e == Opens(n) && n !in c.settled
  {
    hide Begun, NewestSucceeds, Rejections, Without;
    RejectionsAreAnswers(c.pending);
  }

  /** Attempt `n` as far as events `since` its beginning determine it. */
  predicate Decided(c: State, n: nat, fails: bool, since: seq<Event>) {
    && n < c.attempts
    && (n in c.settled <==> fails || !Undecided(since, n))
    && (Concluded(n, true) in c.log <==> !fails && Won(since, n))
  }

  lemma NextDecides(c: State, n: nat, fails: bool, since: seq<Event>, e: Event)
    requires Inv(c) && Decided(c, n, fails, since)
    ensures Decided(Next(c, e), n, fails, since + [e])
  {
    hide Undecided, Won, Attempts, Next, Inv;
    NextSettles(c, e, n);
    NextAdvances(c, e);
    HistoryOneMore(since, e, n);
  }

  lemma ConnectDecides(c: State, fails: bool)
    requires Inv(c)
    ensures Decided(Connect(c, fails), c.attempts, fails, [])
  {
    var n := c.attempts;
    assert n !in c.settled && TimesConcluded(c.log, n) == 0;
    ConclusionsOf(c.log, n);
    hide Conserved, Concluding, Current, TimesConcluded;
    ConnectAdds(c, fails);
  }

  lemma {:induction false} RunDecides(es: seq<Event>, i: nat)
    requires i < |es| && es[i].Connects?
    ensures Decided(After(INIT, es), Attempts(es[..i]), es[i].fails, es[i + 1..])
    decreases |es|
  {
    hide Inv, Decided, After, Attempts, Connect;
    var front, e := es[..|es| - 1], es[|es| - 1];
    AttemptsAreCounted(front);
    AfterOneMore(INIT, front, e);
    assert es == front + [e];
    if i == |front| {
      ConnectDecides(After(INIT, front), e.fails);
      assert es[..i] == front && es[i + 1..] == [];
    } else {
      RunDecides(front, i);
      assert front[..i] == es[..i] && front[i + 1..] + [e] == es[i + 1..];
      NextDecides(After(INIT, front), Attempts(es[..i]), es[i].fails, front[i + 1..], e);
    }
  }

  /** How an attempt to connect ends. It waits as long as its socket was made and nothing has decided it: no other attempt,
      and no opening, close or error of its own socket. It succeeds if and only if the first of these is the opening;
      otherwise it fails. */
  lemma AttemptOutcomeIff(es: seq<Event>, i: nat)
    requires i < |es| && es[i].Connects?
    ensures
      var n, since, log := Attempts(es[..i]), es[i + 1..], After(INIT, es).log;
      && (Concluded(n, true) in log <==> !es[i].fails && Won(since, n))
      && (Concluded(n, false) in log <==> es[i].fails || (!Undecided(since, n) && !Won(since, n)))
  {
    hide Won, Undecided, After, Count, Conserved, Current, Attempts;
    var n, log := Attempts(es[..i]), After(INIT, es).log;
    RunDecides(es, i);
    AttemptsAreCounted(es);
    if Won(es[i + 1..], n) { WonIsDecided(es[i + 1..], n); }
    assert TimesConcluded(log, n) == (if n in After(INIT, es).settled then 1 else 0);
    CountedIsIn(log, Concluded(n, true));
    CountedIsIn(log, Concluded(n, false));
  }

  // ---- What decides the connection --------------------------------------------------------

  /** The state while attempt `n` is the newest. */
  predicate NewestIs(c: State, n: nat, fails: bool, since: seq<Event>) {
    && c.attempts == n + 1
    && Decided(c, n, fails, since)
    && (!fails ==> c.socket == if Closes(n) in since then None else Some(n))
    && (c.connection.Connecting? <==> !fails && Undecided(since, n))
    && (c.connection.Connected? <==> !fails && Won(since, n) && Closes(n) !in since)
  }

  lemma NextKeepsNewest(c: State, n: nat, fails: bool, since: seq<Event>, e: Event)
    requires Inv(c) && NewestIs(c, n, fails, since) && !e.Connects?
    ensures NewestIs(Next(c, e), n, fails, since + [e])
  {
    hide Inv, Undecided, Won, Attempts, Next;
    NextDecides(c, n, fails, since, e);
    HistoryOneMore(since, e, n);
    NextAdvances(c, e);
    NextConnects(c, e, n);
    CloseDecides(since, n);
  }

  lemma CloseDecides(since: seq<Event>, n: nat)
    ensures Closes(n) in since ==> !Undecided(since, n)
  {
    if Closes(n) in since {
      var k :| 0 <= k < |since| && since[k] == Closes(n);
      assert Decides(since[k], n);
    }
  }

  /** What a step that begins no attempt makes of the socket and the connection. */
  lemma NextConnects(c: State, e: Event, n: nat)
    requires Inv(c) && c.attempts == n + 1 && !e.Connects?
    requires c.connection.Connecting? <==> n !in c.settled
    requires c.connection.Connected? ==> c.socket == Some(n)
    ensures
      var d := Next(c, e);
      && d.socket == (if c.socket.Some? && e == Closes(c.socket.value) then None else c.socket)
      && (d.connection.Connecting? <==> n !in d.settled)
      && (d.connection.Connected? <==> (c.connection.Connected? && e != Closes(n)) || (e == Opens(n) && n !in c.settled))
  {
    assert forall m: nat :: m < c.attempts && m !in c.settled ==> c.cancel == Some(m);
    hide Conserved, Concluding, Begun, NewestSucceeds, Rejections, Without, Waits;
  }

  lemma ConnectIsNewest(c: State, fails: bool)
    requires Inv(c)
    ensures NewestIs(Connect(c, fails), c.attempts, fails, [])
  {
    ConnectDecides(c, fails);
    hide Inv, Decided;
  }

  lemma {:induction false} RunHasNewest(es: seq<Event>, i: nat)
    requires i < |es| && es[i].Connects? && forall j :: i < j < |es| ==> !es[j].Connects?
    ensures NewestIs(After(INIT, es), Attempts(es[..i]), es[i].fails, es[i + 1..])
    decreases |es|
  {
    hide Inv, NewestIs, After, Attempts, Connect;
    var front, e := es[..|es| - 1], es[|es| - 1];
    AttemptsAreCounted(front);
    AfterOneMore(INIT, front, e);
    assert es == front + [e];
    if i == |front| {
      ConnectIsNewest(After(INIT, front), e.fails);
      assert es[..i] == front && es[i + 1..] == [];
    } else {
      RunHasNewest(front, i);
      assert front[..i] == es[..i] && front[i + 1..] + [e] == es[i + 1..];
      NextKeepsNewest(After(INIT, front), Attempts(es[..i]), es[i].fails, front[i + 1..], e);
    }
  }

  /** What the newest attempt has made of the client: connecting until something decides it, connected from its success
      until its socket closes, and otherwise disconnected. Its socket stays the current one until it closes. */
  lemma ConnectionIff(es: seq<Event>, i: nat)
    requires i < |es| && es[i].Connects? && forall j :: i < j < |es| ==> !es[j].Connects?
    ensures
      var n, since, c := Attempts(es[..i]), es[i + 1..], After(INIT, es);
      && (!es[i].fails ==> c.socket == if Closes(n) in since then None else Some(n))
      && (c.connection == Connecting <==> !es[i].fails && Undecided(since, n))
      && (c.connection == Connected <==> !es[i].fails && Won(since, n) && Closes(n) !in since)
  {
    hide After, Undecided, Won, Attempts;
    RunHasNewest(es, i);
  }

  /** A client that has never been asked to connect has no socket and is disconnected. */
  lemma {:induction false} NeverConnected(es: seq<Event>)
    requires forall j :: 0 <= j < |es| ==> !es[j].Connects?
    ensures var c := After(INIT, es); c.socket == None && c.connection == Disconnected && c.attempts == 0
  {
    hide After;
    if es == [] {
      AfterFirst(INIT, Connects(true), []);
    } else {
      var front, e := es[..|es| - 1], es[|es| - 1];
      NeverConnected(front);
      AfterOneMore(INIT, front, e);
      assert es == front + [e];
    }
  }

  lemma NextSocket(c: State, e: Event)
    requires Inv(c) && e != Connects(false)
    ensures Next(c, e).socket == if c.socket.Some? && e == Closes(c.socket.value) then None else c.socket
  {
    hide Conserved, Concluding, Begun, NewestSucceeds, Rejections, Without, Waits;
  }

  /** A socket is the current one from its making to its close or the making of the next; an attempt without a socket
      leaves it current, though the client then counts as disconnected. */
  lemma {:induction false} SocketIff(es: seq<Event>, i: nat)
    requires i < |es| && es[i] == Connects(false) && Connects(false) !in es[i + 1..]
    ensures After(INIT, es).socket == if Closes(Attempts(es[..i])) in es[i + 1..] then None else Some(Attempts(es[..i]))
    decreases |es|
  {
    hide Inv, After, Attempts, Next;
    var front, e := es[..|es| - 1], es[|es| - 1];
    AttemptsAreCounted(front);
    AfterOneMore(INIT, front, e);
    assert es == front + [e];
    if i == |front| {
      ConnectTakesSocket(After(INIT, front));
      assert es[..i] == front && es[i + 1..] == [];
    } else {
      assert front[..i] == es[..i] && front[i + 1..] + [e] == es[i + 1..];
      SocketIff(front, i);
      NextSocket(After(INIT, front), e);
    }
  }

  lemma ConnectTakesSocket(c: State)
    ensures Next(c, Connects(false)).socket == Some(c.attempts)
  {
  }

  // ---- What decides a request -------------------------------------------------------------

  /** A new request waits on the current socket if and only if the client is connected and sending works; otherwise it is
      refused at once. Nobody else's request is touched. */
  lemma RequestWaitsIff(es: seq<Event>, id: string, fails: bool)
    requires Asked(id) !in After(INIT, es).log
    ensures
      var c := After(INIT, es);
      var d := Next(c, Requests(id, fails));
      && (Waits(d.pending, id) <==> c.connection == Connected && !fails)
      && (Answered(id, false) in d.log <==> !(c.connection == Connected && !fails))
      && Answered(id, true) !in d.log
      && (forall other :: other != id ==> (Waits(d.pending, other) <==> Waits(c.pending, other)))
      && (forall p :: p in d.pending && p !in c.pending ==> c.socket == Some(p.socket))
  {
    hide After, Conserved;
    var c := After(INIT, es);
    AttemptsAreCounted(es);
    RequestsSettleOnce(es, id);
    CountedIsIn(c.log, Answered(id, true));
    CountedIsIn(c.log, Answered(id, false));
    assert !Waits(c.pending, id) && Answered(id, true) !in c.log && Answered(id, false) !in c.log;
    hide TimesAnswered, Count, Concluding, Begun, NewestSucceeds;
    if c.socket.Some? {
      WaitsAppend(c.pending, Pending(id, c.socket.value));
    }
  }

  lemma {:induction false} WaitsAppend(pending: seq<Pending>, p: Pending)
    ensures forall id :: Waits(pending + [p], id) <==> Waits(pending, id) || p.id == id
  {
    if pending != [] {
      WaitsAppend(pending[1..], p);
      assert (pending + [p])[1..] == pending[1..] + [p];
    }
  }

  lemma {:induction false} WithoutWaits(pending: seq<Pending>, id: string)
    ensures forall other :: other != id ==> (Waits(Without(pending, id), other) <==> Waits(pending, other))
  {
    if pending != [] {
      WithoutWaits(pending[1..], id);
    }
  }

  lemma {:induction false} RejectionsIff(pending: seq<Pending>, id: string)
    ensures Answered(id, false) in Rejections(pending) <==> Waits(pending, id)
    ensures Answered(id, true) !in Rejections(pending)
  {
    if pending != [] {
      RejectionsIff(pending[1..], id);
    }
  }

  /** The requests that fail together fail in the order they were made. */
  lemma {:induction false} RejectedInOrder(pending: seq<Pending>)
    ensures |Rejections(pending)| == |pending|
    ensures forall k :: 0 <= k < |pending| ==> Rejections(pending)[k] == Answered(pending[k].id, false)
  {
    if pending != [] {
      RejectedInOrder(pending[1..]);
    }
  }

  /** When and how a waiting request is answered: with what a response to it says, from whichever socket, or as failed
      when the current socket closes. Anything else leaves it waiting. */
  lemma AnsweredIff(es: seq<Event>, e: Event, id: string, ok: bool)
    requires Waits(After(INIT, es).pending, id)
    ensures
      var c := After(INIT, es);
      var d := Next(c, e);
      var answers := e.Responds? && e.id == id && e.socket < c.attempts;
      var loses := e.Closes? && c.socket == Some(e.socket);
      && (Answered(id, ok) in d.log <==> (answers && e.ok == ok) || (loses && !ok))
      && (Waits(d.pending, id) <==> !answers && !loses)
  {
    hide After;
    var c := After(INIT, es);
    RequestsSettleOnce(es, id);
    AttemptsAreCounted(es);
    CountedIsIn(c.log, Answered(id, true));
    CountedIsIn(c.log, Answered(id, false));
    assert Answered(id, true) !in c.log && Answered(id, false) !in c.log;
    NextAnswers(c, e, id, ok);
  }

  lemma NextAnswers(c: State, e: Event, id: string, ok: bool)
    requires Inv(c) && Waits(c.pending, id) && Answered(id, true) !in c.log && Answered(id, false) !in c.log
    ensures
      var d := Next(c, e);
      var answers := e.Responds? && e.id == id && e.socket < c.attempts;
      var loses := e.Closes? && c.socket == Some(e.socket);
      && (Answered(id, ok) in d.log <==> (answers && e.ok == ok) || (loses && !ok))
      && (Waits(d.pending, id) <==> !answers && !loses)
  {
    assert Asked(id) in c.log by {
      assert TimesAnswered(c.log, id) + TimesPending(c.pending, id) == Count(c.log, Asked(id));
      WaitsIff(c.pending, id);
      CountedIsIn(c.log, Asked(id));
    }
    assert TimesPending(c.pending, id) <= 1 by {
      assert Count(c.log, Asked(id)) <= 1;
      assert TimesAnswered(c.log, id) + TimesPending(c.pending, id) == Count(c.log, Asked(id));
    }
    hide Inv, Step;
    if Enabled(c, e) {
      StepAdds(c, e);
      AddsAnswerIff(c, e, id, ok);
      StepSettlesRequest(c, e, id);
    }
  }

  lemma AddsAnswerIff(c: State, e: Event, id: string, ok: bool)
    requires Enabled(c, e) && Waits(c.pending, id) && Asked(id) in c.log
    ensures Answered(id, ok) in Added(c, e) <==>
      (e.Responds? && e.id == id && e.ok == ok) || (e.Closes? && c.socket == Some(e.socket) && !ok)
  {
    hide Rejections, Without, Waits;
    RejectionsIff(c.pending, id);
  }

  lemma StepSettlesRequest(c: State, e: Event, id: string)
    requires Enabled(c, e) && Waits(c.pending, id) && TimesPending(c.pending, id) <= 1
    ensures Waits(Step(c, e).pending, id) <==>
      !(e.Responds? && e.id == id) && !(e.Closes? && c.socket == Some(e.socket))
  {
    hide Without;
    if e.Responds? && Waits(c.pending, e.id) {
      WithoutWaits(c.pending, e.id);
      WithoutOne(c.pending, e.id, id);
      WaitsIff(Without(c.pending, e.id), id);
    }
    if e.Requests? && c.socket.Some? {
      WaitsAppend(c.pending, Pending(e.id, c.socket.value));
    }
  }

  // ---- What the listeners are told --------------------------------------------------------

  /** The connection the listeners know of. */
  function ToldLast(log: seq<Fact>): Connection {
    if log == [] then Disconnected
    else
      var last := log[|log| - 1];
      if last.Told? then last.connection else ToldLast(log[..|log| - 1])
  }

  lemma {:induction false} ToldLastAppend(log: seq<Fact>, more: seq<Fact>)
    ensures (forall f :: f in more ==> !f.Told?) ==> ToldLast(log + more) == ToldLast(log)
  {
    if more == [] {
      assert log + more == log;
    } else {
      ToldLastAppend(log, more[..|more| - 1]);
      assert (log + more)[..|log + more| - 1] == log + more[..|more| - 1];
    }
  }

  lemma ToldNow(log: seq<Fact>, connection: Connection)
    ensures ToldLast(log + [Told(connection)]) == connection
  {
  }

  function Notifications(es: seq<Event>): nat {
    if es == [] then 0
    else
      var front, e := es[..|es| - 1], es[|es| - 1];
      Notifications(front) + if e.Notifies? && e.socket < Attempts(front) then 1 else 0
  }

  lemma NextTells(c: State, e: Event)
    requires Inv(c) && ToldLast(c.log) == c.connection
    ensures ToldLast(Next(c, e).log) == Next(c, e).connection
    ensures Count(Next(c, e).log, Dispatched)
         == Count(c.log, Dispatched) + if e.Notifies? && e.socket < c.attempts then 1 else 0
  {
    hide Inv, Count, ToldLast, Rejections, Without, Step;
    if Enabled(c, e) {
      RejectionsAreAnswers(c.pending);
      StepAdds(c, e);
      var added := Added(c, e);
      Counts(c.log, added, Dispatched);
      CountedIsIn(added, Dispatched);
      CountShort(Dispatched, Dispatched, Dispatched);
      ToldLastAppend(c.log, added);
      AddedTells(c, e);
    }
  }

  lemma {:induction false} ToldAt(log: seq<Fact>, k: nat)
    requires k < |log| && log[k].Told? && forall j :: k < j < |log| ==> !log[j].Told?
    ensures ToldLast(log) == log[k].connection
  {
    if k < |log| - 1 {
      ToldAt(log[..|log| - 1], k);
    }
  }

  lemma AddedTells(c: State, e: Event)
    requires Enabled(c, e) && ToldLast(c.log) == c.connection
    ensures ToldLast(c.log + Added(c, e)) == Step(c, e).connection
  {
    hide ToldLast, Rejections, Without, Waits;
    var log := c.log + Added(c, e);
    RejectionsAreAnswers(c.pending);
    ToldLastAppend(c.log, Added(c, e));
    match e
    case Connects(fails) => ToldAt(log, |log| - 2);
    case Opens(n) => if n !in c.settled && c.socket == Some(n) { ToldAt(log, |log| - 2); }
    case Closes(n) => if c.socket == Some(n) { ToldAt(log, |log| - 1); }
    case Errs(n) => if n !in c.settled && c.socket == Some(n) { ToldAt(log, |log| - 1); }
    case _ =>
  }

  lemma NothingTold()
    ensures ToldLast([]) == Disconnected
  {
  }

  /** The listeners always know the connection, and get every event exactly once, from whichever socket it comes. */
  lemma {:induction false} ListenersKnow(es: seq<Event>)
    ensures
      var c := After(INIT, es);
      ToldLast(c.log) == c.connection && Count(c.log, Dispatched) == Notifications(es)
  {
    hide After, Next, Count, ToldLast, Inv;
    if es == [] {
      AfterFirst(INIT, Connects(true), []);
      CountShort(Dispatched, Dispatched, Dispatched);
      NothingTold();
    } else {
      var front, e := es[..|es| - 1], es[|es| - 1];
      ListenersKnow(front);
      AttemptsAreCounted(front);
      AfterOneMore(INIT, front, e);
      assert es == front + [e];
      NextTells(After(INIT, front), e);
    }
  }

  // ---- The client itself ------------------------------------------------------------------

  class Client {
    var socket: Option<nat>
    var connection: Connection
    var cancelConnect: Option<nat>
    var settled: set<nat>
    var attempts: nat
    var pending: seq<Pending>
    ghost var log: seq<Fact>

    ghost function Snapshot(): State
      reads this
    {
      State(socket, connection, cancelConnect, settled, attempts, pending, log)
    }

    constructor ()
      ensures Snapshot() == INIT
    {
      socket, connection, cancelConnect, settled, attempts, pending, log := None, Disconnected, None, {}, 0, [], [];
    }

    method SetState(next: Connection)
      modifies this`connection, this`log
      ensures Snapshot() == Tell(old(Snapshot()), next)
    {
      connection := next;
      log := log + [Told(next)];
    }

    method Cancel(n: nat)
      modifies this`settled, this`cancelConnect, this`log
      ensures Snapshot() == CancelAttempt(old(Snapshot()), n)
    {
      if n in settled { return; }
      settled := settled + {n};
      if cancelConnect == Some(n) { cancelConnect := None; }
      log := log + [Concluded(n, false)];
    }

    method BeginConnect(fails: bool)
      modifies this
      ensures Snapshot() == Connect(old(Snapshot()), fails)
    {
      if cancelConnect.Some? { Cancel(cancelConnect.value); }
      SetState(Connecting);
      var n := attempts;
      attempts := n + 1;
      log := log + [Attempted(n)];
      if fails {
        SetState(Disconnected);
        settled := settled + {n};
        log := log + [Concluded(n, false)];
        return;
      }
      cancelConnect := Some(n);
      socket := Some(n);
    }

    method OnOpen(n: nat)
      modifies this
      ensures Snapshot() == Open(old(Snapshot()), n)
    {
      if n in settled || socket != Some(n) { return; }
      settled := settled + {n};
      if cancelConnect == Some(n) { cancelConnect := None; }
      SetState(Connected);
      log := log + [Concluded(n, true)];
    }

    method RejectPending()
      modifies this`pending, this`log
      ensures pending == [] && log == old(log) + Rejections(old(pending))
    {
      var rest := pending;
      ghost var whole := log + Rejections(rest);
      while rest != []
        invariant log + Rejections(rest) == whole
        decreases |rest|
      {
        Associative(log, [Answered(rest[0].id, false)], Rejections(rest[1..]));
        log := log + [Answered(rest[0].id, false)];
        rest := rest[1..];
      }
      assert Rejections([]) == [] && log + [] == log;
      pending := [];
    }

    method OnClose(n: nat)
      modifies this
      ensures Snapshot() == Close(old(Snapshot()), n)
    {
      Cancel(n);
      if socket != Some(n) { return; }
      socket := None;
      RejectPending();
      SetState(Disconnected);
    }

    method OnError(n: nat)
      modifies this
      ensures Snapshot() == Fail(old(Snapshot()), n)
    {
      if n !in settled && socket == Some(n) {
        Cancel(n);
        SetState(Disconnected);
      }
    }

    method OnResponse(id: string, ok: bool)
      modifies this`pending, this`log
      ensures Snapshot() == Respond(old(Snapshot()), id, ok)
    {
      if !Waits(pending, id) { return; }
      pending := Without(pending, id);
      log := log + [Answered(id, ok)];
    }

    method SendRequest(id: string, fails: bool)
      modifies this`pending, this`log
      ensures Snapshot() == Request(old(Snapshot()), id, fails)
    {
      log := log + [Asked(id)];
      if socket.None? || connection != Connected || fails {
        log := log + [Answered(id, false)];
        return;
      }
      pending := pending + [Pending(id, socket.value)];
    }
  }
}
