/** Replayed events in the phone's reducer (apps/mobile/src/state/sessionReducer.ts): each session's terminal output is
    sorted by number, in the slots it came in, before the events are folded into the state. */
module Reducer {
  import opened Options
  import opened Sequences
  import opened TerminalBuffer
  import Registry

  /** A message of the event envelope. `Output` is `terminal.output` with a session and a number; its data is absent
      when it is not text. `Other` is every message that does not touch terminal text. */
  datatype Event =
    | Output(session: string, no: int, data: Option<string>)
    | Removed(session: string)
    | Other(tag: int)

  /** The text buffers of the state, by session. */
  type Terminals = map<string, Buffer>

  function BufferOf(t: Terminals, session: string): Buffer {
    if session in t then t[session] else EMPTY
  }

  function Receive(t: Terminals, e: Event): Terminals {
    match e
    case Output(session, no, Some(data)) =>
      var current := BufferOf(t, session);
      var next := Append(current, Chunk(no, data));
      if next == current then t else t[session := next]
    case Removed(session) => t - {session}
    case _ => t
  }

  function ReceiveAll(t: Terminals, es: seq<Event>): Terminals {
    if es == [] then t else Receive(ReceiveAll(t, es[..|es| - 1]), es[|es| - 1])
  }

  predicate OutputOf(e: Event, session: string) {
    e.Output? && e.session == session
  }

  /** The output events of one session, in order. */
  function OutputsOf(es: seq<Event>, session: string): seq<Event> {
    if es == [] then []
    else
      OutputsOf(es[..|es| - 1], session) +
      (if OutputOf(es[|es| - 1], session) then [es[|es| - 1]] else [])
  }

  function No(e: Event): int {
    if e.Output? then e.no else 0
  }

  function Sorted(es: seq<Event>, session: string): seq<Event> {
    StableSort(No, OutputsOf(es, session))
  }

  /** `r` has the kinds and sessions of `es`, slot by slot; whatever is not output is unchanged. */
  predicate SameSlots(es: seq<Event>, r: seq<Event>) {
    && |r| == |es|
    && forall i :: 0 <= i < |es| ==>
         if es[i].Output? then OutputOf(r[i], es[i].session) else r[i] == es[i]
  }

  /** What ordering means: the slots stay, and each session's output is stably sorted by number. */
  ghost predicate IsOrdering(es: seq<Event>, r: seq<Event>) {
    && SameSlots(es, r)
    && forall session :: OutputsOf(r, session) == Sorted(es, session)
  }

  lemma OneMore(es: seq<Event>, e: Event, session: string)
    ensures OutputsOf(es + [e], session) == OutputsOf(es, session) + (if OutputOf(e, session) then [e] else [])
  {
    assert (es + [e])[..|es|] == es;
  }

  // ---- The ordering is determined ---------------------------------------------------------

  lemma {:induction false} SlotsCount(es: seq<Event>, r: seq<Event>, session: string)
    requires SameSlots(es, r)
    ensures |OutputsOf(r, session)| == |OutputsOf(es, session)|
  {
    if es != [] {
      var k := |es| - 1;
      assert SameSlots(es[..k], r[..k]);
      SlotsCount(es[..k], r[..k], session);
    }
  }

  /** Two sequences with the same slots and the same output of each session are the same. */
  lemma {:induction false} OrderingIsUnique(es: seq<Event>, r: seq<Event>, q: seq<Event>)
    requires SameSlots(es, r) && SameSlots(es, q)
    requires forall session :: OutputsOf(r, session) == OutputsOf(q, session)
    ensures r == q
    decreases |es|
  {
    if es != [] {
      var k := |es| - 1;
      forall session
        ensures OutputsOf(r[..k], session) == OutputsOf(q[..k], session)
        ensures OutputOf(es[k], session) ==> r[k] == q[k]
      {
        LastSlot(es, r, session);
        LastSlot(es, q, session);
      }
      assert es[k].Output? ==> OutputOf(es[k], es[k].session);
      OrderingIsUnique(es[..k], r[..k], q[..k]);
      assert r == r[..k] + [r[k]] && q == q[..k] + [q[k]];
    }
  }

  lemma LastSlot(es: seq<Event>, r: seq<Event>, session: string)
    requires SameSlots(es, r) && es != []
    ensures
      var k := |es| - 1;
      var all := OutputsOf(r, session);
      && SameSlots(es[..k], r[..k])
      && (if OutputOf(es[k], session)
          then |all| > 0 && OutputsOf(r[..k], session) == all[..|all| - 1] && r[k] == all[|all| - 1]
          else OutputsOf(r[..k], session) == all)
  {
    var k := |es| - 1;
    OneMore(r[..k], r[k], session);
    assert r == r[..k] + [r[k]];
  }

  /** How often `x` occurs is told by its session's output, and by the slots when it is no output. */
  lemma {:induction false} Occurrences(es: seq<Event>, session: string, x: Event)
    requires OutputOf(x, session)
    ensures multiset(es)[x] == multiset(OutputsOf(es, session))[x]
  {
    if es != [] {
      Occurrences(es[..|es| - 1], session, x);
      assert es == es[..|es| - 1] + [es[|es| - 1]];
    }
  }

  lemma {:induction false} OtherOccurrences(es: seq<Event>, r: seq<Event>, x: Event)
    requires SameSlots(es, r) && !x.Output?
    ensures multiset(es)[x] == multiset(r)[x]
  {
    if es != [] {
      var k := |es| - 1;
      OtherOccurrences(es[..k], r[..k], x);
      assert es == es[..k] + [es[k]] && r == r[..k] + [r[k]];
    }
  }

  /** An ordering is a permutation. */
  lemma OrderingPermutes(es: seq<Event>, r: seq<Event>)
    requires IsOrdering(es, r)
    ensures multiset(r) == multiset(es)
  {
    forall x: Event ensures multiset(r)[x] == multiset(es)[x] {
      if x.Output? {
        Occurrences(es, x.session, x);
        Occurrences(r, x.session, x);
        StableSortIsStableSort(No, OutputsOf(es, x.session), 0);
      } else {
        OtherOccurrences(es, r, x);
      }
    }
  }

  // ---- Folding the ordered events ---------------------------------------------------------

  /** The chunks that output events carry. */
  function Chunks(outputs: seq<Event>): seq<Chunk> {
    if outputs == [] then []
    else
      (if outputs[0].Output? && outputs[0].data.Some? then [Chunk(outputs[0].no, outputs[0].data.value)] else []) +
      Chunks(outputs[1..])
  }

  lemma {:induction false} ChunksAppend(a: seq<Event>, b: seq<Event>)
    ensures Chunks(a + b) == Chunks(a) + Chunks(b)
  {
    if a == [] {
      assert a + b == b;
    } else {
      assert (a + b)[1..] == a[1..] + b;
      ChunksAppend(a[1..], b);
    }
  }

  predicate AllOutput(es: seq<Event>) {
    forall e :: e in es ==> e.Output?
  }

  /** A session's buffer sees only that session's output, as chunks. */
  lemma {:induction false} BufferSeesItsChunks(t: Terminals, es: seq<Event>, session: string)
    requires Removed(session) !in es
    ensures BufferOf(ReceiveAll(t, es), session) == AppendAll(BufferOf(t, session), Chunks(OutputsOf(es, session)))
  {
    if es != [] {
      var front, last := es[..|es| - 1], es[|es| - 1];
      BufferSeesItsChunks(t, front, session);
      var b := BufferOf(ReceiveAll(t, front), session);
      if OutputOf(last, session) {
        ChunksAppend(OutputsOf(front, session), [last]);
        ChunksOfOne(last);
        AppendAllConcat(BufferOf(t, session), Chunks(OutputsOf(front, session)), Chunks([last]));
        ReceiveOwn(ReceiveAll(t, front), last);
      } else {
        ReceiveForeign(ReceiveAll(t, front), last, session);
        assert OutputsOf(es, session) == OutputsOf(front, session);
      }
    }
  }

  /** When a session has been removed its buffer is gone, and what comes after starts a new one. */
  lemma RemovalStartsAfresh(t: Terminals, before: seq<Event>, session: string, after: seq<Event>)
    requires Removed(session) !in after
    ensures session !in ReceiveAll(t, before + [Removed(session)])
    ensures BufferOf(ReceiveAll(t, before + [Removed(session)] + after), session)
         == AppendAll(EMPTY, Chunks(OutputsOf(after, session)))
  {
    var gone := before + [Removed(session)];
    assert gone[..|before|] == before;
    ReceiveAllConcat(t, gone, after);
    BufferSeesItsChunks(ReceiveAll(t, gone), after, session);
  }

  lemma {:induction false} ReceiveAllConcat(t: Terminals, a: seq<Event>, b: seq<Event>)
    ensures ReceiveAll(t, a + b) == ReceiveAll(ReceiveAll(t, a), b)
  {
    if b == [] {
      assert a + b == a;
    } else {
      ReceiveAllConcat(t, a, b[..|b| - 1]);
      assert (a + b)[..|a + b| - 1] == a + b[..|b| - 1];
    }
  }

  lemma ChunksOfOne(e: Event)
    requires e.Output?
    ensures Chunks([e]) == if e.data.Some? then [Chunk(e.no, e.data.value)] else []
  {
    assert [e][1..] == [];
  }

  lemma ReceiveOwn(t: Terminals, e: Event)
    requires e.Output?
    ensures BufferOf(Receive(t, e), e.session) == AppendAll(BufferOf(t, e.session), Chunks([e]))
  {
    ChunksOfOne(e);
    if e.data.Some? {
      var c := Chunk(e.no, e.data.value);
      assert AppendAll(BufferOf(t, e.session), [c]) == AppendAll(Append(BufferOf(t, e.session), c), [c][1..]);
    }
  }

  lemma ReceiveForeign(t: Terminals, e: Event, session: string)
    requires !OutputOf(e, session) && e != Removed(session)
    ensures BufferOf(Receive(t, e), session) == BufferOf(t, session)
  {
  }

  lemma {:induction false} ChunksOfInserted(x: Event, s: seq<Event>)
    requires x.Output? && AllOutput(s) && SortedBy(No, s)
    ensures Chunks(Insert(No, x, s)) ==
            if x.data.Some? then Insert(Number, Chunk(x.no, x.data.value), Chunks(s)) else Chunks(s)
  {
    hide Chunks;
    if s == [] || No(x) <= No(s[0]) {
      ChunksInFront(x, s);
      SortedChunks(s, No(x));
    } else {
      var rest := Insert(No, x, s[1..]);
      ChunksOfInserted(x, s[1..]);
      ChunksInFront(s[0], rest);
      ChunksInFront(s[0], s[1..]);
      assert s == [s[0]] + s[1..];
      if s[0].data.Some? && x.data.Some? {
        InsertBehind(Chunk(s[0].no, s[0].data.value), Chunk(x.no, x.data.value), Chunks(s[1..]));
      }
    }
  }

  lemma ChunksInFront(x: Event, s: seq<Event>)
    requires x.Output?
    ensures Chunks([x] + s) == if x.data.Some? then [Chunk(x.no, x.data.value)] + Chunks(s) else Chunks(s)
  {
    assert ([x] + s)[1..] == s;
  }

  lemma InsertBehind(first: Chunk, c: Chunk, cs: seq<Chunk>)
    requires Number(first) < Number(c)
    ensures Insert(Number, c, [first] + cs) == [first] + Insert(Number, c, cs)
  {
    assert ([first] + cs)[1..] == cs;
  }

  /** The first chunk is no older than the first event. */
  lemma {:induction false} SortedChunks(s: seq<Event>, least: int)
    requires AllOutput(s) && SortedBy(No, s) && (s != [] ==> least <= No(s[0]))
    ensures Chunks(s) != [] ==> least <= Number(Chunks(s)[0])
  {
    if s != [] && s[0].data.None? {
      SortedChunks(s[1..], least);
    }
  }

  /** Sorting events sorts their chunks. */
  lemma {:induction false} ChunksOfSorted(s: seq<Event>)
    requires AllOutput(s)
    ensures Chunks(StableSort(No, s)) == StableSort(Number, Chunks(s))
  {
    hide Chunks, Insert;
    if s != [] {
      var rest := StableSort(No, s[1..]);
      ChunksOfSorted(s[1..]);
      StableSortIsStableSort(No, s[1..], 0);
      assert AllOutput(rest) by {
        forall e | e in rest ensures e.Output? { assert e in multiset(rest); }
      }
      ChunksOfInserted(s[0], rest);
      ChunksInFront(s[0], s[1..]);
      assert s == [s[0]] + s[1..];
      if s[0].data.Some? {
        SortedInFront(Chunk(s[0].no, s[0].data.value), Chunks(s[1..]));
      }
    } else {
      NoChunks();
    }
  }

  lemma NoOutputs(session: string)
    ensures OutputsOf([], session) == []
  {
  }

  lemma NoChunks()
    ensures Chunks([]) == []
  {
  }

  lemma SortedInFront(c: Chunk, cs: seq<Chunk>)
    ensures StableSort(Number, [c] + cs) == Insert(Number, c, StableSort(Number, cs))
  {
    assert ([c] + cs)[1..] == cs;
  }

  lemma {:induction false} OutputsAreOutput(es: seq<Event>, session: string)
    ensures AllOutput(OutputsOf(es, session))
  {
    if es != [] {
      OutputsAreOutput(es[..|es| - 1], session);
    }
  }

  lemma NotRemoved(es: seq<Event>, r: seq<Event>, session: string)
    requires SameSlots(es, r) && Removed(session) !in es
    ensures Removed(session) !in r
  {
  }

  /** Folding ordered events replays each session's chunks, as `replayTerminalOutput` does for one session alone. */
  lemma FoldingIsReplaying(t: Terminals, es: seq<Event>, r: seq<Event>, session: string)
    requires IsOrdering(es, r) && Removed(session) !in es
    ensures BufferOf(ReceiveAll(t, r), session) == Replay(BufferOf(t, session), Chunks(OutputsOf(es, session)))
  {
    NotRemoved(es, r, session);
    BufferSeesItsChunks(t, r, session);
    OutputsAreOutput(es, session);
    ChunksOfSorted(OutputsOf(es, session));
  }

  // ---- The daemon's replay items ----------------------------------------------------------

  /** The items of a replay answer, as the contract has them: `terminal.output` envelopes. */
  function Wrapped(session: string, cs: seq<Chunk>): seq<Event> {
    if cs == [] then []
    else
      var last := cs[|cs| - 1];
      Wrapped(session, cs[..|cs| - 1]) + [Output(session, last.no, Some(last.data))]
  }

  /** The items as the daemon sends them: without an event name, so the reducer takes them for something else. */
  function Flat(cs: seq<Chunk>): seq<Event> {
    if cs == [] then [] else Flat(cs[..|cs| - 1]) + [Other(cs[|cs| - 1].no)]
  }

  lemma {:induction false} WrappedChunks(session: string, cs: seq<Chunk>)
    ensures OutputsOf(Wrapped(session, cs), session) == Wrapped(session, cs)
    ensures Chunks(Wrapped(session, cs)) == cs && Removed(session) !in Wrapped(session, cs)
  {
    hide OutputsOf, Chunks;
    NoChunks();
    NoOutputs(session);
    if cs != [] {
      var front, last := cs[..|cs| - 1], cs[|cs| - 1];
      var e := Output(session, last.no, Some(last.data));
      WrappedChunks(session, front);
      OneMore(Wrapped(session, front), e, session);
      ChunksAppend(Wrapped(session, front), [e]);
      ChunksOfOne(e);
      assert cs == front + [last];
    }
  }

  /** Wrapped replay items bring the phone exactly the view the daemon answered with. */
  lemma WrappedReplayApplies(t: Terminals, session: string, cs: seq<Chunk>, r: seq<Event>)
    requires IsOrdering(Wrapped(session, cs), r)
    ensures BufferOf(ReceiveAll(t, r), session)
         == Registry.ApplyView(BufferOf(t, session), Registry.Replayed(cs))
  {
    WrappedChunks(session, cs);
    FoldingIsReplaying(t, Wrapped(session, cs), r, session);
  }

  lemma {:induction false} FlatItemsDoNothing(t: Terminals, cs: seq<Chunk>)
    ensures ReceiveAll(t, Flat(cs)) == t && forall e :: e in Flat(cs) ==> !e.Output?
  {
    if cs != [] {
      var front := Flat(cs[..|cs| - 1]);
      FlatItemsDoNothing(t, cs[..|cs| - 1]);
      assert Flat(cs)[..|front|] == front;
    }
  }

  /** The items as the daemon sends them leave the phone where the wrapped ones would exactly when the phone already
      has every chunk in them. */
  lemma FlatReplayIsHarmlessIff(t: Terminals, session: string, cs: seq<Chunk>, r: seq<Event>)
    requires IsOrdering(Wrapped(session, cs), r)
    ensures BufferOf(ReceiveAll(t, Flat(cs)), session) == BufferOf(ReceiveAll(t, r), session)
            <==> forall c :: c in cs ==> c.no <= BufferOf(t, session).lastSeq
  {
    var b := BufferOf(t, session);
    FlatItemsDoNothing(t, cs);
    WrappedReplayApplies(t, session, cs, r);
    var sorted := StableSort(Number, cs);
    StableSortIsStableSort(Number, cs, 0);
    SameMembers(cs, sorted);
    AppendedOrStale(b, sorted);
  }

  lemma SameMembers<T>(a: seq<T>, b: seq<T>)
    requires multiset(a) == multiset(b)
    ensures forall x :: x in a <==> x in b
  {
    forall x: T ensures x in a <==> x in b {
      assert x in a <==> x in multiset(a);
      assert x in b <==> x in multiset(b);
    }
  }

  lemma {:induction false} AppendedOrStale(b: Buffer, cs: seq<Chunk>)
    ensures AppendAll(b, cs).lastSeq >= b.lastSeq
    ensures AppendAll(b, cs) == b <==> forall c :: c in cs ==> c.no <= b.lastSeq
    decreases cs
  {
    if cs != [] {
      AppendedOrStale(Append(b, cs[0]), cs[1..]);
      assert cs == [cs[0]] + cs[1..];
      if cs[0].no <= b.lastSeq {
        assert forall c :: c in cs ==> c == cs[0] || c in cs[1..];
      } else {
        assert cs[0] in cs;
      }
    }
  }

  // ---- The method -------------------------------------------------------------------------

  /** The queue of each session holds its output, in order. */
  ghost predicate Queued(queues: map<string, seq<Event>>, es: seq<Event>) {
    forall session :: QueueOf(queues, session) == OutputsOf(es, session)
  }

  function QueueOf(queues: map<string, seq<Event>>, session: string): seq<Event> {
    if session in queues then queues[session] else []
  }

  method OrderReplayEvents(events: seq<Event>) returns (ordered: seq<Event>)
    ensures IsOrdering(events, ordered)
  {
    var terminalBySession := QueueOutputs(events);
    terminalBySession := SortQueues(events, terminalBySession);
    ordered := FillSlots(events, terminalBySession);
  }

  method QueueOutputs(events: seq<Event>) returns (queues: map<string, seq<Event>>)
    ensures Queued(queues, events)
  {
    hide OutputsOf;
    assert events[..0] == [];
    queues := map[];
    NoneQueued();
    var k := 0;
    while k < |events|
      invariant 0 <= k <= |events| && Queued(queues, events[..k])
    {
      var event := events[k];
      ghost var before := queues;
      if event.Output? {
        var queued := if event.session in queues then queues[event.session] else [];
        queues := queues[event.session := queued + [event]];
      }
      assert events[..k + 1] == events[..k] + [event];
      forall session ensures QueueOf(queues, session) == OutputsOf(events[..k + 1], session) {
        OneMore(events[..k], event, session);
        assert QueueOf(before, session) == OutputsOf(events[..k], session);
      }
      k := k + 1;
    }
    assert events[..k] == events;
  }

  lemma NoneQueued()
    ensures Queued(map[], [])
  {
  }

  method SortQueues(ghost events: seq<Event>, queues: map<string, seq<Event>>)
    returns (sorted: map<string, seq<Event>>)
    requires Queued(queues, events)
    ensures forall session :: QueueOf(sorted, session) == Sorted(events, session)
  {
    sorted := queues;
    var rest := queues.Keys;
    while rest != {}
      invariant rest <= sorted.Keys == queues.Keys
      invariant forall session :: session in sorted ==>
        sorted[session] == if session in rest then OutputsOf(events, session) else Sorted(events, session)
      decreases |rest|
    {
      var session :| session in rest;
      sorted := sorted[session := StableSort(No, sorted[session])];
      rest := rest - {session};
    }
    forall session ensures QueueOf(sorted, session) == Sorted(events, session) {
      assert QueueOf(queues, session) == OutputsOf(events, session);
    }
  }

  method FillSlots(events: seq<Event>, queues: map<string, seq<Event>>) returns (ordered: seq<Event>)
    requires forall session :: QueueOf(queues, session) == Sorted(events, session)
    ensures IsOrdering(events, ordered)
  {
    hide Sorted, OutputsOf, QueueOf, Filled, SameSlots;
    ordered := [];
    var nextIndex: map<string, nat> := map[];
    NothingFilled(events);
    var k := 0;
    while k < |events|
      invariant 0 <= k <= |events| && SameSlots(events[..k], ordered)
      invariant forall session :: Filled(events, k, ordered, nextIndex, session)
    {
      var event := events[k];
      var slot := event;
      ghost var indices := nextIndex;
      if event.Output? {
        assert Filled(events, k, ordered, nextIndex, event.session);
        SlotIsFilled(events, k, ordered, nextIndex, event.session);
        InQueue(queues, event.session);
        var index := if event.session in nextIndex then nextIndex[event.session] else 0;
        nextIndex := nextIndex[event.session := index + 1];
        slot := queues[event.session][index];
      }
      forall session ensures FilledNext(events, k, ordered + [slot], nextIndex, session) {
        FillNext(events, k, ordered, indices, slot, session);
      }
      SlotsExtend(events[..k], ordered, event, slot);
      assert events[..k + 1] == events[..k] + [event];
      ordered := ordered + [slot];
      k := k + 1;
      forall session ensures Filled(events, k, ordered, nextIndex, session) {
        assert FilledNext(events, k - 1, ordered, nextIndex, session);
      }
    }
    assert events[..k] == events;
    forall session ensures OutputsOf(ordered, session) == Sorted(events, session) {
      AllFilled(events, ordered, nextIndex, session);
    }
  }

  predicate FilledNext(events: seq<Event>, k: nat, ordered: seq<Event>, nextIndex: map<string, nat>, session: string) {
    Filled(events, k + 1, ordered, nextIndex, session)
  }

  lemma NothingFilled(events: seq<Event>)
    ensures SameSlots(events[..0], [])
    ensures forall session :: Filled(events, 0, [], map[], session)
  {
  }

  lemma InQueue(queues: map<string, seq<Event>>, session: string)
    ensures QueueOf(queues, session) != [] ==> session in queues && queues[session] == QueueOf(queues, session)
  {
  }

  lemma SlotsExtend(events: seq<Event>, ordered: seq<Event>, event: Event, slot: Event)
    requires SameSlots(events, ordered) && if event.Output? then OutputOf(slot, event.session) else slot == event
    ensures SameSlots(events + [event], ordered + [slot])
  {
  }

  lemma AllFilled(events: seq<Event>, ordered: seq<Event>, nextIndex: map<string, nat>, session: string)
    requires Filled(events, |events|, ordered, nextIndex, session)
    ensures OutputsOf(ordered, session) == Sorted(events, session)
  {
    assert events[..|events|] == events;
    SortedLength(events, session);
  }

  function IndexOf(nextIndex: map<string, nat>, session: string): nat {
    if session in nextIndex then nextIndex[session] else 0
  }

  /** The first `k` slots are filled with the beginning of the session's sorted output. */
  predicate Filled(events: seq<Event>, k: nat, ordered: seq<Event>, nextIndex: map<string, nat>, session: string) {
    var n := IndexOf(nextIndex, session);
    && k <= |events| && n == |OutputsOf(events[..k], session)|
    && n <= |Sorted(events, session)| && OutputsOf(ordered, session) == Sorted(events, session)[..n]
  }

  lemma SortedLength(events: seq<Event>, session: string)
    ensures |Sorted(events, session)| == |OutputsOf(events, session)|
    ensures forall e :: e in Sorted(events, session) ==> OutputOf(e, session)
  {
    var outputs := OutputsOf(events, session);
    StableSortIsStableSort(No, outputs, 0);
    assert |multiset(StableSort(No, outputs))| == |multiset(outputs)|;
    SameMembers(StableSort(No, outputs), outputs);
    OutputsAreIts(events, session);
  }

  lemma {:induction false} OutputsAreIts(es: seq<Event>, session: string)
    ensures forall e :: e in OutputsOf(es, session) ==> OutputOf(e, session)
  {
    if es != [] {
      OutputsAreIts(es[..|es| - 1], session);
    }
  }

  lemma {:induction false} FewerInFront(es: seq<Event>, k: nat, session: string)
    requires k <= |es|
    ensures |OutputsOf(es[..k], session)| <= |OutputsOf(es, session)|
    decreases |es|
  {
    if k < |es| {
      FewerInFront(es[..|es| - 1], k, session);
      assert es[..|es| - 1][..k] == es[..k];
    } else {
      assert es[..k] == es;
    }
  }

  /** The slot of an output event is filled from its session's sorted output. */
  lemma SlotIsFilled(events: seq<Event>, k: nat, ordered: seq<Event>, nextIndex: map<string, nat>, session: string)
    requires k < |events| && OutputOf(events[k], session) && Filled(events, k, ordered, nextIndex, session)
    ensures
      var n := IndexOf(nextIndex, session);
      n < |Sorted(events, session)| && OutputOf(Sorted(events, session)[n], session)
  {
    assert events[..k + 1] == events[..k] + [events[k]];
    OneMore(events[..k], events[k], session);
    FewerInFront(events, k + 1, session);
    SortedLength(events, session);
  }

  lemma FillNext(events: seq<Event>, k: nat, ordered: seq<Event>, nextIndex: map<string, nat>, slot: Event,
                 session: string)
    requires k < |events| && Filled(events, k, ordered, nextIndex, session)
    requires events[k].Output? ==>
      var own := events[k].session;
      && IndexOf(nextIndex, own) < |Sorted(events, own)|
      && OutputOf(slot, own) && slot == Sorted(events, own)[IndexOf(nextIndex, own)]
    requires !events[k].Output? ==> slot == events[k]
    ensures
      var next := if events[k].Output? then nextIndex[events[k].session := IndexOf(nextIndex, events[k].session) + 1]
                  else nextIndex;
      Filled(events, k + 1, ordered + [slot], next, session)
  {
    hide Sorted, OutputsOf;
    assert events[..k + 1] == events[..k] + [events[k]];
    OneMore(events[..k], events[k], session);
    OneMore(ordered, slot, session);
  }
}
