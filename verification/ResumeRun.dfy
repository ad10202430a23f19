/** Whole runs of output replication: one daemon, many sessions, one phone that keeps one session open.

    Output events are created in numbering order and sent later by separate tasks, so an answer to
    `session.subscribe` may overtake events created before it; what has been sent arrives in order
    (docs/protocol-contracts.md, "Message ordering"). The phone drops events unless it is online and goes
    online only when a subscription answer arrives; module Coordinator proves this of the coordinator. */
module ResumeRun {
  import opened Options
  import opened Sequences
  import opened TerminalBuffer
  import opened Registry

  datatype Link = Down | Resyncing | Online

  /** In an answer, `after` is the number the phone asked with and `at` how many records existed when the
      desktop computed the view; neither is used by the phone. */
  datatype Message =
    | Output(session: string, chunk: Chunk)
    | Answer(view: View, after: Option<int>, at: nat)

  datatype World = World(
    log: seq<Record>,            // every output recorded, record i numbered i + 1
    sent: nat,                   // how many output events have been sent or lost
    wire: seq<Message>,          // sent to the phone and not delivered yet
    asks: seq<Option<int>>,      // subscriptions asked and not handled yet
    link: Link,
    phone: map<string, Buffer>,
    flat: bool)                  // replay items come without their envelope, as the daemon sends them

  datatype Event =
    | Emit(session: string, data: string)  // a session prints: the daemon numbers and retains it
    | Send(copies: nat)                    // the oldest unsent event is sent, more than once on a duplicated link
    | Disconnect
    | Resume
    | Ask(after: Option<int>)
    | Handle                               // the desktop answers the oldest subscription
    | Deliver                              // the oldest message on the wire reaches the phone

  function BufferOf(w: World, session: string): Buffer {
    if session in w.phone then w.phone[session] else EMPTY
  }

  function Init(flat: bool): World {
    World([], 0, [], [], Down, map[], flat)
  }

  predicate Enabled(w: World, e: Event, open: string) {
    match e
    case Emit(_, data) => |data| <= MAX_BUFFER_BYTES
    case Send(copies) => w.sent < |w.log|
    case Disconnect => true
    case Resume => w.link == Down
    case Ask(after) => w.link != Down && (after.Some? ==> after.value <= BufferOf(w, open).lastSeq)
    case Handle => w.link != Down && w.asks != []
    case Deliver => w.wire != []
  }

  function NumberedOutput(log: seq<Record>, i: nat): Message
    requires i < |log|
  {
    Output(log[i].session, Chunk(i + 1, log[i].data))
  }

  function Receive(phone: map<string, Buffer>, session: string, c: Chunk): map<string, Buffer> {
    var b := if session in phone then phone[session] else EMPTY;
    if Append(b, c) == b then phone else phone[session := Append(b, c)]
  }

  /** The reducer takes items without an envelope for something else: module Reducer, `FlatItemsDoNothing`. */
  predicate Ignored(flat: bool, view: View) {
    flat && view.Replayed?
  }

  function DeliverTo(w: World, m: Message, open: string): World {
    match m
    case Output(session, c) =>
      if w.link == Online then w.(phone := Receive(w.phone, session, c)) else w
    case Answer(view, _, _) =>
      w.(link := Online,
         phone := if view.Live? || Ignored(w.flat, view) then w.phone
                  else w.phone[open := ApplyView(BufferOf(w, open), view)])
  }

  function DeliverFirst(w: World, open: string): World
    requires w.wire != []
  {
    DeliverTo(w.(wire := w.wire[1..]), w.wire[0], open)
  }

  function Copies(m: Message, n: nat): seq<Message> {
    if n == 0 then [] else Copies(m, n - 1) + [m]
  }

  /** The answer a desktop gives to a subscription it handles now. */
  function AnswerNow(log: seq<Record>, open: string, after: Option<int>): Message {
    Answer(ViewOf(Retained(ChunksOf(log, open)), after), after, |log|)
  }

  function Next(w: World, e: Event, open: string): World
    requires Enabled(w, e, open)
  {
    match e
    case Emit(session, data) => w.(log := w.log + [Record(session, data)])
    case Send(copies) =>
      w.(sent := w.sent + 1,
         wire := if w.link == Down then w.wire else w.wire + Copies(NumberedOutput(w.log, w.sent), copies))
    case Disconnect => w.(wire := [], asks := [], link := Down)
    case Resume => w.(link := Resyncing)
    case Ask(after) => w.(asks := w.asks + [after])
    case Handle =>
      w.(asks := w.asks[1..], wire := w.wire + [AnswerNow(w.log, open, w.asks[0])])
    case Deliver => DeliverFirst(w, open)
  }

  /** One enabled event leads from `v` to `w`. */
  predicate Step(v: World, e: Event, w: World, open: string) {
    Enabled(v, e, open) && Next(v, e, open) == w
  }

  /** `ws` is a run: it starts at `Init` and every world follows from the one before by the event between them. */
  predicate IsRun(ws: seq<World>, es: seq<Event>, open: string) {
    && |ws| == |es| + 1 && ws[0] == Init(ws[0].flat)
    && forall i :: 0 <= i < |es| ==> Step(ws[i], es[i], ws[i + 1], open)
  }

  // ---- Steps that cost the phone something ------------------------------------------------

  predicate HasAnswer(wire: seq<Message>) {
    wire != [] && (wire[0].Answer? || HasAnswer(wire[1..]))
  }

  /** The phone is online, or an answer that will bring it online is on its way. */
  predicate Settles(w: World) {
    w.link == Online || (w.link == Resyncing && HasAnswer(w.wire))
  }

  /** What a phone that listens holds of the open session after message `m`: everything up to the record the desktop
      knew when it answered, unless it ignores the answer, or up to the record an output event carries. */
  function CoveredBy(log: seq<Record>, open: string, flat: bool, covered: int, m: Message): int {
    if m.Answer? then (if m.at <= |log| && !Ignored(flat, m.view) then Last(log, open, m.at) else covered)
    else if m.session == open && m.chunk.no > covered then m.chunk.no
    else covered
  }

  /** The number up to which a phone that listens will hold the open session once `wire` is delivered. */
  function HeldAfter(log: seq<Record>, open: string, flat: bool, held: int, wire: seq<Message>): int
    decreases wire
  {
    if wire == [] then held
    else HeldAfter(log, open, flat, CoveredBy(log, open, flat, held, wire[0]), wire[1..])
  }

  /** The same for a phone that starts to listen at the first answer. */
  function HeldFromAnswer(log: seq<Record>, open: string, flat: bool, held: int, wire: seq<Message>): int {
    if wire == [] || wire[0].Answer? then HeldAfter(log, open, flat, held, wire)
    else HeldFromAnswer(log, open, flat, held, wire[1..])
  }

  function WillHold(w: World, open: string): int {
    if w.link == Online then HeldAfter(w.log, open, w.flat, BufferOf(w, open).lastSeq, w.wire)
    else HeldFromAnswer(w.log, open, w.flat, BufferOf(w, open).lastSeq, w.wire)
  }

  /** The last record of the open session whose event has been sent or lost. */
  function NewestSent(w: World, open: string): nat {
    if w.sent <= |w.log| then Last(w.log, open, w.sent) else 0
  }

  /** Only two kinds of steps can cost the phone something, each guarded by the state before it. An event may be lost
      while the phone's link is up: that is harmless unless the phone is going to listen, the event is of the open
      session, and nothing on its way covers it. And the first answer after a reconnect may be a replay the phone
      ignores: that is harmless as long as the phone has everything that will not be sent any more. */
  predicate Harmless(w: World, e: Event, open: string)
    requires Enabled(w, e, open)
  {
    match e
    case Send(copies) =>
      copies > 0 || !Settles(w) || w.log[w.sent].session != open || w.sent + 1 <= WillHold(w, open)
    case Handle =>
      || Settles(w) || !Ignored(w.flat, AnswerNow(w.log, open, w.asks[0]).view)
      || NewestSent(w, open) <= BufferOf(w, open).lastSeq
    case _ => true
  }

  predicate IsHarmlessRun(ws: seq<World>, es: seq<Event>, open: string) {
    IsRun(ws, es, open) && forall i :: 0 <= i < |es| ==> Enabled(ws[i], es[i], open) && Harmless(ws[i], es[i], open)
  }

  /** Everything on the wire is delivered. */
  function Drained(w: World, open: string): World
    decreases |w.wire|
  {
    if w.wire == [] then w else Drained(DeliverFirst(w, open), open)
  }

  /** The phone is online, or will be, and yet will miss output of the open session that is not sent any more. */
  predicate Behind(w: World, open: string) {
    Settles(w) && BufferOf(Drained(w, open), open).lastSeq < NewestSent(w, open)
  }

  // ---- The invariant ----------------------------------------------------------------------

  /** The number of the last record of `session` among the first `n`, 0 if there is none. */
  function Last(log: seq<Record>, session: string, n: nat): (r: nat)
    requires n <= |log|
    ensures r <= n
    ensures r > 0 ==> log[r - 1].session == session
  {
    if n == 0 then 0 else if log[n - 1].session == session then n else Last(log, session, n - 1)
  }

  predicate FromLog(log: seq<Record>, m: Message)
    requires m.Output?
  {
    1 <= m.chunk.no <= |log| && m == NumberedOutput(log, m.chunk.no - 1)
  }

  predicate GoodAnswer(log: seq<Record>, open: string, covered: int, m: Message)
    requires m.Answer?
  {
    && m.at <= |log|
    && covered <= Last(log, open, m.at)
    && (m.after.Some? ==> m.after.value <= covered)
    && m.view == ViewOf(Retained(ChunksOf(log[..m.at], open)), m.after)
  }

  /** Message `m` leaves no gap behind what the phone holds. */
  predicate Continues(log: seq<Record>, open: string, covered: int, m: Message) {
    if m.Answer? then GoodAnswer(log, open, covered, m)
    else FromLog(log, m) && (m.session == open && m.chunk.no > covered ==> Last(log, open, m.chunk.no - 1) <= covered)
  }

  /** A phone that holds the open session up to record `covered` and applies `wire` in order misses no record
      and ends up holding everything sent. */
  predicate Gapless(log: seq<Record>, open: string, flat: bool, covered: int, wire: seq<Message>, sent: nat)
    requires sent <= |log|
    decreases wire
  {
    if wire == [] then
      Last(log, open, sent) <= covered <= Last(log, open, |log|)
    else
      && Continues(log, open, covered, wire[0])
      && Gapless(log, open, flat, CoveredBy(log, open, flat, covered, wire[0]), wire[1..], sent)
  }

  /** A phone that drops events until the first answer arrives is gapless from there on. */
  predicate GaplessAfterAnswer(log: seq<Record>, open: string, flat: bool, covered: int, wire: seq<Message>, sent: nat)
    requires sent <= |log|
    decreases wire
  {
    wire == [] ||
    if wire[0].Answer? then Gapless(log, open, flat, covered, wire, sent)
    else FromLog(log, wire[0]) && GaplessAfterAnswer(log, open, flat, covered, wire[1..], sent)
  }

  /** What the phone shows of the open session: a suffix of the session's output up to the last number it counts. */
  predicate ShowsSuffix(log: seq<Record>, open: string, b: Buffer) {
    0 <= b.lastSeq <= |log| && IsSuffix(b.text, Text(ChunksOf(log[..b.lastSeq], open)))
  }

  /** The messages on the way to the phone complete what it holds. */
  predicate InSync(w: World, open: string) {
    var b := BufferOf(w, open);
    && w.sent <= |w.log| && 0 <= b.lastSeq
    && (forall r :: r in w.log ==> |r.data| <= MAX_BUFFER_BYTES)
    && b.lastSeq <= Last(w.log, open, |w.log|)
    && (forall k :: k in w.asks && k.Some? ==> k.value <= b.lastSeq)
    && (match w.link
       case Down => w.wire == [] && w.asks == []
       case Resyncing => GaplessAfterAnswer(w.log, open, w.flat, b.lastSeq, w.wire, w.sent)
       case Online => Gapless(w.log, open, w.flat, b.lastSeq, w.wire, w.sent))
  }

  predicate Inv(w: World, open: string) {
    InSync(w, open) && ShowsSuffix(w.log, open, BufferOf(w, open))
  }

  // ---- The log ----------------------------------------------------------------------------

  lemma {:induction false} LastIsMonotone(log: seq<Record>, open: string, m: nat, n: nat)
    requires m <= n <= |log|
    ensures Last(log, open, m) <= Last(log, open, n)
    decreases n
  {
    if m < n {
      LastIsMonotone(log, open, m, n - 1);
    }
  }

  lemma {:induction false} LastOfLongerLog(log: seq<Record>, r: Record, open: string, n: nat)
    requires n <= |log|
    ensures Last(log + [r], open, n) == Last(log, open, n)
  {
    if n > 0 {
      LastOfLongerLog(log, r, open, n - 1);
    }
  }

  /** Between two positions with no record of the session, its chunks do not change. */
  lemma {:induction false} NoRecordBetween(log: seq<Record>, open: string, m: nat, n: nat)
    requires m <= n <= |log| && Last(log, open, n) <= m
    ensures ChunksOf(log[..n], open) == ChunksOf(log[..m], open)
    decreases n
  {
    if m < n {
      assert log[..n][..n - 1] == log[..n - 1];
      NoRecordBetween(log, open, m, n - 1);
    }
  }

  lemma ChunksUpTo(log: seq<Record>, open: string, n: nat)
    requires 0 < n <= |log| && log[n - 1].session == open
    ensures ChunksOf(log[..n], open) == ChunksOf(log[..n - 1], open) + [Chunk(n, log[n - 1].data)]
  {
    assert log[..n][..n - 1] == log[..n - 1];
  }

  /** The last chunk of a session's history is its last record. */
  lemma {:induction false} LastChunk(log: seq<Record>, open: string, n: nat)
    requires n <= |log|
    ensures var h := ChunksOf(log[..n], open);
            if Last(log, open, n) == 0 then h == []
            else h != [] && h[|h| - 1] == Chunk(Last(log, open, n), log[Last(log, open, n) - 1].data)
  {
    var l := Last(log, open, n);
    NoRecordBetween(log, open, l, n);
    if l > 0 {
      ChunksUpTo(log, open, l);
    }
  }

  lemma {:induction false} ChunksOfPrefix(log: seq<Record>, open: string, m: nat, n: nat) returns (later: seq<Chunk>)
    requires m <= n <= |log|
    ensures ChunksOf(log[..n], open) == ChunksOf(log[..m], open) + later
    ensures forall c :: c in later ==> c.no > m
    ensures Increasing(later)
    decreases n
  {
    if m == n {
      later := [];
    } else {
      assert log[..n][..n - 1] == log[..n - 1];
      later := ChunksOfPrefix(log, open, m, n - 1);
      if log[n - 1].session == open {
        ChunksAreNumbered(log[..n - 1], open);
        assert forall c :: c in later ==> c in ChunksOf(log[..n - 1], open);
        later := later + [Chunk(n, log[n - 1].data)];
      }
    }
  }

  // ---- Every event keeps the invariant ----------------------------------------------------

  lemma ContinuesInLongerLog(log: seq<Record>, r: Record, open: string, flat: bool, covered: int, m: Message)
    requires Continues(log, open, covered, m)
    ensures Continues(log + [r], open, covered, m)
    ensures CoveredBy(log + [r], open, flat, covered, m) == CoveredBy(log, open, flat, covered, m)
  {
    if m.Answer? {
      LastOfLongerLog(log, r, open, m.at);
      assert (log + [r])[..m.at] == log[..m.at];
    } else {
      LastOfLongerLog(log, r, open, m.chunk.no - 1);
    }
  }

  lemma {:induction false} GaplessInLongerLog(log: seq<Record>, r: Record, open: string, flat: bool, covered: int,
                                              wire: seq<Message>, sent: nat)
    requires sent <= |log|
    ensures Gapless(log, open, flat, covered, wire, sent) ==> Gapless(log + [r], open, flat, covered, wire, sent)
    ensures GaplessAfterAnswer(log, open, flat, covered, wire, sent) ==>
              GaplessAfterAnswer(log + [r], open, flat, covered, wire, sent)
    decreases wire
  {
    hide Continues, CoveredBy;
    if wire == [] {
      LastOfLongerLog(log, r, open, sent);
      LastOfLongerLog(log, r, open, |log|);
      LastIsMonotone(log + [r], open, |log|, |log| + 1);
    } else {
      if Continues(log, open, covered, wire[0]) {
        ContinuesInLongerLog(log, r, open, flat, covered, wire[0]);
        GaplessInLongerLog(log, r, open, flat, CoveredBy(log, open, flat, covered, wire[0]), wire[1..], sent);
      }
      GaplessInLongerLog(log, r, open, flat, covered, wire[1..], sent);
    }
  }

  lemma {:induction false} GaplessWithOutput(log: seq<Record>, open: string, flat: bool, covered: int,
                                             wire: seq<Message>, sent: nat, sent': nat)
    requires sent <= sent' <= sent + 1 && 0 < sent' <= |log|
    requires Gapless(log, open, flat, covered, wire, sent)
    ensures Gapless(log, open, flat, covered, wire + [NumberedOutput(log, sent' - 1)], sent')
    decreases wire
  {
    var m := NumberedOutput(log, sent' - 1);
    if wire == [] {
      OutputContinues(log, open, flat, covered, sent, sent');
      hide Continues, CoveredBy;
      assert [] + [m] == [m] && [m][1..] == [];
    } else {
      hide Continues, CoveredBy;
      assert (wire + [m])[0] == wire[0] && (wire + [m])[1..] == wire[1..] + [m];
      GaplessWithOutput(log, open, flat, CoveredBy(log, open, flat, covered, wire[0]), wire[1..], sent, sent');
    }
  }

  lemma OutputContinues(log: seq<Record>, open: string, flat: bool, covered: int, sent: nat, sent': nat)
    requires sent <= sent' <= sent + 1 && 0 < sent' <= |log|
    requires Last(log, open, sent) <= covered <= Last(log, open, |log|)
    ensures var m := NumberedOutput(log, sent' - 1);
            && Continues(log, open, covered, m)
            && Last(log, open, sent') <= CoveredBy(log, open, flat, covered, m) <= Last(log, open, |log|)
  {
    LastIsMonotone(log, open, sent' - 1, sent);
    LastIsMonotone(log, open, sent', |log|);
  }

  lemma {:induction false} SettlingWithOutput(log: seq<Record>, open: string, flat: bool, covered: int,
                                              wire: seq<Message>, sent: nat, sent': nat)
    requires sent <= sent' <= sent + 1 && 0 < sent' <= |log|
    requires GaplessAfterAnswer(log, open, flat, covered, wire, sent)
    ensures GaplessAfterAnswer(log, open, flat, covered, wire + [NumberedOutput(log, sent' - 1)], sent')
    decreases wire
  {
    hide Gapless;
    var m := NumberedOutput(log, sent' - 1);
    if wire == [] {
      assert [] + [m] == [m] && [m][1..] == [];
    } else {
      assert (wire + [m])[0] == wire[0] && (wire + [m])[1..] == wire[1..] + [m];
      if wire[0].Answer? {
        GaplessWithOutput(log, open, flat, covered, wire, sent, sent');
      } else {
        SettlingWithOutput(log, open, flat, covered, wire[1..], sent, sent');
      }
    }
  }

  lemma {:induction false} WithCopies(log: seq<Record>, open: string, flat: bool, covered: int, wire: seq<Message>,
                                      sent: nat, copies: nat)
    requires sent < |log| && copies > 0
    ensures var wire' := wire + Copies(NumberedOutput(log, sent), copies);
            && (Gapless(log, open, flat, covered, wire, sent) ==> Gapless(log, open, flat, covered, wire', sent + 1))
            && (GaplessAfterAnswer(log, open, flat, covered, wire, sent) ==>
                GaplessAfterAnswer(log, open, flat, covered, wire', sent + 1))
    decreases copies
  {
    hide Gapless, GaplessAfterAnswer;
    var m := NumberedOutput(log, sent);
    var before := wire + Copies(m, copies - 1);
    Associative(wire, Copies(m, copies - 1), [m]);
    var sent0 := if copies == 1 then sent else sent + 1;
    if copies == 1 {
      assert before == wire;
    } else {
      WithCopies(log, open, flat, covered, wire, sent, copies - 1);
    }
    if Gapless(log, open, flat, covered, wire, sent) {
      GaplessWithOutput(log, open, flat, covered, before, sent0, sent + 1);
    }
    if GaplessAfterAnswer(log, open, flat, covered, wire, sent) {
      SettlingWithOutput(log, open, flat, covered, before, sent0, sent + 1);
    }
  }

  lemma {:induction false} GaplessWithAnswer(log: seq<Record>, open: string, flat: bool, covered: int,
                                             wire: seq<Message>, sent: nat, after: Option<int>)
    requires sent <= |log| && Gapless(log, open, flat, covered, wire, sent)
    requires (after.Some? ==> after.value <= covered) && covered <= Last(log, open, |log|)
    ensures Gapless(log, open, flat, covered, wire + [AnswerNow(log, open, after)], sent)
    decreases wire
  {
    var m := AnswerNow(log, open, after);
    if wire == [] {
      NewAnswerContinues(log, open, flat, covered, sent, after);
      hide AnswerNow, Continues, CoveredBy;
      assert wire + [m] == [m] && [m][1..] == [];
    } else {
      CoveredIsMonotone(log, open, flat, covered, wire[0]);
      hide AnswerNow, Continues, CoveredBy;
      assert (wire + [m])[0] == wire[0] && (wire + [m])[1..] == wire[1..] + [m];
      GaplessWithAnswer(log, open, flat, CoveredBy(log, open, flat, covered, wire[0]), wire[1..], sent, after);
    }
  }

  lemma NewAnswerContinues(log: seq<Record>, open: string, flat: bool, covered: int, sent: nat, after: Option<int>)
    requires sent <= |log| && (after.Some? ==> after.value <= covered) && covered <= Last(log, open, |log|)
    ensures var m := AnswerNow(log, open, after);
            && Continues(log, open, covered, m)
            && CoveredBy(log, open, flat, covered, m) ==
               (if Ignored(flat, m.view) then covered else Last(log, open, |log|))
    ensures Last(log, open, sent) <= Last(log, open, |log|)
  {
    hide ViewOf, Retained, ChunksOf;
    assert log[..|log|] == log;
    LastIsMonotone(log, open, sent, |log|);
  }

  lemma CoveredIsMonotone(log: seq<Record>, open: string, flat: bool, covered: int, m: Message)
    requires Continues(log, open, covered, m) && covered <= Last(log, open, |log|)
    ensures covered <= CoveredBy(log, open, flat, covered, m) <= Last(log, open, |log|)
  {
    if m.Answer? {
      LastIsMonotone(log, open, m.at, |log|);
    } else {
      LastIsMonotone(log, open, m.chunk.no, |log|);
    }
  }

  /** An answer behind the first one, or an answer the phone does not ignore, leaves a settling phone complete; the
      first answer, if ignored, does so exactly when the phone has everything that is not going to be sent. */
  lemma {:induction false} SettlingWithAnswerIff(log: seq<Record>, open: string, flat: bool, covered: int,
                                                 wire: seq<Message>, sent: nat, after: Option<int>)
    requires sent <= |log| && GaplessAfterAnswer(log, open, flat, covered, wire, sent)
    requires (after.Some? ==> after.value <= covered) && covered <= Last(log, open, |log|)
    ensures var m := AnswerNow(log, open, after);
            GaplessAfterAnswer(log, open, flat, covered, wire + [m], sent) <==>
            HasAnswer(wire) || !Ignored(flat, m.view) || Last(log, open, sent) <= covered
    decreases wire
  {
    var m := AnswerNow(log, open, after);
    NewAnswerContinues(log, open, flat, covered, sent, after);
    hide Continues, CoveredBy, Ignored, ViewOf, Retained, ChunksOf;
    if wire == [] {
      assert wire + [m] == [m] && [m][1..] == [];
      assert Gapless(log, open, flat, covered, [m], sent) <==>
             Gapless(log, open, flat, CoveredBy(log, open, flat, covered, m), [], sent);
    } else {
      assert (wire + [m])[0] == wire[0] && (wire + [m])[1..] == wire[1..] + [m];
      if wire[0].Answer? {
        GaplessWithAnswer(log, open, flat, covered, wire, sent, after);
      } else {
        SettlingWithAnswerIff(log, open, flat, covered, wire[1..], sent, after);
      }
    }
  }

  /** The next record of the open session extends what the phone shows. */
  lemma OutputExtends(log: seq<Record>, open: string, b: Buffer, c: Chunk)
    requires ShowsSuffix(log, open, b)
    requires FromLog(log, Output(open, c)) && b.lastSeq < c.no && Last(log, open, c.no - 1) <= b.lastSeq
    ensures ShowsSuffix(log, open, Append(b, c))
  {
    hide ChunksOf, Text;
    NoRecordBetween(log, open, b.lastSeq, c.no - 1);
    ChunksUpTo(log, open, c.no);
    var before := ChunksOf(log[..b.lastSeq], open);
    TextAppend(before, [c]);
    assert Text([c]) == c.data by { TextOfOne(c); }
    SuffixAppend(b.text, Text(before), c.data);
    TrimmedSuffix(b.text + c.data, b.text + c.data);
    SuffixTransitive(TrimText(b.text + c.data), b.text + c.data, Text(before) + c.data);
  }

  lemma TextOfOne(c: Chunk)
    ensures Text([c]) == c.data
  {
  }

  /** An answer brings the phone to the last record the desktop knew of when it answered, whichever mode it has. */
  lemma AnswerCatchesUp(log: seq<Record>, open: string, b: Buffer, m: Message)
    requires forall r :: r in log ==> |r.data| <= MAX_BUFFER_BYTES
    requires ShowsSuffix(log, open, b) && m.Answer? && GoodAnswer(log, open, b.lastSeq, m)
    ensures ShowsSuffix(log, open, ApplyView(b, m.view))
    ensures ApplyView(b, m.view).lastSeq == Last(log, open, m.at)
  {
    hide ChunksOf, Text, Retained, ViewOf, Last, AppendAll, Size;
    var history := ChunksOf(log[..m.at], open);
    ChunksAreNumbered(log[..m.at], open);
    var last := Last(log, open, m.at);
    LastChunk(log, open, m.at);
    NoRecordBetween(log, open, last, m.at);
    match m.view {
      case Live =>
        LiveHasNothing(log, open, b.lastSeq, m);
      case Snapshot(_, _) =>
        SnapshotCarriesAll(Retained(history), b, m.after);
        RetainedText(history);
        SnapshotEqualsNeverDisconnected(history, b, m.after);
      case Replayed(_) =>
        ReplayAsksByNumber(history, m.after);
        ReplayEqualsNeverDisconnected(history, b, m.after.value);
        HistoryExtends(log, open, b, m.at);
    }
  }

  lemma ReplayAsksByNumber(history: seq<Chunk>, after: Option<int>)
    requires ViewOf(Retained(history), after).Replayed?
    ensures after.Some?
  {
  }

  lemma LiveHasNothing(log: seq<Record>, open: string, covered: nat, m: Message)
    requires forall r :: r in log ==> |r.data| <= MAX_BUFFER_BYTES
    requires m.Answer? && m.view.Live? && GoodAnswer(log, open, covered, m)
    ensures covered == Last(log, open, m.at)
  {
    hide Retained, Text, Size;
    var history := ChunksOf(log[..m.at], open);
    LastChunk(log, open, m.at);
    if Last(log, open, m.at) > 0 {
      var c := history[|history| - 1];
      assert history == history[..|history| - 1] + [c];
      NewestChunkIsRetained(history[..|history| - 1], c);
    }
  }

  /** Applying a session's whole history to a phone that already holds part of it. */
  lemma HistoryExtends(log: seq<Record>, open: string, b: Buffer, n: nat)
    requires ShowsSuffix(log, open, b) && n <= |log| && b.lastSeq <= Last(log, open, n)
    ensures var b' := AppendAll(b, ChunksOf(log[..n], open));
            b'.lastSeq == Last(log, open, n) && ShowsSuffix(log, open, b')
  {
    hide ChunksOf, Text, AppendAll, Last, Increasing, TrimText;
    var last := Last(log, open, n);
    LastChunk(log, open, n);
    LastBounded(log, open, n);
    var held := ChunksOf(log[..b.lastSeq], open);
    ChunksAreNumbered(log[..b.lastSeq], open);
    var later := ChunksOfPrefix(log, open, b.lastSeq, n);
    AppendAllConcat(b, held, later);
    StaleChunksAreIgnored(b, held);
    NoRecordBetween(log, open, last, n);
    if later == [] {
      AppendNothing(b);
      assert held + later == held;
      assert last == b.lastSeq;
    } else {
      FreshChunksAppend(b, later);
      assert (held + later)[|held + later| - 1] == later[|later| - 1];
      TextAppend(held, later);
      SuffixAppend(b.text, Text(held), Text(later));
      TrimmedSuffix(b.text + Text(later), b.text + Text(later));
      SuffixTransitive(TrimText(b.text + Text(later)), b.text + Text(later), Text(held) + Text(later));
    }
  }

  lemma LastBounded(log: seq<Record>, open: string, n: nat)
    requires n <= |log|
    ensures Last(log, open, n) <= n
  {
  }

  lemma AppendNothing(b: Buffer)
    ensures AppendAll(b, []) == b
  {
  }

  lemma AnswerKeepsInv(w: World, open: string)
    requires Inv(w, open) && w.wire != [] && w.wire[0].Answer?
    ensures Inv(DeliverFirst(w, open), open)
    ensures BufferOf(w, open).lastSeq <= BufferOf(DeliverFirst(w, open), open).lastSeq
  {
    hide ChunksOf, Text, ApplyView, Retained, ViewOf, ShowsSuffix, TrimText;
    var m, b := w.wire[0], BufferOf(w, open);
    AnswerCatchesUp(w.log, open, b, m);
    LastIsMonotone(w.log, open, m.at, |w.log|);
    LiveKeeps(b);
    assert BufferOf(DeliverFirst(w, open), open) == if Ignored(w.flat, m.view) then b else ApplyView(b, m.view);
  }

  lemma AppendSkipsOld(b: Buffer, c: Chunk)
    ensures c.no <= b.lastSeq ==> Append(b, c) == b
    ensures c.no > b.lastSeq ==> Append(b, c).lastSeq == c.no
  {
  }

  lemma OutputKeepsInv(w: World, open: string)
    requires Inv(w, open) && w.wire != [] && w.wire[0].Output?
    ensures Inv(DeliverFirst(w, open), open)
    ensures BufferOf(w, open).lastSeq <= BufferOf(DeliverFirst(w, open), open).lastSeq
  {
    hide InSync, ShowsSuffix, DeliverFirst, BufferOf;
    OutputReaches(w, open);
    OutputKeepsInSync(w, open);
    OutputKeepsSuffix(w, open);
  }

  lemma OutputKeepsInSync(w: World, open: string)
    requires InSync(w, open) && w.wire != [] && w.wire[0].Output?
    ensures InSync(DeliverFirst(w, open), open)
  {
    hide ChunksOf, Append, Last, DeliverFirst;
    var m, b := w.wire[0], BufferOf(w, open);
    OutputReaches(w, open);
    AppendSkipsOld(b, m.chunk);
    if w.link == Online {
      CoveredIsMonotone(w.log, open, w.flat, b.lastSeq, m);
    }
  }

  lemma OutputKeepsSuffix(w: World, open: string)
    requires InSync(w, open) && ShowsSuffix(w.log, open, BufferOf(w, open)) && w.wire != [] && w.wire[0].Output?
    ensures ShowsSuffix(w.log, open, BufferOf(DeliverFirst(w, open), open))
    ensures BufferOf(w, open).lastSeq <= BufferOf(DeliverFirst(w, open), open).lastSeq
  {
    hide ChunksOf, ShowsSuffix, Append, Last, DeliverFirst;
    var m, b := w.wire[0], BufferOf(w, open);
    OutputReaches(w, open);
    AppendSkipsOld(b, m.chunk);
    if w.link == Online && m.session == open && m.chunk.no > b.lastSeq {
      OutputExtends(w.log, open, b, m.chunk);
    }
  }

  /** What an output event does to the world. */
  lemma OutputReaches(w: World, open: string)
    requires w.wire != [] && w.wire[0].Output?
    ensures
      var m, b, next := w.wire[0], BufferOf(w, open), DeliverFirst(w, open);
      && next == w.(wire := w.wire[1..], phone := next.phone)
      && BufferOf(next, open) == if w.link == Online && m.session == open then Append(b, m.chunk) else b
  {
  }

  lemma LiveKeeps(b: Buffer)
    ensures ApplyView(b, Live) == b
  {
  }

  lemma EmitKeepsInv(w: World, e: Event, open: string)
    requires Inv(w, open) && e.Emit? && Enabled(w, e, open)
    ensures Inv(Next(w, e, open), open)
  {
    hide ChunksOf, Text, Gapless, GaplessAfterAnswer, IsSuffix;
    var r, b := Record(e.session, e.data), BufferOf(w, open);
    LastOfLongerLog(w.log, r, open, |w.log|);
    LastIsMonotone(w.log + [r], open, |w.log|, |w.log| + 1);
    assert (w.log + [r])[..b.lastSeq] == w.log[..b.lastSeq];
    GaplessInLongerLog(w.log, r, open, w.flat, b.lastSeq, w.wire, w.sent);
  }

  lemma {:induction false} GaplessEndsAtHeld(log: seq<Record>, open: string, flat: bool, covered: int,
                                             wire: seq<Message>, sent: nat, sent': nat)
    requires sent <= |log| && sent' <= |log| && Gapless(log, open, flat, covered, wire, sent)
    ensures Gapless(log, open, flat, covered, wire, sent') <==>
              Last(log, open, sent') <= HeldAfter(log, open, flat, covered, wire)
    decreases wire
  {
    hide Continues, CoveredBy;
    if wire != [] {
      GaplessEndsAtHeld(log, open, flat, CoveredBy(log, open, flat, covered, wire[0]), wire[1..], sent, sent');
    }
  }

  lemma {:induction false} SettlingEndsAtHeld(log: seq<Record>, open: string, flat: bool, covered: int,
                                              wire: seq<Message>, sent: nat, sent': nat)
    requires sent <= |log| && sent' <= |log| && GaplessAfterAnswer(log, open, flat, covered, wire, sent)
    ensures GaplessAfterAnswer(log, open, flat, covered, wire, sent') <==>
              !HasAnswer(wire) || Last(log, open, sent') <= HeldFromAnswer(log, open, flat, covered, wire)
    decreases wire
  {
    hide Gapless, HeldAfter;
    if wire != [] {
      if wire[0].Answer? {
        GaplessEndsAtHeld(log, open, flat, covered, wire, sent, sent');
      } else {
        SettlingEndsAtHeld(log, open, flat, covered, wire[1..], sent, sent');
      }
    }
  }

  lemma LosingIsOnlyCounting(w: World, open: string)
    requires w.sent < |w.log|
    ensures Next(w, Send(0), open) == w.(sent := w.sent + 1)
  {
    assert w.wire + [] == w.wire;
  }

  /** A lost event keeps what is on its way complete exactly when its loss is harmless. */
  lemma SilentLossIsHarmlessIff(w: World, open: string)
    requires InSync(w, open) && w.sent < |w.log|
    ensures InSync(Next(w, Send(0), open), open) <==> Harmless(w, Send(0), open)
  {
    LosingIsOnlyCounting(w, open);
    hide Gapless, HeldAfter, HeldFromAnswer, GaplessAfterAnswer, Next, HasAnswer, ChunksOf, ViewOf, Retained;
    var b := BufferOf(w, open);
    if w.link == Online {
      GaplessEndsAtHeld(w.log, open, w.flat, b.lastSeq, w.wire, w.sent, w.sent);
      GaplessEndsAtHeld(w.log, open, w.flat, b.lastSeq, w.wire, w.sent, w.sent + 1);
    } else if w.link == Resyncing {
      SettlingEndsAtHeld(w.log, open, w.flat, b.lastSeq, w.wire, w.sent, w.sent);
      SettlingEndsAtHeld(w.log, open, w.flat, b.lastSeq, w.wire, w.sent, w.sent + 1);
    }
  }

  lemma SendAndAnswerKeepInSync(w: World, e: Event, open: string)
    requires InSync(w, open) && (e.Send? || e.Handle?) && Enabled(w, e, open) && Harmless(w, e, open)
    ensures InSync(Next(w, e, open), open)
  {
    hide ChunksOf, Text, Gapless, GaplessAfterAnswer, ViewOf, Retained, HasAnswer, HeldAfter, HeldFromAnswer;
    var b := BufferOf(w, open);
    if e.Handle? {
      assert w.asks[0] in w.asks;
      if w.link == Online {
        GaplessWithAnswer(w.log, open, w.flat, b.lastSeq, w.wire, w.sent, w.asks[0]);
      } else {
        SettlingWithAnswerIff(w.log, open, w.flat, b.lastSeq, w.wire, w.sent, w.asks[0]);
      }
    } else if e.copies == 0 {
      SilentLossIsHarmlessIff(w, open);
    } else if w.link != Down {
      WithCopies(w.log, open, w.flat, b.lastSeq, w.wire, w.sent, e.copies);
    }
  }

  lemma EmptyWire(w: World, open: string)
    requires w.sent <= |w.log| && 0 <= BufferOf(w, open).lastSeq
    ensures GaplessAfterAnswer(w.log, open, w.flat, BufferOf(w, open).lastSeq, [], w.sent)
  {
  }

  lemma NextKeepsInv(w: World, e: Event, open: string)
    requires Inv(w, open) && Enabled(w, e, open) && Harmless(w, e, open)
    ensures Inv(Next(w, e, open), open)
    ensures BufferOf(w, open).lastSeq <= BufferOf(Next(w, e, open), open).lastSeq
  {
    hide Gapless, GaplessAfterAnswer, ShowsSuffix, ViewOf, Retained, ChunksOf;
    match e
    case Emit(_, _) => EmitKeepsInv(w, e, open);
    case Send(_) => SendAndAnswerKeepInSync(w, e, open);
    case Handle => SendAndAnswerKeepInSync(w, e, open);
    case Deliver =>
      if w.wire[0].Answer? {
        AnswerKeepsInv(w, open);
      } else {
        OutputKeepsInv(w, open);
      }
    case Disconnect => EmptyWire(w, open);
    case Resume => EmptyWire(w, open);
    case Ask(_) =>
  }

  lemma NothingShown(open: string, flat: bool)
    ensures Inv(Init(flat), open)
  {
    assert Text(ChunksOf([], open)) == "";
  }

  // ---- Results over whole runs ------------------------------------------------------------

  /** Over any run, the text of the open session is always a suffix of the session's output up to the last number
      the phone counts: no gap, no reordering, no duplicate. */
  lemma {:induction false} OpenSessionShowsSuffix(ws: seq<World>, es: seq<Event>, open: string, i: nat)
    requires IsHarmlessRun(ws, es, open) && i < |ws|
    ensures Inv(ws[i], open) && ShowsSuffix(ws[i].log, open, BufferOf(ws[i], open))
  {
    hide Next, InSync;
    if i == 0 {
      NothingShown(open, ws[0].flat);
    } else {
      OpenSessionShowsSuffix(ws, es, open, i - 1);
      assert Step(ws[i - 1], es[i - 1], ws[i], open) && Harmless(ws[i - 1], es[i - 1], open);
      NextKeepsInv(ws[i - 1], es[i - 1], open);
    }
  }

  /** The last number counted never goes back, not even across a snapshot. */
  lemma {:induction false} LastSeqNeverDecreases(ws: seq<World>, es: seq<Event>, open: string, i: nat, j: nat)
    requires IsHarmlessRun(ws, es, open) && i <= j < |ws|
    ensures BufferOf(ws[i], open).lastSeq <= BufferOf(ws[j], open).lastSeq
    decreases j
  {
    hide Inv, Next;
    if i < j {
      LastSeqNeverDecreases(ws, es, open, i, j - 1);
      OpenSessionShowsSuffix(ws, es, open, j - 1);
      assert Step(ws[j - 1], es[j - 1], ws[j], open) && Harmless(ws[j - 1], es[j - 1], open);
      NextKeepsInv(ws[j - 1], es[j - 1], open);
    }
  }

  /** Once online with everything sent and delivered, the phone is level with the desktop. */
  lemma QuiescentPhoneIsCurrent(ws: seq<World>, es: seq<Event>, open: string, i: nat)
    requires IsHarmlessRun(ws, es, open) && i < |ws|
    requires ws[i].link == Online && ws[i].wire == [] && ws[i].sent == |ws[i].log|
    ensures BufferOf(ws[i], open).lastSeq == Last(ws[i].log, open, |ws[i].log|)
  {
    OpenSessionShowsSuffix(ws, es, open, i);
  }

  // ---- What a harmful step costs ----------------------------------------------------------

  lemma DeliveryKeepsWillHold(w: World, open: string)
    requires Inv(w, open) && w.wire != [] && Settles(w)
    ensures Settles(DeliverFirst(w, open)) && WillHold(DeliverFirst(w, open), open) == WillHold(w, open)
  {
    hide ChunksOf, Text, ApplyView, Retained, ViewOf, ShowsSuffix, TrimText, Append, HasAnswer, Last;
    var m, b := w.wire[0], BufferOf(w, open);
    HasAnswerFirst(w.wire);
    if m.Answer? {
      AnswerCatchesUp(w.log, open, b, m);
      LiveKeeps(b);
    } else {
      AppendSkipsOld(b, m.chunk);
    }
  }

  lemma HasAnswerFirst(wire: seq<Message>)
    requires wire != []
    ensures HasAnswer(wire) <==> wire[0].Answer? || HasAnswer(wire[1..])
  {
  }

  /** What the phone will hold is what it holds when everything on the wire is delivered. */
  lemma {:induction false} DrainedHolds(w: World, open: string)
    requires Inv(w, open) && Settles(w)
    ensures Drained(w, open).link == Online && BufferOf(Drained(w, open), open).lastSeq == WillHold(w, open)
    decreases |w.wire|
  {
    hide Inv, HeldAfter, HeldFromAnswer, BufferOf;
    if w.wire == [] {
      NothingOnTheWire(w, open);
    } else {
      assert Enabled(w, Deliver, open) && Next(w, Deliver, open) == DeliverFirst(w, open);
      NextKeepsInv(w, Deliver, open);
      DeliveryKeepsWillHold(w, open);
      DrainedHolds(DeliverFirst(w, open), open);
    }
  }

  lemma NothingOnTheWire(w: World, open: string)
    requires w.wire == [] && Settles(w)
    ensures w.link == Online && WillHold(w, open) == BufferOf(w, open).lastSeq
  {
  }

  lemma {:induction false} DrainingIgnoresSent(w: World, sent: nat, open: string)
    ensures Drained(w.(sent := sent), open) == Drained(w, open).(sent := sent)
    decreases |w.wire|
  {
    if w.wire != [] {
      assert DeliverFirst(w.(sent := sent), open) == DeliverFirst(w, open).(sent := sent);
      DrainingIgnoresSent(DeliverFirst(w, open), sent, open);
    }
  }

  /** A resynchronising phone drops everything in front of the first answer. */
  lemma {:induction false} DrainingDropsOutput(w: World, front: seq<Message>, m: Message, open: string)
    requires w.link == Resyncing && w.wire == front + [m] && !HasAnswer(front) && m.Answer? && Ignored(w.flat, m.view)
    ensures Drained(w, open) == w.(wire := [], link := Online)
    decreases |front|
  {
    if front == [] {
      assert w.wire == [m] && [m][1..] == [];
      assert Drained(w.(wire := [], link := Online), open) == w.(wire := [], link := Online);
    } else {
      assert (front + [m])[0] == front[0] && (front + [m])[1..] == front[1..] + [m];
      DrainingDropsOutput(w.(wire := front[1..] + [m]), front[1..], m, open);
    }
  }

  lemma {:induction false} AnswerBehind(front: seq<Message>, m: Message)
    requires m.Answer?
    ensures HasAnswer(front + [m])
  {
    if front != [] {
      assert (front + [m])[0] == front[0] && (front + [m])[1..] == front[1..] + [m];
      AnswerBehind(front[1..], m);
    }
  }

  /** As long as the messages on the way complete what the phone holds, it is not behind. */
  lemma InSyncIsNotBehind(w: World, open: string)
    requires Inv(w, open)
    ensures !Behind(w, open)
  {
    hide Gapless, HeldAfter, HeldFromAnswer, GaplessAfterAnswer, ShowsSuffix, HasAnswer, Drained;
    if Settles(w) {
      DrainedHolds(w, open);
      var b := BufferOf(w, open);
      if w.link == Online {
        GaplessEndsAtHeld(w.log, open, w.flat, b.lastSeq, w.wire, w.sent, w.sent);
      } else {
        SettlingEndsAtHeld(w.log, open, w.flat, b.lastSeq, w.wire, w.sent, w.sent);
      }
    }
  }

  /** A harmful step leaves the phone behind: even when everything on its way has been delivered and it is online, it
      lacks output of the open session that will not be sent any more. */
  lemma HarmLeavesBehind(w: World, e: Event, open: string)
    requires Inv(w, open) && Enabled(w, e, open) && !Harmless(w, e, open)
    ensures Behind(Next(w, e, open), open)
  {
    hide Gapless, HeldAfter, HeldFromAnswer, GaplessAfterAnswer, ShowsSuffix, HasAnswer, Drained, AnswerNow, BufferOf;
    if e.Send? {
      LosingIsOnlyCounting(w, open);
      DrainedHolds(w, open);
      DrainingIgnoresSent(w, w.sent + 1, open);
      SamePhone(Drained(w, open), w.sent + 1, open);
    } else {
      var m := AnswerNow(w.log, open, w.asks[0]);
      assert m.Answer? by { AnswerIsAnswer(w.log, open, w.asks[0]); }
      var next := Next(w, e, open);
      AnswerBehind(w.wire, m);
      DrainingDropsOutput(next, w.wire, m, open);
      NewAnswerKeepsPhone(w, e, open);
    }
  }

  lemma SamePhone(w: World, sent: nat, open: string)
    ensures BufferOf(w.(sent := sent), open) == BufferOf(w, open)
  {
  }

  lemma AnswerIsAnswer(log: seq<Record>, open: string, after: Option<int>)
    ensures AnswerNow(log, open, after).Answer?
  {
  }

  lemma NewAnswerKeepsPhone(w: World, e: Event, open: string)
    requires Enabled(w, e, open) && e.Handle?
    ensures var next := Next(w, e, open);
      && BufferOf(next.(wire := [], link := Online), open) == BufferOf(w, open)
      && NewestSent(next, open) == NewestSent(w, open)
  {
  }

  lemma {:induction false} ChunkIsRecord(log: seq<Record>, open: string, c: Chunk)
    requires c in ChunksOf(log, open)
    ensures 1 <= c.no <= |log| && log[c.no - 1].session == open
  {
    var n := |log| - 1;
    if !(log[n].session == open && c == Chunk(n + 1, log[n].data)) {
      ChunkIsRecord(log[..n], open, c);
    }
  }

  lemma {:induction false} RecordIsChunk(log: seq<Record>, open: string, n: nat)
    requires 0 < n <= |log| && log[n - 1].session == open
    ensures Chunk(n, log[n - 1].data) in ChunksOf(log, open)
  {
    if n < |log| {
      RecordIsChunk(log[..|log| - 1], open, n);
    }
  }

  lemma {:induction false} LastIsNewest(log: seq<Record>, open: string, n: nat, sent: nat)
    requires 0 < n <= sent <= |log| && log[n - 1].session == open
    ensures n <= Last(log, open, sent)
    decreases sent
  {
    if n < sent {
      LastIsNewest(log, open, n, sent - 1);
    }
  }

  /** What an ignored replay costs, told from the chunks it carries: nothing, exactly when every one that is newer than
      the phone's number is still going to be sent as an event. */
  lemma IgnoredReplayIsHarmlessIff(w: World, open: string)
    requires InSync(w, open) && Enabled(w, Handle, open) && !Settles(w)
    requires Ignored(w.flat, AnswerNow(w.log, open, w.asks[0]).view)
    ensures Harmless(w, Handle, open) <==>
            forall c :: c in AnswerNow(w.log, open, w.asks[0]).view.events && c.no > BufferOf(w, open).lastSeq ==>
              c.no > w.sent
  {
    hide Retained, Gapless, GaplessAfterAnswer, HasAnswer, ChunksOf, Last;
    var b, history := BufferOf(w, open), ChunksOf(w.log, open);
    var events := AnswerNow(w.log, open, w.asks[0]).view.events;
    assert w.asks[0] in w.asks;
    ReplayAsksByNumber(history, w.asks[0]);
    ChunksAreNumbered(w.log, open);
    var stale := ReplayCoversTheRest(history, w.asks[0].value);
    var n := NewestSent(w, open);
    if n <= b.lastSeq {
      forall c | c in events && c.no > b.lastSeq ensures c.no > w.sent {
        assert c in history;
        ChunkIsRecord(w.log, open, c);
        if c.no <= w.sent {
          LastIsNewest(w.log, open, c.no, w.sent);
        }
      }
    } else {
      RecordIsChunk(w.log, open, n);
      var c := Chunk(n, w.log[n - 1].data);
      assert c in stale + events && c !in stale;
    }
  }

  /** Over whole runs, with replay items in their envelopes or flat: the phone is never left behind exactly when every
      step is harmless. */
  lemma NeverBehindIff(ws: seq<World>, es: seq<Event>, open: string)
    requires IsRun(ws, es, open)
    ensures (forall i :: 0 <= i < |ws| ==> !Behind(ws[i], open)) <==> IsHarmlessRun(ws, es, open)
  {
    hide Behind, Harmless, Next, Inv, Enabled;
    if IsHarmlessRun(ws, es, open) {
      forall i | 0 <= i < |ws| ensures !Behind(ws[i], open) {
        OpenSessionShowsSuffix(ws, es, open, i);
        InSyncIsNotBehind(ws[i], open);
      }
    } else {
      var i := FirstHarm(ws, es, open);
      assert Step(ws[i], es[i], ws[i + 1], open);
      OpenSessionShowsSuffix(ws[..i + 1], es[..i], open, i);
      HarmLeavesBehind(ws[i], es[i], open);
    }
  }

  /** The first harmful step of a run; the run up to it is harmless. */
  lemma FirstHarm(ws: seq<World>, es: seq<Event>, open: string) returns (i: nat)
    requires IsRun(ws, es, open) && !IsHarmlessRun(ws, es, open)
    ensures i < |es| && Enabled(ws[i], es[i], open) && !Harmless(ws[i], es[i], open)
    ensures IsHarmlessRun(ws[..i + 1], es[..i], open)
  {
    hide Harmless, Next, Enabled;
    i := 0;
    forall k | 0 <= k < |es| ensures Enabled(ws[k], es[k], open) {
      assert Step(ws[k], es[k], ws[k + 1], open);
    }
    while i < |es| && Harmless(ws[i], es[i], open)
      invariant i <= |es|
      invariant forall k :: 0 <= k < i ==> Enabled(ws[k], es[k], open) && Harmless(ws[k], es[k], open)
    {
      i := i + 1;
    }
  }

  /** Such a loss is visible: after "a" delivered, "b" lost and "c" delivered the phone shows "ac". */
  lemma SilentLossLeavesGap(open: string)
    ensures IsRun(GapRun(open), GapEvents(open), open)
    ensures var w := GapRun(open)[12]; !ShowsSuffix(w.log, open, BufferOf(w, open))
  {
    hide ShowsSuffix, Step;
    GapRunAsks(open);
    GapRunIsAnswered(open);
    GapRunPrintsA(open);
    GapRunShowsA(open);
    GapRunLosesB(open);
    GapRunPrintsC(open);
    GapRunShowsC(open);
    GapIsVisible(open);
  }

  function GapEvents(open: string): seq<Event> {
    [Resume, Ask(None), Handle, Deliver, Emit(open, "a"), Send(1), Deliver,
     Emit(open, "b"), Send(0), Emit(open, "c"), Send(1), Deliver]
  }

  function GapRun(open: string): seq<World> {
    var a, b, c := Record(open, "a"), Record(open, "b"), Record(open, "c");
    var p1 := map[open := Buffer("a", 1)];
    [Init(false),
     World([], 0, [], [], Resyncing, map[], false),
     World([], 0, [], [None], Resyncing, map[], false),
     World([], 0, [Answer(Live, None, 0)], [], Resyncing, map[], false),
     World([], 0, [], [], Online, map[], false),
     World([a], 0, [], [], Online, map[], false),
     World([a], 1, [Output(open, Chunk(1, "a"))], [], Online, map[], false),
     World([a], 1, [], [], Online, p1, false),
     World([a, b], 1, [], [], Online, p1, false),
     World([a, b], 2, [], [], Online, p1, false),
     World([a, b, c], 2, [], [], Online, p1, false),
     World([a, b, c], 3, [Output(open, Chunk(3, "c"))], [], Online, p1, false),
     World([a, b, c], 3, [], [], Online, map[open := Buffer("ac", 3)], false)]
  }

  lemma GapRunAsks(open: string)
    ensures var ws, es := GapRun(open), GapEvents(open);
            forall i :: 0 <= i < 2 ==> Step(ws[i], es[i], ws[i + 1], open)
  {
    hide Retained, ChunksOf, ViewOf, Append, Copies;
    SmallWorldFacts(open);
    var ws, es := GapRun(open), GapEvents(open);
    assert Step(ws[0], es[0], ws[1], open) && Step(ws[1], es[1], ws[2], open);
  }

  lemma GapRunIsAnswered(open: string)
    ensures var ws, es := GapRun(open), GapEvents(open);
            forall i :: 2 <= i < 4 ==> Step(ws[i], es[i], ws[i + 1], open)
  {
    hide Retained, ChunksOf, ViewOf, Append, Copies;
    SmallWorldFacts(open);
    var ws, es := GapRun(open), GapEvents(open);
    assert Step(ws[2], es[2], ws[3], open) && Step(ws[3], es[3], ws[4], open);
  }

  lemma GapRunPrintsA(open: string)
    ensures var ws, es := GapRun(open), GapEvents(open);
            forall i :: 4 <= i < 6 ==> Step(ws[i], es[i], ws[i + 1], open)
  {
    hide Retained, ChunksOf, ViewOf, Append, Copies;
    SmallWorldFacts(open);
    var ws, es := GapRun(open), GapEvents(open);
    assert Step(ws[4], es[4], ws[5], open) && Step(ws[5], es[5], ws[6], open);
  }

  lemma GapRunShowsA(open: string)
    ensures var ws, es := GapRun(open), GapEvents(open);
            forall i :: 6 <= i < 7 ==> Step(ws[i], es[i], ws[i + 1], open)
  {
    hide Retained, ChunksOf, ViewOf, Append, Copies;
    SmallWorldFacts(open);
    var ws, es := GapRun(open), GapEvents(open);
    assert Step(ws[6], es[6], ws[7], open);
  }

  lemma GapRunLosesB(open: string)
    ensures var ws, es := GapRun(open), GapEvents(open);
            forall i :: 7 <= i < 9 ==> Step(ws[i], es[i], ws[i + 1], open)
  {
    hide Retained, ChunksOf, ViewOf, Append, Copies;
    SmallWorldFacts(open);
    LosingIsOnlyCounting(GapRun(open)[8], open);
    var ws, es := GapRun(open), GapEvents(open);
    assert Step(ws[7], es[7], ws[8], open) && Step(ws[8], es[8], ws[9], open);
  }

  lemma GapRunPrintsC(open: string)
    ensures var ws, es := GapRun(open), GapEvents(open);
            forall i :: 9 <= i < 11 ==> Step(ws[i], es[i], ws[i + 1], open)
  {
    hide Retained, ChunksOf, ViewOf, Append, Copies;
    SmallWorldFacts(open);
    var ws, es := GapRun(open), GapEvents(open);
    assert Step(ws[9], es[9], ws[10], open) && Step(ws[10], es[10], ws[11], open);
  }

  lemma GapRunShowsC(open: string)
    ensures var ws, es := GapRun(open), GapEvents(open);
            forall i :: 11 <= i < 12 ==> Step(ws[i], es[i], ws[i + 1], open)
  {
    hide Retained, ChunksOf, ViewOf, Append, Copies;
    SmallWorldFacts(open);
    var ws, es := GapRun(open), GapEvents(open);
    assert Step(ws[11], es[11], ws[12], open);
  }

  lemma SmallWorldFacts(open: string)
    ensures Copies(Output(open, Chunk(1, "a")), 1) == [Output(open, Chunk(1, "a"))]
    ensures Copies(Output(open, Chunk(3, "c")), 1) == [Output(open, Chunk(3, "c"))]
    ensures ViewOf(Retained(ChunksOf([], open)), None) == Live
    ensures Append(EMPTY, Chunk(1, "a")) == Buffer("a", 1)
    ensures Append(Buffer("a", 1), Chunk(3, "c")) == Buffer("ac", 3)
  {
    assert EMPTY.text + "a" == "a" && "a" + "c" == "ac";
  }

  lemma GapIsVisible(open: string)
    ensures !ShowsSuffix([Record(open, "a"), Record(open, "b"), Record(open, "c")], open, Buffer("ac", 3))
  {
    var log := [Record(open, "a"), Record(open, "b"), Record(open, "c")];
    assert log[..3] == log && log[..2] == [Record(open, "a"), Record(open, "b")];
    assert log[..2][..1] == [Record(open, "a")];
    assert ChunksOf([Record(open, "a")], open) == [Chunk(1, "a")];
    assert ChunksOf(log[..2], open) == [Chunk(1, "a"), Chunk(2, "b")];
    assert ChunksOf(log, open) == [Chunk(1, "a"), Chunk(2, "b"), Chunk(3, "c")];
    assert Text([Chunk(3, "c")]) == "c";
    assert Text([Chunk(2, "b"), Chunk(3, "c")]) == "bc";
    assert Text([Chunk(1, "a"), Chunk(2, "b"), Chunk(3, "c")]) == "abc";
    assert "abc"[1..][0] == 'b' && "ac"[0] == 'a';
  }

  // ---- A replay that is ignored -----------------------------------------------------------

  /** Flat replay items leave the same gap without any loss while the phone is connected: "b" is recorded while the
      phone is away, the replay that carries it is ignored, and after "c" the phone shows "ac". */
  lemma FlatReplayLeavesGap(open: string)
    ensures IsRun(FlatRun(open), FlatEvents(open), open)
    ensures forall i :: 0 <= i < |FlatEvents(open)| ==>
              FlatEvents(open)[i] == Send(0) ==> FlatRun(open)[i].link == Down
    ensures var w := FlatRun(open)[17]; !ShowsSuffix(w.log, open, BufferOf(w, open))
  {
    hide ShowsSuffix, Step;
    FlatRunAsks(open);
    FlatRunIsAnswered(open);
    FlatRunPrintsA(open);
    FlatRunShowsA(open);
    FlatRunPrintsB(open);
    FlatRunAsksAgain(open);
    FlatRunIgnoresB(open);
    FlatRunPrintsC(open);
    FlatRunShowsC(open);
    GapIsVisible(open);
  }

  function FlatEvents(open: string): seq<Event> {
    [Resume, Ask(None), Handle, Deliver, Emit(open, "a"), Send(1), Deliver,
     Disconnect, Emit(open, "b"), Send(0), Resume, Ask(Some(1)), Handle, Deliver,
     Emit(open, "c"), Send(1), Deliver]
  }

  function FlatRun(open: string): seq<World> {
    var a, b, c := Record(open, "a"), Record(open, "b"), Record(open, "c");
    var p1 := map[open := Buffer("a", 1)];
    [Init(true),
     World([], 0, [], [], Resyncing, map[], true),
     World([], 0, [], [None], Resyncing, map[], true),
     World([], 0, [Answer(Live, None, 0)], [], Resyncing, map[], true),
     World([], 0, [], [], Online, map[], true),
     World([a], 0, [], [], Online, map[], true),
     World([a], 1, [Output(open, Chunk(1, "a"))], [], Online, map[], true),
     World([a], 1, [], [], Online, p1, true),
     World([a], 1, [], [], Down, p1, true),
     World([a, b], 1, [], [], Down, p1, true),
     World([a, b], 2, [], [], Down, p1, true),
     World([a, b], 2, [], [], Resyncing, p1, true),
     World([a, b], 2, [], [Some(1)], Resyncing, p1, true),
     World([a, b], 2, [Answer(Replayed([Chunk(2, "b")]), Some(1), 2)], [], Resyncing, p1, true),
     World([a, b], 2, [], [], Online, p1, true),
     World([a, b, c], 2, [], [], Online, p1, true),
     World([a, b, c], 3, [Output(open, Chunk(3, "c"))], [], Online, p1, true),
     World([a, b, c], 3, [], [], Online, map[open := Buffer("ac", 3)], true)]
  }

  lemma FlatRunAsks(open: string)
    ensures var ws, es := FlatRun(open), FlatEvents(open);
            forall i :: 0 <= i < 2 ==> Step(ws[i], es[i], ws[i + 1], open)
  {
    hide Retained, ChunksOf, ViewOf, Append, Copies;
    SmallWorldFacts(open);
    var ws, es := FlatRun(open), FlatEvents(open);
    assert Step(ws[0], es[0], ws[1], open) && Step(ws[1], es[1], ws[2], open);
  }

  lemma FlatRunIsAnswered(open: string)
    ensures var ws, es := FlatRun(open), FlatEvents(open);
            forall i :: 2 <= i < 4 ==> Step(ws[i], es[i], ws[i + 1], open)
  {
    hide Retained, ChunksOf, ViewOf, Append, Copies;
    SmallWorldFacts(open);
    var ws, es := FlatRun(open), FlatEvents(open);
    assert Step(ws[2], es[2], ws[3], open) && Step(ws[3], es[3], ws[4], open);
  }

  lemma FlatRunPrintsA(open: string)
    ensures var ws, es := FlatRun(open), FlatEvents(open);
            forall i :: 4 <= i < 6 ==> Step(ws[i], es[i], ws[i + 1], open)
  {
    hide Retained, ChunksOf, ViewOf, Append, Copies;
    SmallWorldFacts(open);
    var ws, es := FlatRun(open), FlatEvents(open);
    assert Step(ws[4], es[4], ws[5], open) && Step(ws[5], es[5], ws[6], open);
  }

  lemma FlatRunShowsA(open: string)
    ensures var ws, es := FlatRun(open), FlatEvents(open);
            forall i :: 6 <= i < 8 ==> Step(ws[i], es[i], ws[i + 1], open)
  {
    hide Retained, ChunksOf, ViewOf, Append, Copies;
    SmallWorldFacts(open);
    var ws, es := FlatRun(open), FlatEvents(open);
    assert Step(ws[6], es[6], ws[7], open) && Step(ws[7], es[7], ws[8], open);
  }

  lemma FlatRunPrintsB(open: string)
    ensures var ws, es := FlatRun(open), FlatEvents(open);
            forall i :: 8 <= i < 10 ==> Step(ws[i], es[i], ws[i + 1], open)
  {
    hide Retained, ChunksOf, ViewOf, Append, Copies;
    SmallWorldFacts(open);
    var ws, es := FlatRun(open), FlatEvents(open);
    assert Step(ws[8], es[8], ws[9], open) && Step(ws[9], es[9], ws[10], open);
  }

  lemma FlatRunAsksAgain(open: string)
    ensures var ws, es := FlatRun(open), FlatEvents(open);
            forall i :: 10 <= i < 12 ==> Step(ws[i], es[i], ws[i + 1], open)
  {
    hide Retained, ChunksOf, ViewOf, Append, Copies;
    SmallWorldFacts(open);
    var ws, es := FlatRun(open), FlatEvents(open);
    assert Step(ws[10], es[10], ws[11], open) && Step(ws[11], es[11], ws[12], open);
  }

  lemma FlatRunIgnoresB(open: string)
    ensures var ws, es := FlatRun(open), FlatEvents(open);
            forall i :: 12 <= i < 14 ==> Step(ws[i], es[i], ws[i + 1], open)
  {
    hide Retained, ChunksOf, ViewOf, Append, Copies;
    SmallWorldFacts(open);
    ReplayOfB(open);
    var ws, es := FlatRun(open), FlatEvents(open);
    assert Step(ws[12], es[12], ws[13], open) && Step(ws[13], es[13], ws[14], open);
  }

  lemma FlatRunPrintsC(open: string)
    ensures var ws, es := FlatRun(open), FlatEvents(open);
            forall i :: 14 <= i < 16 ==> Step(ws[i], es[i], ws[i + 1], open)
  {
    hide Retained, ChunksOf, ViewOf, Append, Copies;
    SmallWorldFacts(open);
    var ws, es := FlatRun(open), FlatEvents(open);
    assert Step(ws[14], es[14], ws[15], open) && Step(ws[15], es[15], ws[16], open);
  }

  lemma FlatRunShowsC(open: string)
    ensures var ws, es := FlatRun(open), FlatEvents(open);
            forall i :: 16 <= i < 17 ==> Step(ws[i], es[i], ws[i + 1], open)
  {
    hide Retained, ChunksOf, ViewOf, Append, Copies;
    SmallWorldFacts(open);
    var ws, es := FlatRun(open), FlatEvents(open);
    assert Step(ws[16], es[16], ws[17], open);
  }

  lemma ReplayOfB(open: string)
    ensures ViewOf(Retained(ChunksOf([Record(open, "a"), Record(open, "b")], open)), Some(1))
         == Replayed([Chunk(2, "b")])
  {
    var log := [Record(open, "a"), Record(open, "b")];
    assert log[..1] == [Record(open, "a")];
    assert ChunksOf([Record(open, "a")], open) == [Chunk(1, "a")];
    var history := ChunksOf(log, open);
    assert history == [Chunk(1, "a"), Chunk(2, "b")];
    assert Size(history[1..]) == 1;
    assert Retained(history) == history;
    assert After(1, history[1..]) == [Chunk(2, "b")];
  }
}
