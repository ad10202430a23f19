/** Structured interactions: prompts detected in a session's settled output, answered from a phone
    (apps/desktop/cucoudle_desktop/daemon.py), and their mirror in the phone's reducer
    (apps/mobile/src/state/sessionReducer.ts).

    `trace` records, in order, the events emitted towards the phone and the bytes an answer writes to a PTY.
    Interaction ids are random in the program and fresh here. */
module Interactions {
  import opened Options
  import opened Sequences

  datatype Status = Running | Waiting | Stopped

  /** What tells a re-rendered prompt from a new one. */
  datatype Signature = Signature(kind: string, prompt: string, options: seq<(string, string)>)

  datatype Prompt = Prompt(signature: Signature, optionBytes: map<string, seq<byte>>)

  /** An interaction: its id and the prompt it was registered for. */
  datatype Asked = Asked(id: string, prompt: Prompt)

  /** A running session, registered by the shim's handler. */
  datatype Entry = Entry(
    status: Status,
    alive: bool,                       // the PTY has not exited
    active: Option<string>,
    bytes: map<string, seq<byte>>,
    signature: Option<Signature>,
    known: set<string>)

  datatype Resolution = Answered | Cancelled | Superseded | SessionEnded

  datatype Act =
    | Created(session: string)
    | Requested(session: string, asked: Asked)
    | Resolved(session: string, id: string, resolution: Resolution, optionIds: seq<string>)
    | Updated(session: string, status: Status)
    | Ended(session: string)
    | Wrote(session: string, id: string, bytes: seq<byte>)  // the answer's bytes, written to the PTY
    | PressedEnter(session: string, id: string)             // the answer's delayed Enter, written to the PTY

  datatype Desk = Desk(
    sessions: map<string, Entry>,
    enters: multiset<(string, string)>,  // armed delayed Enters: session and interaction
    trace: seq<Act>)

  datatype Detection = NoOutput | NoPrompt | Found(prompt: Prompt)

  datatype Response =
    | Options(optionIds: seq<string>)
    | TextAnswer(text: seq<byte>, submit: bool)
    | Cancel
    | UnknownType

  datatype Outcome =
    | Accepted | SessionNotFound | InteractionNotFound | InteractionStale | InvalidMessage | PtyWriteFailed

  const INIT := Desk(map[], multiset{}, [])

  // ---- The steps --------------------------------------------------------------------------

  function Create(d: Desk, session: string): Desk {
    d.(sessions := d.sessions[session := Entry(Running, true, None, map[], None, {})],
       trace := d.trace + [Created(session)])
  }

  /** Clears the active interaction; the session returns to running unless it has ended. */
  function Resolve(d: Desk, session: string, resolution: Resolution, optionIds: seq<string>): Desk {
    if session !in d.sessions || d.sessions[session].active.None? then d
    else
      var e := d.sessions[session];
      var e1 := e.(active := None, bytes := map[], signature := None);
      var resolved := Resolved(session, e.active.value, resolution, optionIds);
      if resolution != SessionEnded && e.status == Waiting then
        d.(sessions := d.sessions[session := e1.(status := Running)],
           trace := d.trace + [resolved, Updated(session, Running)])
      else
        d.(sessions := d.sessions[session := e1], trace := d.trace + [resolved])
  }

  function Register(d: Desk, session: string, prompt: Prompt, id: string): Desk {
    if session !in d.sessions then d
    else
      var e := d.sessions[session].(active := Some(id), bytes := prompt.optionBytes,
                                    signature := Some(prompt.signature),
                                    known := d.sessions[session].known + {id}, status := Waiting);
      d.(sessions := d.sessions[session := e],
         trace := d.trace + [Requested(session, Asked(id, prompt)), Updated(session, Waiting)])
  }

  /** The session's output has settled and been classified; `id` is the id a new interaction would get. */
  function Settle(d: Desk, session: string, detection: Detection, id: string): Desk {
    if session !in d.sessions || !d.sessions[session].alive || detection.NoOutput? then d
    else
      var e := d.sessions[session];
      match detection
      case NoPrompt => Resolve(d, session, Superseded, [])
      case Found(prompt) =>
        if e.active.Some? && e.signature == Some(prompt.signature) then d
        else Register(Resolve(d, session, Superseded, []), session, prompt, id)
  }

  predicate LineEnd(b: byte) {
    b in {0x0d, 0x0a}
  }

  function RightStrip(text: seq<byte>): seq<byte> {
    if text != [] && LineEnd(text[|text| - 1]) then RightStrip(text[..|text| - 1]) else text
  }

  const PASTE_START: seq<byte> := [0x1b, 0x5b, 0x32, 0x30, 0x30, 0x7e]
  const PASTE_END: seq<byte> := [0x1b, 0x5b, 0x32, 0x30, 0x31, 0x7e]

  /** The bytes a text answer writes before any Enter. */
  function TextBody(text: seq<byte>, submit: bool, bracketed: bool): seq<byte> {
    var body := if submit then RightStrip(text) else text;
    if body != [] && bracketed then PASTE_START + body + PASTE_END else body
  }

  /** The bytes a response writes to the PTY at once, none for an unknown option or an empty text. */
  function AnswerBytes(bytes: map<string, seq<byte>>, response: Response, bracketed: bool): seq<byte> {
    match response
    case Options(ids) => if ids != [] && ids[0] in bytes then bytes[ids[0]] else []
    case TextAnswer(text, submit) => TextBody(text, submit, bracketed)
    case Cancel => []
    case UnknownType => []
  }

  function Write(d: Desk, session: string, id: string, bytes: seq<byte>, writable: bool): Desk {
    if bytes != [] && writable then d.(trace := d.trace + [Wrote(session, id, bytes)]) else d
  }

  /** `writable` says whether the PTY takes the bytes and `bracketed` whether the program asked for bracketed paste. */
  function Respond(d: Desk, session: string, id: string, response: Response, writable: bool, bracketed: bool)
    : (Desk, Outcome)
  {
    if session !in d.sessions then (d, SessionNotFound)
    else if id !in d.sessions[session].known then (d, InteractionNotFound)
    else if d.sessions[session].active != Some(id) then (d, InteractionStale)
    else if response.UnknownType? then (d, InvalidMessage)
    else
      var bytes := AnswerBytes(d.sessions[session].bytes, response, bracketed);
      var resolved := Resolve(d, session, if response.Cancel? then Cancelled else Answered,
                              if response.Options? then response.optionIds else []);
      var written := Write(resolved, session, id, bytes, writable);
      if bytes != [] && !writable then (written, PtyWriteFailed)
      else if response.TextAnswer? && response.submit then
        (written.(enters := written.enters + multiset{(session, id)}), Accepted)
      else (written, Accepted)
  }

  /** A delayed Enter fires; a session that has exited meanwhile swallows it. */
  function FireEnter(d: Desk, session: string, id: string): Desk {
    var d1 := d.(enters := d.enters - multiset{(session, id)});
    if session in d.sessions && d.sessions[session].alive then d1.(trace := d.trace + [PressedEnter(session, id)])
    else d1
  }

  function Exit(d: Desk, session: string): Desk {
    if session !in d.sessions then d
    else
      var d1 := Resolve(d, session, SessionEnded, []);
      d1.(sessions := d1.sessions[session := d1.sessions[session].(status := Stopped, alive := false)],
          trace := d1.trace + [Ended(session)])
  }

  // ---- What a trace means -----------------------------------------------------------------

  /** The interaction of `session` requested and not resolved yet. */
  function Open(trace: seq<Act>, session: string): Option<Asked> {
    if trace == [] then None
    else
      var last, front := trace[|trace| - 1], trace[..|trace| - 1];
      if last.Requested? && last.session == session then Some(last.asked)
      else if last.Resolved? && last.session == session then None
      else Open(front, session)
  }

  function RequestedIds(trace: seq<Act>): set<string> {
    if trace == [] then {}
    else
      var last := trace[|trace| - 1];
      RequestedIds(trace[..|trace| - 1]) + (if last.Requested? then {last.asked.id} else {})
  }

  function ResolvedIds(trace: seq<Act>): set<string> {
    if trace == [] then {}
    else
      var last := trace[|trace| - 1];
      ResolvedIds(trace[..|trace| - 1]) + (if last.Resolved? then {last.id} else {})
  }

  function EnteredIds(trace: seq<Act>): set<string> {
    if trace == [] then {}
    else
      var last := trace[|trace| - 1];
      EnteredIds(trace[..|trace| - 1]) + (if last.PressedEnter? then {last.id} else {})
  }

  /** Whether `act` may follow `front`: requests have new ids and wait for the previous one to be resolved, only the
      open interaction is resolved, an answer is written right after its resolution, an option's answer with the
      bytes bound when the interaction was requested, and Enter is pressed once, after the resolution. */
  predicate Follows(front: seq<Act>, act: Act) {
    match act
    case Requested(s, asked) => Open(front, s).None? && asked.id !in RequestedIds(front)
    case Resolved(s, id, _, _) => Open(front, s).Some? && Open(front, s).value.id == id
    case Wrote(s, id, bytes) =>
      && |front| >= 2
      && var n := |front| - 2;
         && front[n + 1] == Updated(s, Running)
         && front[n].Resolved? && front[n].session == s && front[n].id == id && front[n].resolution == Answered
         && Open(front[..n], s).Some?
         && (front[n].optionIds != [] ==>
             var bound := Open(front[..n], s).value.prompt.optionBytes;
             front[n].optionIds[0] in bound && bytes == bound[front[n].optionIds[0]])
    case PressedEnter(s, id) => id in ResolvedIds(front) && id !in EnteredIds(front)
    case _ => true
  }

  predicate Orderly(trace: seq<Act>) {
    trace == [] || (Orderly(trace[..|trace| - 1]) && Follows(trace[..|trace| - 1], trace[|trace| - 1]))
  }

  lemma {:induction false} OrderlyPrefix(trace: seq<Act>, n: nat)
    requires Orderly(trace) && n <= |trace|
    ensures Orderly(trace[..n])
    ensures n < |trace| ==> Follows(trace[..n], trace[n])
  {
    var m := |trace| - 1;
    if n == |trace| {
      assert trace[..n] == trace;
    } else if n < m {
      OrderlyPrefix(trace[..m], n);
      assert trace[..m][..n] == trace[..n];
    }
  }

  lemma {:induction false} ResolvedWereRequested(trace: seq<Act>)
    requires Orderly(trace)
    ensures ResolvedIds(trace) <= RequestedIds(trace)
  {
    if trace != [] {
      var front, last := trace[..|trace| - 1], trace[|trace| - 1];
      ResolvedWereRequested(front);
      if last.Resolved? {
        OpenWasRequested(front, last.session);
      }
    }
  }

  lemma {:induction false} OpenWasRequested(trace: seq<Act>, session: string)
    ensures Open(trace, session).Some? ==> Open(trace, session).value.id in RequestedIds(trace)
  {
    if trace != [] {
      OpenWasRequested(trace[..|trace| - 1], session);
    }
  }

  /** An open interaction is of one session only and has never been resolved. */
  lemma {:induction false} OpenIsUnresolved(trace: seq<Act>, session: string, other: string)
    requires Orderly(trace) && Open(trace, session).Some?
    ensures Open(trace, session).value.id !in ResolvedIds(trace)
    ensures other != session && Open(trace, other).Some? ==>
              Open(trace, other).value.id != Open(trace, session).value.id
  {
    hide Orderly;
    var front, last := trace[..|trace| - 1], trace[|trace| - 1];
    OrderlyPrefix(trace, |trace| - 1);
    OpenWasRequested(front, session);
    OpenWasRequested(front, other);
    ResolvedWereRequested(front);
    if last.Requested? && last.session == session {
    } else {
      OpenIsUnresolved(front, session, other);
      if last.Resolved? {
        OpenIsUnresolved(front, session, last.session);
      }
    }
  }

  lemma {:induction false} IdsAppearInPrefixes(trace: seq<Act>, i: nat)
    requires i < |trace|
    ensures trace[i].Requested? ==> trace[i].asked.id in RequestedIds(trace)
    ensures trace[i].Resolved? ==> trace[i].id in ResolvedIds(trace)
    ensures trace[i].PressedEnter? ==> trace[i].id in EnteredIds(trace)
  {
    if i < |trace| - 1 {
      IdsAppearInPrefixes(trace[..|trace| - 1], i);
    }
  }

  /** An answer is written two acts after its resolution, and nothing is written in between. */
  lemma WrittenAfterResolution(trace: seq<Act>, i: nat)
    requires Orderly(trace) && i < |trace| && trace[i].Wrote?
    ensures i >= 2 && trace[i - 2].Resolved? && trace[i - 2].id == trace[i].id && trace[i - 1].Updated?
  {
    hide Orderly, Open;
    OrderlyPrefix(trace, i);
    assert trace[..i][i - 2] == trace[i - 2] && trace[..i][i - 1] == trace[i - 1];
  }

  /** In an orderly trace every interaction is requested, resolved, answered on the PTY and completed with Enter at
      most once, whatever its session. */
  lemma AtMostOnce(trace: seq<Act>, i: nat, j: nat)
    requires Orderly(trace) && i < j < |trace|
    ensures trace[i].Requested? && trace[j].Requested? ==> trace[i].asked.id != trace[j].asked.id
    ensures trace[i].Resolved? && trace[j].Resolved? ==> trace[i].id != trace[j].id
    ensures trace[i].Wrote? && trace[j].Wrote? ==> trace[i].id != trace[j].id
    ensures trace[i].PressedEnter? && trace[j].PressedEnter? ==> trace[i].id != trace[j].id
  {
    hide Orderly, Open;
    ActsAreNew(trace, i, j);
    if trace[i].Wrote? && trace[j].Wrote? {
      WrittenAfterResolution(trace, i);
      WrittenAfterResolution(trace, j);
      ActsAreNew(trace, i - 2, j - 2);
    }
  }

  lemma ActsAreNew(trace: seq<Act>, i: nat, j: nat)
    requires Orderly(trace) && i < j < |trace|
    ensures trace[i].Requested? && trace[j].Requested? ==> trace[i].asked.id != trace[j].asked.id
    ensures trace[i].Resolved? && trace[j].Resolved? ==> trace[i].id != trace[j].id
    ensures trace[i].PressedEnter? && trace[j].PressedEnter? ==> trace[i].id != trace[j].id
  {
    hide Orderly, Open;
    OrderlyPrefix(trace, j);
    assert trace[..j][i] == trace[i];
    IdsAppearInPrefixes(trace[..j], i);
    if trace[j].Resolved? {
      OpenIsUnresolved(trace[..j], trace[j].session, trace[j].session);
    }
  }

  // ---- The invariant ----------------------------------------------------------------------

  /** Status, active id, binding and signature of a session agree with the detection that registered it. */
  predicate EntryAgrees(e: Entry, open: Option<Asked>) {
    && (e.status == Waiting <==> e.active.Some?)
    && (e.alive <==> e.status != Stopped)
    && (e.active.Some? <==> open.Some?)
    && (if open.Some? then
          && e.active == Some(open.value.id) && open.value.id in e.known
          && e.signature == Some(open.value.prompt.signature) && e.bytes == open.value.prompt.optionBytes
        else e.signature == None && e.bytes == map[])
  }

  ghost predicate Inv(d: Desk) {
    && Orderly(d.trace)
    && (forall s :: s in d.sessions ==> EntryAgrees(d.sessions[s], Open(d.trace, s)))
    && (forall s :: s !in d.sessions ==> Open(d.trace, s).None?)
    && (forall s :: s in d.sessions ==> d.sessions[s].known <= RequestedIds(d.trace))
    && (forall t :: t in d.enters ==> d.enters[t] == 1 && t.1 in ResolvedIds(d.trace) && t.1 !in EnteredIds(d.trace))
    && (forall t, u :: t in d.enters && u in d.enters && t.1 == u.1 ==> t == u)
  }

  // ---- Runs -------------------------------------------------------------------------------

  datatype Event =
    | SessionStarts(session: string)
    | OutputSettles(session: string, detection: Detection, id: string)
    | PhoneResponds(session: string, id: string, response: Response, writable: bool, bracketed: bool)
    | EnterFires(session: string, id: string)
    | SessionExits(session: string)

  /** What the environment guarantees: fresh session ids and interaction ids, only armed Enters fire, a PTY exits
      once, and a PTY that has exited takes no bytes. */
  predicate Enabled(d: Desk, e: Event) {
    match e
    case SessionStarts(s) => s !in d.sessions
    case OutputSettles(_, _, id) => id !in RequestedIds(d.trace)
    case PhoneResponds(_, _, _, _, _) => true
    case EnterFires(s, id) => (s, id) in d.enters
    case SessionExits(s) => s in d.sessions && d.sessions[s].alive
  }

  function Next(d: Desk, e: Event): Desk {
    match e
    case SessionStarts(s) => Create(d, s)
    case OutputSettles(s, detection, id) => Settle(d, s, detection, id)
    case PhoneResponds(s, id, response, writable, bracketed) => Respond(d, s, id, response, writable, bracketed).0
    case EnterFires(s, id) => FireEnter(d, s, id)
    case SessionExits(s) => Exit(d, s)
  }

  predicate IsRun(ds: seq<Desk>, es: seq<Event>) {
    && |ds| == |es| + 1 && ds[0] == INIT
    && forall i :: 0 <= i < |es| ==> Enabled(ds[i], es[i]) && Next(ds[i], es[i]) == ds[i + 1]
  }

  // ---- Every event keeps the invariant ----------------------------------------------------

  lemma OpenAfter(trace: seq<Act>, act: Act, session: string)
    ensures Open(trace + [act], session) ==
            if act.Requested? && act.session == session then Some(act.asked)
            else if act.Resolved? && act.session == session then None
            else Open(trace, session)
  {
    assert (trace + [act])[..|trace|] == trace;
  }

  lemma IdsAfter(trace: seq<Act>, act: Act)
    ensures RequestedIds(trace + [act]) == RequestedIds(trace) + (if act.Requested? then {act.asked.id} else {})
    ensures ResolvedIds(trace + [act]) == ResolvedIds(trace) + (if act.Resolved? then {act.id} else {})
    ensures EnteredIds(trace + [act]) == EnteredIds(trace) + (if act.PressedEnter? then {act.id} else {})
    ensures Orderly(trace + [act]) <==> Orderly(trace) && Follows(trace, act)
  {
    assert (trace + [act])[..|trace|] == trace;
  }

  /** How the trace and its meaning change over one orderly act. */
  ghost predicate Extends(before: seq<Act>, after: seq<Act>, session: string, open: Option<Asked>,
                          requested: set<string>, resolved: set<string>)
  {
    && Orderly(after)
    && Open(after, session) == open
    && (forall s :: s != session ==> Open(after, s) == Open(before, s))
    && RequestedIds(after) == RequestedIds(before) + requested
    && ResolvedIds(after) == ResolvedIds(before) + resolved
    && EnteredIds(after) == EnteredIds(before)
  }

  lemma ExtendsBy(before: seq<Act>, trace: seq<Act>, act: Act, session: string, open: Option<Asked>,
                  requested: set<string>, resolved: set<string>)
    requires Extends(before, trace, session, open, requested, resolved)
    requires Follows(trace, act) && !act.PressedEnter?
    requires act.Requested? || act.Resolved? ==> act.session == session
    ensures Extends(before, trace + [act], session,
                    if act.Requested? then Some(act.asked) else if act.Resolved? then None else open,
                    requested + (if act.Requested? then {act.asked.id} else {}),
                    resolved + (if act.Resolved? then {act.id} else {}))
  {
    hide Orderly, Open, Follows;
    IdsAfter(trace, act);
    forall s ensures Open(trace + [act], s) ==
                     if act.Requested? && act.session == s then Some(act.asked)
                     else if act.Resolved? && act.session == s then None else Open(trace, s)
    {
      OpenAfter(trace, act, s);
    }
  }

  lemma ResolveExtends(d: Desk, session: string, resolution: Resolution, optionIds: seq<string>)
    requires Inv(d) && session in d.sessions && d.sessions[session].active.Some?
    ensures Extends(d.trace, Resolve(d, session, resolution, optionIds).trace, session, None,
                    {}, {d.sessions[session].active.value})
  {
    hide Orderly, Open, ResolvedIds, RequestedIds, EnteredIds;
    var e := d.sessions[session];
    var resolved := Resolved(session, e.active.value, resolution, optionIds);
    assert EntryAgrees(e, Open(d.trace, session));
    ExtendsBy(d.trace, d.trace, resolved, session, Open(d.trace, session), {}, {});
    if resolution != SessionEnded {
      ExtendsBy(d.trace, d.trace + [resolved], Updated(session, Running), session, None, {}, {e.active.value});
      assert d.trace + [resolved, Updated(session, Running)] == d.trace + [resolved] + [Updated(session, Running)];
    }
  }

  lemma ResolveKeepsInv(d: Desk, session: string, resolution: Resolution, optionIds: seq<string>)
    requires Inv(d) && resolution != SessionEnded
    ensures Inv(Resolve(d, session, resolution, optionIds))
  {
    hide Orderly, Open, ResolvedIds, RequestedIds, EnteredIds;
    if session in d.sessions && d.sessions[session].active.Some? {
      assert EntryAgrees(d.sessions[session], Open(d.trace, session));
      ResolveExtends(d, session, resolution, optionIds);
    }
  }

  lemma RegisterKeepsInv(d: Desk, session: string, prompt: Prompt, id: string)
    requires Inv(d) && session in d.sessions && d.sessions[session].alive && d.sessions[session].active.None?
    requires id !in RequestedIds(d.trace)
    ensures Inv(Register(d, session, prompt, id))
  {
    hide Orderly, Open, ResolvedIds, RequestedIds, EnteredIds;
    var asked := Asked(id, prompt);
    assert EntryAgrees(d.sessions[session], Open(d.trace, session));
    ExtendsBy(d.trace, d.trace, Requested(session, asked), session, Open(d.trace, session), {}, {});
    ExtendsBy(d.trace, d.trace + [Requested(session, asked)], Updated(session, Waiting), session, Some(asked),
              {id}, {});
    var d' := Register(d, session, prompt, id);
    assert d'.trace == d.trace + [Requested(session, asked)] + [Updated(session, Waiting)];
  }

  lemma SettleKeepsInv(d: Desk, session: string, detection: Detection, id: string)
    requires Inv(d) && id !in RequestedIds(d.trace)
    ensures Inv(Settle(d, session, detection, id))
  {
    hide Orderly, Open, ResolvedIds, RequestedIds, EnteredIds;
    ResolveKeepsInv(d, session, Superseded, []);
    if session in d.sessions && d.sessions[session].alive && detection.Found? {
      if d.sessions[session].active.Some? {
        assert EntryAgrees(d.sessions[session], Open(d.trace, session));
        ResolveExtends(d, session, Superseded, []);
      }
      var d1 := Resolve(d, session, Superseded, []);
      RegisterKeepsInv(d1, session, detection.prompt, id);
    }
  }

  lemma {:induction false} EnteredWereResolved(trace: seq<Act>)
    requires Orderly(trace)
    ensures EnteredIds(trace) <= ResolvedIds(trace)
  {
    if trace != [] {
      EnteredWereResolved(trace[..|trace| - 1]);
    }
  }

  lemma WriteFollows(d: Desk, session: string, id: string, response: Response, bracketed: bool)
    requires Inv(d) && session in d.sessions && d.sessions[session].active == Some(id)
    requires !response.Cancel? && !response.UnknownType?
    requires AnswerBytes(d.sessions[session].bytes, response, bracketed) != []
    ensures var d1 := Resolve(d, session, Answered, if response.Options? then response.optionIds else []);
            Follows(d1.trace, Wrote(session, id, AnswerBytes(d.sessions[session].bytes, response, bracketed)))
  {
    hide Orderly, Open, ResolvedIds, RequestedIds, EnteredIds, TextBody;
    var d1 := Resolve(d, session, Answered, if response.Options? then response.optionIds else []);
    assert EntryAgrees(d.sessions[session], Open(d.trace, session));
    assert d1.trace[..|d.trace|] == d.trace;
  }

  /** Resolving and then writing keeps the invariant and leaves the interaction resolved and no Enter armed for it. */
  lemma AnswerKeepsInv(d: Desk, session: string, id: string, response: Response, writable: bool, bracketed: bool)
    requires Inv(d) && session in d.sessions && d.sessions[session].active == Some(id) && !response.UnknownType?
    ensures var d1 := Resolve(d, session, if response.Cancel? then Cancelled else Answered,
                              if response.Options? then response.optionIds else []);
            var d2 := Write(d1, session, id, AnswerBytes(d.sessions[session].bytes, response, bracketed), writable);
            && Inv(d2) && d2.enters == d.enters
            && id in ResolvedIds(d2.trace) && id !in EnteredIds(d2.trace)
            && forall t :: t in d.enters ==> t.1 != id
  {
    hide Orderly, Open, ResolvedIds, RequestedIds, EnteredIds, AnswerBytes, EntryAgrees;
    var bytes := AnswerBytes(d.sessions[session].bytes, response, bracketed);
    var resolution := if response.Cancel? then Cancelled else Answered;
    var ids := if response.Options? then response.optionIds else [];
    ActiveIsOpen(d, session);
    ResolveKeepsInv(d, session, resolution, ids);
    ResolveExtends(d, session, resolution, ids);
    OpenIsUnresolved(d.trace, session, session);
    EnteredWereResolved(d.trace);
    if bytes != [] && writable {
      CancelWritesNothing(d.sessions[session].bytes, response, bracketed);
      WriteFollows(d, session, id, response, bracketed);
      WriteKeepsInv(Resolve(d, session, resolution, ids), session, id, bytes);
    }
  }

  lemma ActiveIsOpen(d: Desk, session: string)
    requires Inv(d) && session in d.sessions && d.sessions[session].active.Some?
    ensures Open(d.trace, session).Some? && Open(d.trace, session).value.id == d.sessions[session].active.value
  {
    assert EntryAgrees(d.sessions[session], Open(d.trace, session));
  }

  lemma RespondKeepsInv(d: Desk, session: string, id: string, response: Response, writable: bool, bracketed: bool)
    requires Inv(d)
    ensures Inv(Respond(d, session, id, response, writable, bracketed).0)
  {
    hide Orderly, Open, ResolvedIds, RequestedIds, EnteredIds, AnswerBytes, EntryAgrees, Resolve, Write;
    if session in d.sessions && d.sessions[session].active == Some(id) && !response.UnknownType? {
      AnswerKeepsInv(d, session, id, response, writable, bracketed);
    }
  }

  lemma CancelWritesNothing(bytes: map<string, seq<byte>>, response: Response, bracketed: bool)
    ensures response.Cancel? ==> AnswerBytes(bytes, response, bracketed) == []
  {
  }

  lemma WriteKeepsInv(d: Desk, session: string, id: string, bytes: seq<byte>)
    requires Inv(d) && Follows(d.trace, Wrote(session, id, bytes))
    ensures var d' := d.(trace := d.trace + [Wrote(session, id, bytes)]);
            && Inv(d') && ResolvedIds(d'.trace) == ResolvedIds(d.trace) && EnteredIds(d'.trace) == EnteredIds(d.trace)
  {
    hide Orderly, Open, Follows, ResolvedIds, RequestedIds, EnteredIds;
    ExtendsBy(d.trace, d.trace, Wrote(session, id, bytes), session, Open(d.trace, session), {}, {});
  }

  lemma FireEnterKeepsInv(d: Desk, session: string, id: string)
    requires Inv(d) && (session, id) in d.enters
    ensures Inv(FireEnter(d, session, id))
  {
    hide Orderly, Open, ResolvedIds, RequestedIds, EnteredIds;
    var act := PressedEnter(session, id);
    assert d.enters[(session, id)] == 1;
    IdsAfter(d.trace, act);
    forall s ensures Open(d.trace + [act], s) == Open(d.trace, s) {
      OpenAfter(d.trace, act, s);
    }
  }

  lemma CreateKeepsInv(d: Desk, s: string)
    requires Inv(d) && s !in d.sessions
    ensures Inv(Create(d, s))
  {
    hide Orderly, Open, ResolvedIds, RequestedIds, EnteredIds;
    ExtendsBy(d.trace, d.trace, Created(s), s, Open(d.trace, s), {}, {});
  }

  lemma ExitKeepsInv(d: Desk, s: string)
    requires Inv(d) && s in d.sessions
    ensures Inv(Exit(d, s))
  {
    hide Orderly, Open, ResolvedIds, RequestedIds, EnteredIds;
    assert EntryAgrees(d.sessions[s], Open(d.trace, s));
    var d1 := Resolve(d, s, SessionEnded, []);
    if d.sessions[s].active.Some? {
      ResolveExtends(d, s, SessionEnded, []);
      ExtendsBy(d.trace, d1.trace, Ended(s), s, None, {}, {d.sessions[s].active.value});
    } else {
      ExtendsBy(d.trace, d.trace, Ended(s), s, Open(d.trace, s), {}, {});
    }
  }

  // ---- Results over whole runs ------------------------------------------------------------

  /** At every step boundary of every run: a session is waiting exactly when an interaction is active, the active id is
      known, the stored signature and bytes are those of the detection that registered it, no interaction is active
      once the PTY has exited, and the trace is orderly. */
  lemma {:induction false} RunKeepsInv(ds: seq<Desk>, es: seq<Event>, i: nat)
    requires IsRun(ds, es) && i < |ds|
    ensures Inv(ds[i])
  {
    if i > 0 {
      hide Inv, Next;
      RunKeepsInv(ds, es, i - 1);
      var d, e := ds[i - 1], es[i - 1];
      assert Enabled(d, e) && Next(d, e) == ds[i];
      NextKeepsInv(d, e);
    }
  }

  lemma NextKeepsInv(d: Desk, e: Event)
    requires Inv(d) && Enabled(d, e)
    ensures Inv(Next(d, e))
  {
    hide Inv, Settle, Respond, FireEnter, Create, Exit;
    match e
    case SessionStarts(s) => CreateKeepsInv(d, s);
    case OutputSettles(s, detection, id) => SettleKeepsInv(d, s, detection, id);
    case PhoneResponds(s, id, response, w, b) => RespondKeepsInv(d, s, id, response, w, b);
    case EnterFires(s, id) => FireEnterKeepsInv(d, s, id);
    case SessionExits(s) => ExitKeepsInv(d, s);
  }

  /** Exactly-once, over whole runs: no interaction is requested, resolved, answered on the PTY or completed with
      Enter twice. */
  lemma RunsAnswerAtMostOnce(ds: seq<Desk>, es: seq<Event>, k: nat, i: nat, j: nat)
    requires IsRun(ds, es) && k < |ds| && i < j < |ds[k].trace|
    ensures var t := ds[k].trace;
            && (t[i].Requested? && t[j].Requested? ==> t[i].asked.id != t[j].asked.id)
            && (t[i].Resolved? && t[j].Resolved? ==> t[i].id != t[j].id)
            && (t[i].Wrote? && t[j].Wrote? ==> t[i].id != t[j].id)
            && (t[i].PressedEnter? && t[j].PressedEnter? ==> t[i].id != t[j].id)
  {
    RunKeepsInv(ds, es, k);
    AtMostOnce(ds[k].trace, i, j);
  }

  /** A response is taken exactly when its interaction is the active one; after any resolution, by an answer, by a new
      prompt or by exit, a response changes nothing and is refused as stale. */
  lemma LateResponsesAreStale(ds: seq<Desk>, es: seq<Event>, k: nat, session: string, id: string,
                              response: Response, writable: bool, bracketed: bool)
    requires IsRun(ds, es) && k < |ds|
    requires id in ResolvedIds(ds[k].trace) && session in ds[k].sessions && id in ds[k].sessions[session].known
    ensures Respond(ds[k], session, id, response, writable, bracketed) == (ds[k], InteractionStale)
  {
    RunKeepsInv(ds, es, k);
    var d := ds[k];
    assert EntryAgrees(d.sessions[session], Open(d.trace, session));
    if d.sessions[session].active == Some(id) {
      OpenIsUnresolved(d.trace, session, session);
      assert false;
    }
  }

  lemma {:induction false} StrippedOfLineEnds(text: seq<byte>) returns (k: nat)
    ensures k <= |text| && RightStrip(text) == text[..k]
    ensures forall j :: k <= j < |text| ==> LineEnd(text[j])
    ensures k > 0 ==> !LineEnd(text[k - 1])
  {
    if text != [] && LineEnd(text[|text| - 1]) {
      k := StrippedOfLineEnds(text[..|text| - 1]);
    } else {
      k := |text|;
    }
  }

  /** The responses that write nothing at once: an option that is absent, not bound or bound to no bytes, a text that is
      empty or, when submitted, made of line ends only, and a cancellation. */
  predicate WritesNothing(bound: map<string, seq<byte>>, response: Response) {
    match response
    case Options(ids) => ids == [] || ids[0] !in bound || bound[ids[0]] == []
    case TextAnswer(text, submit) => if submit then forall j :: 0 <= j < |text| ==> LineEnd(text[j]) else text == []
    case Cancel => true
    case UnknownType => true
  }

  lemma WritesNothingIff(bound: map<string, seq<byte>>, response: Response, bracketed: bool)
    ensures AnswerBytes(bound, response, bracketed) == [] <==> WritesNothing(bound, response)
  {
    if response.TextAnswer? && response.submit {
      var k := StrippedOfLineEnds(response.text);
    }
  }

  /** The bytes an accepted option writes are those bound by the detection that registered the interaction; which
      responses write none, `WritesNothing` says. */
  lemma AcceptedAnswers(ds: seq<Desk>, es: seq<Event>, k: nat, session: string, id: string,
                        response: Response, bracketed: bool)
    requires IsRun(ds, es) && k < |ds| && session in ds[k].sessions
    requires ds[k].sessions[session].active == Some(id) && !response.UnknownType?
    ensures var d, r := ds[k], Respond(ds[k], session, id, response, true, bracketed);
            && Open(d.trace, session).Some? && r.1 == Accepted
            && var bound := Open(d.trace, session).value.prompt.optionBytes;
               if WritesNothing(bound, response) then forall b :: Wrote(session, id, b) !in r.0.trace
               else r.0.trace[|r.0.trace| - 1] == Wrote(session, id, AnswerBytes(bound, response, bracketed))
  {
    hide Orderly, Open, AnswerBytes, WritesNothing;
    RunKeepsInv(ds, es, k);
    var d := ds[k];
    assert EntryAgrees(d.sessions[session], Open(d.trace, session));
    WritesNothingIff(Open(d.trace, session).value.prompt.optionBytes, response, bracketed);
    OpenIsUnresolved(d.trace, session, session);
    forall b ensures Wrote(session, id, b) !in d.trace {
      if Wrote(session, id, b) in d.trace {
        var i :| 0 <= i < |d.trace| && d.trace[i] == Wrote(session, id, b);
        WrittenWasResolved(d.trace, i);
        assert false;
      }
    }
  }

  lemma WrittenWasResolved(trace: seq<Act>, i: nat)
    requires Orderly(trace) && i < |trace| && trace[i].Wrote?
    ensures trace[i].id in ResolvedIds(trace)
  {
    OrderlyPrefix(trace, i);
    assert trace[..i][i - 2] == trace[i - 2];
    IdsAppearInPrefixes(trace, i - 2);
  }

  /** A text answer reaches the PTY as it is, less the line ends a submission replaces by Enter, and as one paste when
      the program asked for that; nothing is written for an empty one. */
  lemma TextIsDelivered(text: seq<byte>, submit: bool, bracketed: bool) returns (k: nat)
    ensures k <= |text| && (!submit ==> k == |text|)
    ensures submit ==> (forall j :: k <= j < |text| ==> LineEnd(text[j])) && (k > 0 ==> !LineEnd(text[k - 1]))
    ensures TextBody(text, submit, bracketed) ==
            if k > 0 && bracketed then PASTE_START + text[..k] + PASTE_END else text[..k]
  {
    if submit {
      k := StrippedOfLineEnds(text);
    } else {
      k := |text|;
      assert text[..k] == text;
    }
  }

  predicate Concerns(act: Act, session: string) {
    (act.Requested? || act.Resolved?) && act.session == session
  }

  lemma {:induction false} OpenFromLast(trace: seq<Act>, session: string, i: nat)
    requires i <= |trace| && forall k :: i <= k < |trace| ==> !Concerns(trace[k], session)
    ensures Open(trace, session) == Open(trace[..i], session)
  {
    var n := |trace| - 1;
    if i <= n {
      OpenFromLast(trace[..n], session, i);
      assert trace[..n][..i] == trace[..i];
      assert !Concerns(trace[n], session);
    } else {
      assert trace[..i] == trace;
    }
  }

  /** Per session, the events alternate: a request, its own resolution, the next request. */
  lemma RequestsAndResolutionsAlternate(trace: seq<Act>, session: string, i: nat, j: nat)
    requires Orderly(trace) && i < j < |trace| && Concerns(trace[i], session) && Concerns(trace[j], session)
    requires forall k :: i < k < j ==> !Concerns(trace[k], session)
    ensures if trace[i].Requested? then trace[j].Resolved? && trace[j].id == trace[i].asked.id
            else trace[j].Requested?
  {
    hide Orderly, Open;
    OrderlyPrefix(trace, j);
    OpenBetween(trace, session, i, j);
  }

  /** What is open in front of `j` is decided by the last act in front of it that concerns the session. */
  lemma OpenBetween(trace: seq<Act>, session: string, i: nat, j: nat)
    requires i < j <= |trace| && Concerns(trace[i], session)
    requires forall k :: i < k < j ==> !Concerns(trace[k], session)
    ensures Open(trace[..j], session) == if trace[i].Requested? then Some(trace[i].asked) else None
  {
    hide Open;
    assert forall k :: i < k < j ==> trace[..j][k] == trace[k];
    OpenFromLast(trace[..j], session, i + 1);
    assert trace[..j][..i + 1] == trace[..i] + [trace[i]];
    OpenAfter(trace[..i], trace[i], session);
  }

  // ---- The answer and the screen ----------------------------------------------------------

  predicate IsFound(e: Event, session: string) {
    e.OutputSettles? && e.session == session && e.detection.Found?
  }

  /** The prompt the session's screen showed when it last settled on one. */
  function LastFound(es: seq<Event>, session: string): Option<Prompt> {
    if es == [] then None
    else if IsFound(es[|es| - 1], session) then Some(es[|es| - 1].detection.prompt)
    else LastFound(es[..|es| - 1], session)
  }

  function Bound(prompt: Prompt, option: string): seq<byte> {
    if option in prompt.optionBytes then prompt.optionBytes[option] else []
  }

  /** What choosing `option` for the interaction would write to the PTY now. */
  function AnswerNow(d: Desk, session: string, id: string, option: string): seq<byte> {
    var after := Respond(d, session, id, Options([option]), true, false).0;
    var last := |after.trace| - 1;
    if last >= |d.trace| && after.trace[last].Wrote? then after.trace[last].bytes else []
  }

  predicate IsActive(d: Desk, session: string, id: string) {
    session in d.sessions && d.sessions[session].active == Some(id)
  }

  lemma AnswerIsBound(d: Desk, session: string, id: string, option: string)
    requires Inv(d) && IsActive(d, session, id)
    ensures AnswerNow(d, session, id, option) ==
            if option in d.sessions[session].bytes then d.sessions[session].bytes[option] else []
  {
    assert EntryAgrees(d.sessions[session], Open(d.trace, session));
  }

  lemma {:induction false} RequestedStays(trace: seq<Act>, n: nat, id: string)
    requires n <= |trace| && id in RequestedIds(trace[..n])
    ensures id in RequestedIds(trace)
  {
    if n < |trace| {
      assert trace[..|trace| - 1][..n] == trace[..n];
      RequestedStays(trace[..|trace| - 1], n, id);
    } else {
      assert trace[..n] == trace;
    }
  }

  /** An interaction that is active after a step other than its registration was active before, with the same bytes;
      and the step settled on no prompt of another signature. */
  lemma StayedActive(d: Desk, e: Event, session: string, id: string)
    requires Inv(d) && Enabled(d, e) && id in RequestedIds(d.trace) && IsActive(Next(d, e), session, id)
    ensures IsActive(d, session, id) && d.sessions[session].bytes == Next(d, e).sessions[session].bytes
    ensures d.sessions[session].signature == Next(d, e).sessions[session].signature
    ensures IsFound(e, session) ==> d.sessions[session].signature == Some(e.detection.prompt.signature)
  {
    assert session in d.sessions && d.sessions[session].active.Some? ==> d.sessions[session].alive by {
      assert session in d.sessions ==> EntryAgrees(d.sessions[session], Open(d.trace, session));
    }
    hide Inv, Respond, Resolve, RequestedIds, Settle;
    match e
    case OutputSettles(s, detection, i) => SettleChanges(d, s, detection, i, session);
    case PhoneResponds(s, i, response, w, b) => RespondChanges(d, s, i, response, w, b, session);
    case SessionExits(s) => ResolveChanges(d, s, SessionEnded, [], session);
    case _ =>
  }

  /** A settled screen leaves a session alone, takes its interaction away or registers another one; alone, only if it
      shows the same prompt. */
  lemma SettleChanges(d: Desk, s: string, detection: Detection, id: string, session: string)
    ensures var after := Settle(d, s, detection, id);
      && (session in after.sessions <==> session in d.sessions)
      && (session in d.sessions ==>
          var e, e1 := d.sessions[session], after.sessions[session];
          && (e1 == e || e1.active.None? || e1.active == Some(id))
          && (s == session && e.alive && detection.Found? && e1.active != Some(id) ==>
              e1 == e && e.signature == Some(detection.prompt.signature)))
  {
    hide Resolve;
    ResolveChanges(d, s, Superseded, [], session);
  }

  /** A resolution leaves a session alone or takes its interaction away. */
  lemma ResolveChanges(d: Desk, s: string, resolution: Resolution, optionIds: seq<string>, session: string)
    ensures var after := Resolve(d, s, resolution, optionIds);
      && (session in after.sessions <==> session in d.sessions)
      && (session in d.sessions ==>
          after.sessions[session] == d.sessions[session] || after.sessions[session].active.None?)
  {
  }

  lemma RespondChanges(d: Desk, s: string, id: string, response: Response, writable: bool, bracketed: bool,
                       session: string)
    ensures var after := Respond(d, s, id, response, writable, bracketed).0;
      && (session in after.sessions <==> session in d.sessions)
      && (session in d.sessions ==>
          after.sessions[session] == d.sessions[session] || after.sessions[session].active.None?)
  {
    hide AnswerBytes, Resolve;
    ResolveChanges(d, s, if response.Cancel? then Cancelled else Answered,
                   if response.Options? then response.optionIds else [], session);
  }

  /** The registration of an interaction binds the bytes of its prompt. */
  lemma RegistrationBinds(d: Desk, e: Event, session: string, id: string)
    requires Inv(d) && Enabled(d, e) && IsFound(e, session) && e.id == id && IsActive(Next(d, e), session, id)
    ensures Next(d, e).sessions[session].bytes == e.detection.prompt.optionBytes
    ensures Next(d, e).sessions[session].signature == Some(e.detection.prompt.signature)
    ensures id in RequestedIds(Next(d, e).trace)
  {
    if session in d.sessions {
      assert EntryAgrees(d.sessions[session], Open(d.trace, session));
    }
    NextKeepsInv(d, e);
    assert EntryAgrees(Next(d, e).sessions[session], Open(Next(d, e).trace, session));
  }

  /** From its registration by event `r` up to `k` an active interaction keeps its bytes, and the screen settles only on
      prompts with its signature. */
  lemma {:induction false} ActiveSince(ds: seq<Desk>, es: seq<Event>, session: string, id: string,
                                       r: nat, k: nat, j: nat)
    requires IsRun(ds, es) && r < j <= k <= |es| && IsFound(es[r], session) && es[r].id == id
    requires IsActive(ds[r + 1], session, id) && IsActive(ds[k], session, id)
    ensures IsActive(ds[j], session, id) && ds[j].sessions[session].bytes == es[r].detection.prompt.optionBytes
    ensures ds[j].sessions[session].signature == Some(es[r].detection.prompt.signature)
    ensures j < k && IsFound(es[j], session) ==>
              es[j].detection.prompt.signature == es[r].detection.prompt.signature
    decreases k, j
  {
    hide Inv, Next, Enabled;
    assert Enabled(ds[r], es[r]) && Next(ds[r], es[r]) == ds[r + 1];
    RunKeepsInv(ds, es, r);
    RegistrationBinds(ds[r], es[r], session, id);
    if k > r + 1 {
      assert Enabled(ds[k - 1], es[k - 1]) && Next(ds[k - 1], es[k - 1]) == ds[k];
      RunKeepsInv(ds, es, k - 1);
      TraceGrows(ds, es, r + 1, k - 1);
      RequestedStays(ds[k - 1].trace, |ds[r + 1].trace|, id);
      StayedActive(ds[k - 1], es[k - 1], session, id);
      ActiveSince(ds, es, session, id, r, k - 1, if j < k then j else k - 1);
      ActiveSince(ds, es, session, id, r, k - 1, k - 1);
    }
  }

  lemma {:induction false} LastFoundIn(es: seq<Event>, session: string, r: nat, j: nat) returns (m: nat)
    requires r < j <= |es| && IsFound(es[r], session)
    ensures r <= m < j && IsFound(es[m], session) && LastFound(es[..j], session) == Some(es[m].detection.prompt)
    decreases j
  {
    assert es[..j][..j - 1] == es[..j - 1];
    if IsFound(es[j - 1], session) {
      m := j - 1;
    } else {
      m := LastFoundIn(es, session, r, j - 1);
    }
  }

  /** As long as the interaction registered by event `r` is active, choosing an option writes the bytes of the screen as
      it was then. These are the bytes of the screen as it is, at every moment since, exactly when every detection since
      has bound the same bytes to the option. */
  lemma AnswersMatchTheScreenIff(ds: seq<Desk>, es: seq<Event>, session: string, id: string, option: string,
                                 r: nat, k: nat)
    requires IsRun(ds, es) && r < k <= |es| && IsFound(es[r], session) && es[r].id == id
    requires IsActive(ds[r + 1], session, id) && IsActive(ds[k], session, id)
    ensures forall j :: r < j <= k ==>
              && IsActive(ds[j], session, id) && LastFound(es[..j], session).Some?
              && AnswerNow(ds[j], session, id, option) == Bound(es[r].detection.prompt, option)
    ensures (forall j :: r < j <= k ==>
               AnswerNow(ds[j], session, id, option) == Bound(LastFound(es[..j], session).value, option))
            <==>
            (forall m :: r < m < k && IsFound(es[m], session) ==>
               Bound(es[m].detection.prompt, option) == Bound(es[r].detection.prompt, option))
  {
    hide Inv, AnswerNow, LastFound;
    var first := Bound(es[r].detection.prompt, option);
    forall j | r < j <= k
      ensures IsActive(ds[j], session, id) && LastFound(es[..j], session).Some?
      ensures AnswerNow(ds[j], session, id, option) == first
    {
      ActiveSince(ds, es, session, id, r, k, j);
      RunKeepsInv(ds, es, j);
      AnswerIsBound(ds[j], session, id, option);
      var m := LastFoundIn(es, session, r, j);
    }
    if forall m :: r < m < k && IsFound(es[m], session) ==> Bound(es[m].detection.prompt, option) == first {
      forall j | r < j <= k
        ensures AnswerNow(ds[j], session, id, option) == Bound(LastFound(es[..j], session).value, option)
      {
        var m := LastFoundIn(es, session, r, j);
      }
    } else {
      var m :| r < m < k && IsFound(es[m], session) && Bound(es[m].detection.prompt, option) != first;
      LastFoundHere(es, session, m);
      assert AnswerNow(ds[m + 1], session, id, option) == first;
    }
  }

  /** The bytes can go stale: `detect_screen_prompt` computes them from the highlighted row, which is no part of the
      signature. The screen has settled on `b2` and the answer writes what `b1` bound. */
  lemma StaleAnswerIsWritten(s: string, signature: Signature, option: string, b1: map<string, seq<byte>>,
                             b2: map<string, seq<byte>>, i1: string, i2: string)
    requires option in b1 && b1[option] != [] && option in b2 && b2[option] != b1[option] && i1 != i2
    ensures
      var run := StaleRun(s, signature, option, b1, b2, i1, i2);
      var ds, es := run.0, run.1;
      && IsRun(ds, es) && LastFound(es, s) == Some(Prompt(signature, b2))
      && ds[4].trace[|ds[4].trace| - 1] == Wrote(s, i1, b1[option])
  {
    var run := StaleRun(s, signature, option, b1, b2, i1, i2);
    var ds, es := run.0, run.1;
    FirstPrompt(s, Prompt(signature, b1), i1);
    assert Enabled(ds[0], es[0]) && Enabled(ds[1], es[1]) && Enabled(ds[2], es[2]);
    assert ds[3] == ds[2];
    LastFoundHere(es, s, 2);
    assert es[..4] == es && es[..4][..3] == es[..3];
  }

  /** A session starts and its screen settles on a first prompt. */
  lemma FirstPrompt(s: string, prompt: Prompt, id: string)
    ensures
      var d1 := Next(INIT, SessionStarts(s));
      var d2 := Next(d1, OutputSettles(s, Found(prompt), id));
      && RequestedIds(d1.trace) == {} && RequestedIds(d2.trace) == {id}
      && d2 == Desk(map[s := Entry(Waiting, true, Some(id), prompt.optionBytes, Some(prompt.signature), {id})],
                    multiset{}, [Created(s), Requested(s, Asked(id, prompt)), Updated(s, Waiting)])
  {
    var d1 := Next(INIT, SessionStarts(s));
    assert d1 == Desk(map[s := Entry(Running, true, None, map[], None, {})], multiset{}, [Created(s)]);
    assert [Created(s)][..0] == [];
    var d2 := Next(d1, OutputSettles(s, Found(prompt), id));
    assert {} + {id} == {id};
    assert d2.sessions == map[s := Entry(Waiting, true, Some(id), prompt.optionBytes, Some(prompt.signature), {id})];
    RequestedOnce(s, Asked(id, prompt));
    assert [Created(s)] + [Requested(s, Asked(id, prompt)), Updated(s, Waiting)]
        == [Created(s), Requested(s, Asked(id, prompt)), Updated(s, Waiting)];
  }

  lemma RequestedOnce(s: string, asked: Asked)
    ensures RequestedIds([Created(s)] + [Requested(s, asked), Updated(s, Waiting)]) == {asked.id}
  {
    var t := [Created(s)] + [Requested(s, asked), Updated(s, Waiting)];
    assert t[..2] == [Created(s), Requested(s, asked)] && t[..2][..1] == [Created(s)] && t[..1][..0] == [];
    assert RequestedIds([Created(s)]) == {};
    assert RequestedIds(t[..2]) == {asked.id};
  }

  function StaleRun(s: string, signature: Signature, option: string, b1: map<string, seq<byte>>,
                    b2: map<string, seq<byte>>, i1: string, i2: string): (seq<Desk>, seq<Event>)
  {
    var es := [SessionStarts(s), OutputSettles(s, Found(Prompt(signature, b1)), i1),
               OutputSettles(s, Found(Prompt(signature, b2)), i2),
               PhoneResponds(s, i1, Options([option]), true, false)];
    var d1 := Next(INIT, es[0]);
    var d2 := Next(d1, es[1]);
    var d3 := Next(d2, es[2]);
    ([INIT, d1, d2, d3, Next(d3, es[3])], es)
  }

  lemma LastFoundHere(es: seq<Event>, session: string, m: nat)
    requires m < |es| && IsFound(es[m], session)
    ensures LastFound(es[..m + 1], session) == Some(es[m].detection.prompt)
  {
    assert es[..m + 1][..m] == es[..m];
  }

  // ---- The delayed Enter ------------------------------------------------------------------

  /** An armed Enter has its resolution behind it, in the same session. */
  lemma {:induction false} ResolutionOf(ds: seq<Desk>, es: seq<Event>, k: nat, s: string, id: string) returns (q: nat)
    requires IsRun(ds, es) && k < |ds| && (s, id) in ds[k].enters
    ensures q < |ds[k].trace| && ds[k].trace[q].Resolved?
    ensures ds[k].trace[q].session == s && ds[k].trace[q].id == id
    decreases k
  {
    hide Next, Enabled;
    assert k > 0;
    var d, e := ds[k - 1], es[k - 1];
    assert Enabled(d, e) && Next(d, e) == ds[k];
    NextExtends(d, e);
    if (s, id) in d.enters {
      q := ResolutionOf(ds, es, k - 1, s, id);
      assert ds[k].trace[..|d.trace|][q] == d.trace[q];
    } else {
      q := |d.trace|;
      EnterIsArmed(d, e, s, id);
    }
  }

  lemma EnterIsArmed(d: Desk, e: Event, s: string, id: string)
    requires (s, id) !in d.enters && (s, id) in Next(d, e).enters
    ensures var q, trace := |d.trace|, Next(d, e).trace;
            q < |trace| && trace[q].Resolved? && trace[q].session == s && trace[q].id == id
  {
    hide AnswerBytes, Settle, Exit;
    match e
    case OutputSettles(t, detection, i) => SettleArmsNothing(d, t, detection, i);
    case SessionExits(t) => ExitArmsNothing(d, t);
    case _ =>
  }

  lemma SettleArmsNothing(d: Desk, s: string, detection: Detection, id: string)
    ensures Settle(d, s, detection, id).enters == d.enters
  {
  }

  lemma ExitArmsNothing(d: Desk, s: string)
    ensures Exit(d, s).enters == d.enters
  {
  }

  /** The Enter `(s, id)` fires while another interaction of the session is open. */
  predicate EnterLandsElsewhere(before: Desk, after: Desk, s: string, id: string) {
    && after.trace == before.trace + [PressedEnter(s, id)]
    && Open(after.trace, s).Some? && Open(after.trace, s).value.id != id
  }

  /** A delayed Enter lands on another interaction exactly when one is active in its session as it fires, and that is
      exactly when the session has requested one since the answer and not resolved it. */
  lemma EnterLandsElsewhereIff(ds: seq<Desk>, es: seq<Event>, k: nat, s: string, id: string) returns (q: nat)
    requires IsRun(ds, es) && k < |es| && es[k] == EnterFires(s, id)
    ensures
      var before := ds[k];
      && q < |before.trace| && before.trace[q].Resolved? && before.trace[q].session == s && before.trace[q].id == id
      && (EnterLandsElsewhere(before, ds[k + 1], s, id) <==>
          s in before.sessions && before.sessions[s].active.Some?)
      && (EnterLandsElsewhere(before, ds[k + 1], s, id) <==>
          exists m :: q < m < |before.trace| && before.trace[m].Requested? && before.trace[m].session == s &&
                      forall n :: m < n < |before.trace| ==> !Concerns(before.trace[n], s))
  {
    hide Inv, Orderly, Open, Concerns;
    assert Enabled(ds[k], es[k]) && Next(ds[k], es[k]) == ds[k + 1];
    q := ResolutionOf(ds, es, k, s, id);
    RunKeepsInv(ds, es, k);
    OpenSinceIff(ds[k].trace, s, q);
    EnterFindsOpen(ds[k], s, id);
  }

  lemma EnterFindsOpen(d: Desk, s: string, id: string)
    requires Inv(d) && (s, id) in d.enters
    ensures s in d.sessions && d.sessions[s].active.Some? <==> Open(d.trace, s).Some?
    ensures EnterLandsElsewhere(d, FireEnter(d, s, id), s, id) <==> Open(d.trace, s).Some?
  {
    hide Orderly, Open;
    if s in d.sessions {
      assert EntryAgrees(d.sessions[s], Open(d.trace, s));
    }
    OpenAfter(d.trace, PressedEnter(s, id), s);
    if Open(d.trace, s).Some? {
      OpenIsUnresolved(d.trace, s, s);
    }
  }

  /** After a resolution an interaction is open exactly when a later request is the last act that concerns the
      session. */
  lemma OpenSinceIff(trace: seq<Act>, s: string, q: nat)
    requires q < |trace| && trace[q].Resolved? && trace[q].session == s
    ensures Open(trace, s).Some? <==>
      exists m :: q < m < |trace| && trace[m].Requested? && trace[m].session == s &&
                  forall n :: m < n < |trace| ==> !Concerns(trace[n], s)
  {
    hide Open;
    var m := LastConcern(trace, s, q);
    OpenBetween(trace, s, m, |trace|);
    assert trace[..|trace|] == trace;
  }

  lemma {:induction false} LastConcern(trace: seq<Act>, s: string, q: nat) returns (m: nat)
    requires q < |trace| && Concerns(trace[q], s)
    ensures q <= m < |trace| && Concerns(trace[m], s)
    ensures forall n :: m < n < |trace| ==> !Concerns(trace[n], s)
  {
    m := |trace| - 1;
    if !Concerns(trace[m], s) {
      m := LastConcern(trace[..m], s, q);
    }
  }

  /** Such an input: the text answers `i1`, the program asks again, and the Enter meant for the answer confirms `i2`. */
  lemma EnterConfirmsNextPrompt(s: string, p1: Prompt, p2: Prompt, i1: string, i2: string, text: seq<byte>)
    requires i1 != i2
    ensures
      var run := EnterRun(s, p1, p2, i1, i2, text);
      var ds, es := run.0, run.1;
      && IsRun(ds, es) && IsActive(ds[5], s, i2)
      && ds[5].trace == ds[4].trace + [PressedEnter(s, i1)]
  {
    var run := EnterRun(s, p1, p2, i1, i2, text);
    var ds, es := run.0, run.1;
    FirstPrompt(s, p1, i1);
    assert Enabled(ds[0], es[0]) && Enabled(ds[1], es[1]);
    TextIsAnswered(s, p1, i1, text);
    assert Enabled(ds[3], es[3]) && Enabled(ds[4], es[4]);
  }

  lemma TextIsAnswered(s: string, p: Prompt, id: string, text: seq<byte>)
    ensures
      var d2 := Desk(map[s := Entry(Waiting, true, Some(id), p.optionBytes, Some(p.signature), {id})],
                     multiset{}, [Created(s), Requested(s, Asked(id, p)), Updated(s, Waiting)]);
      var d3 := Next(d2, PhoneResponds(s, id, TextAnswer(text, true), true, false));
      && d3.sessions == map[s := Entry(Running, true, None, map[], None, {id})]
      && d3.enters == multiset{(s, id)} && RequestedIds(d3.trace) == {id}
  {
    hide AnswerBytes;
    var t2 := [Created(s), Requested(s, Asked(id, p)), Updated(s, Waiting)];
    var resolved, running := Resolved(s, id, Answered, []), Updated(s, Running);
    var bytes := AnswerBytes(p.optionBytes, TextAnswer(text, true), false);
    assert t2 == [Created(s)] + [Requested(s, Asked(id, p)), Updated(s, Waiting)];
    RequestedOnce(s, Asked(id, p));
    IdsAfter(t2, resolved);
    IdsAfter(t2 + [resolved], running);
    IdsAfter(t2 + [resolved] + [running], Wrote(s, id, bytes));
    assert t2 + [resolved, running] == t2 + [resolved] + [running];
  }

  function EnterRun(s: string, p1: Prompt, p2: Prompt, i1: string, i2: string, text: seq<byte>)
    : (seq<Desk>, seq<Event>)
  {
    var es := [SessionStarts(s), OutputSettles(s, Found(p1), i1),
               PhoneResponds(s, i1, TextAnswer(text, true), true, false),
               OutputSettles(s, Found(p2), i2), EnterFires(s, i1)];
    var d1 := Next(INIT, es[0]);
    var d2 := Next(d1, es[1]);
    var d3 := Next(d2, es[2]);
    var d4 := Next(d3, es[3]);
    ([INIT, d1, d2, d3, d4, Next(d4, es[4])], es)
  }

  // ---- What decides a step ----------------------------------------------------------------

  /** The ids requested in one session. */
  function RequestedIn(trace: seq<Act>, session: string): set<string> {
    if trace == [] then {}
    else
      var last := trace[|trace| - 1];
      RequestedIn(trace[..|trace| - 1], session) +
      (if last.Requested? && last.session == session then {last.asked.id} else {})
  }

  /** The status last announced for a session. */
  function Announced(trace: seq<Act>, session: string): Option<Status> {
    if trace == [] then None
    else
      var last := trace[|trace| - 1];
      if last == Created(session) then Some(Running)
      else if last.Updated? && last.session == session then Some(last.status)
      else if last == Ended(session) then Some(Stopped)
      else Announced(trace[..|trace| - 1], session)
  }

  predicate Live(trace: seq<Act>, session: string) {
    Created(session) in trace && Ended(session) !in trace
  }

  /** What an event adds to a trace, from what is in the trace alone. */
  function Consequences(trace: seq<Act>, e: Event): seq<Act> {
    match e
    case SessionStarts(s) => [Created(s)]
    case OutputSettles(s, detection, id) =>
      var open := Open(trace, s);
      var gone := if open.Some? then [Resolved(s, open.value.id, Superseded, []), Updated(s, Running)] else [];
      if !Live(trace, s) || detection.NoOutput? then []
      else if detection.NoPrompt? then gone
      else if open.Some? && open.value.prompt.signature == detection.prompt.signature then []
      else gone + [Requested(s, Asked(id, detection.prompt)), Updated(s, Waiting)]
    case PhoneResponds(s, id, response, writable, bracketed) =>
      var open := Open(trace, s);
      if open.None? || open.value.id != id || response.UnknownType? then []
      else
        var bytes := AnswerBytes(open.value.prompt.optionBytes, response, bracketed);
        [Resolved(s, id, if response.Cancel? then Cancelled else Answered,
                  if response.Options? then response.optionIds else []), Updated(s, Running)] +
        (if bytes != [] && writable then [Wrote(s, id, bytes)] else [])
    case EnterFires(s, id) => if Live(trace, s) then [PressedEnter(s, id)] else []
    case SessionExits(s) =>
      var open := Open(trace, s);
      (if open.Some? then [Resolved(s, open.value.id, SessionEnded, [])] else []) + [Ended(s)]
  }

  /** The fields of a session are what the trace says of it. */
  predicate EntryRecorded(d: Desk, s: string) {
    && (s in d.sessions <==> Created(s) in d.trace)
    && (s !in d.sessions ==> Ended(s) !in d.trace && RequestedIn(d.trace, s) == {})
    && (s in d.sessions ==>
        && (d.sessions[s].alive <==> Ended(s) !in d.trace)
        && d.sessions[s].known == RequestedIn(d.trace, s)
        && Announced(d.trace, s) == Some(d.sessions[s].status))
  }

  ghost predicate Recorded(d: Desk) {
    forall s :: EntryRecorded(d, s)
  }

  lemma NextAdds(d: Desk, e: Event)
    requires Inv(d) && Recorded(d) && Enabled(d, e)
    ensures Next(d, e).trace == d.trace + Consequences(d.trace, e)
  {
    hide Orderly, Open, RequestedIn, Announced, AnswerBytes, RequestedIds, ResolvedIds, EnteredIds;
    var s := e.session;
    assert EntryRecorded(d, s);
    assert s in d.sessions ==> EntryAgrees(d.sessions[s], Open(d.trace, s));
    match e
    case OutputSettles(_, detection, id) => SettleAdds(d, s, detection, id);
    case PhoneResponds(_, id, response, writable, bracketed) => RespondAdds(d, s, id, response, writable, bracketed);
    case _ =>
  }

  lemma SettleAdds(d: Desk, s: string, detection: Detection, id: string)
    requires EntryRecorded(d, s)
    requires if s in d.sessions then EntryAgrees(d.sessions[s], Open(d.trace, s)) else Open(d.trace, s).None?
    ensures Settle(d, s, detection, id).trace == d.trace + Consequences(d.trace, OutputSettles(s, detection, id))
  {
    hide Open, RequestedIn, Announced, AnswerBytes;
  }

  lemma RespondAdds(d: Desk, s: string, id: string, response: Response, writable: bool, bracketed: bool)
    requires EntryRecorded(d, s)
    requires if s in d.sessions then EntryAgrees(d.sessions[s], Open(d.trace, s)) else Open(d.trace, s).None?
    ensures Respond(d, s, id, response, writable, bracketed).0.trace
         == d.trace + Consequences(d.trace, PhoneResponds(s, id, response, writable, bracketed))
  {
    hide Open, RequestedIn, Announced, AnswerBytes, Resolve;
    if s in d.sessions && d.sessions[s].active == Some(id) {
      var resolution, ids := if response.Cancel? then Cancelled else Answered,
                             if response.Options? then response.optionIds else [];
      ResolveAdds(d, s, resolution, ids);
      var acts := [Resolved(s, id, resolution, ids), Updated(s, Running)];
      var bytes := AnswerBytes(d.sessions[s].bytes, response, bracketed);
      assert d.trace + acts + [Wrote(s, id, bytes)] == d.trace + (acts + [Wrote(s, id, bytes)]);
      assert acts + [] == acts;
    }
  }

  lemma ResolveAdds(d: Desk, s: string, resolution: Resolution, optionIds: seq<string>)
    requires s in d.sessions && d.sessions[s].active.Some? && d.sessions[s].status == Waiting
    requires resolution != SessionEnded
    ensures Resolve(d, s, resolution, optionIds).trace ==
            d.trace + [Resolved(s, d.sessions[s].active.value, resolution, optionIds), Updated(s, Running)]
  {
  }

  lemma OneMoreAct(trace: seq<Act>, act: Act, s: string)
    ensures var more := trace + [act];
      && (Created(s) in more <==> Created(s) in trace || act == Created(s))
      && (Ended(s) in more <==> Ended(s) in trace || act == Ended(s))
      && RequestedIn(more, s) == RequestedIn(trace, s) +
                                 (if act.Requested? && act.session == s then {act.asked.id} else {})
      && Announced(more, s) == (if act == Created(s) then Some(Running)
                                else if act.Updated? && act.session == s then Some(act.status)
                                else if act == Ended(s) then Some(Stopped)
                                else Announced(trace, s))
  {
    assert (trace + [act])[..|trace|] == trace;
  }

  lemma ResolveRecords(d: Desk, session: string, resolution: Resolution, optionIds: seq<string>)
    requires Recorded(d)
    ensures Recorded(Resolve(d, session, resolution, optionIds))
  {
    hide RequestedIn, Announced;
    forall s ensures EntryRecorded(Resolve(d, session, resolution, optionIds), s) {
      assert EntryRecorded(d, s);
      if session in d.sessions && d.sessions[session].active.Some? {
        var resolved := Resolved(session, d.sessions[session].active.value, resolution, optionIds);
        OneMoreAct(d.trace, resolved, s);
        OneMoreAct(d.trace + [resolved], Updated(session, Running), s);
        assert d.trace + [resolved, Updated(session, Running)] == d.trace + [resolved] + [Updated(session, Running)];
      }
    }
  }

  lemma RegisterRecords(d: Desk, session: string, prompt: Prompt, id: string)
    requires Recorded(d)
    ensures Recorded(Register(d, session, prompt, id))
  {
    hide RequestedIn, Announced;
    var requested := Requested(session, Asked(id, prompt));
    forall s ensures EntryRecorded(Register(d, session, prompt, id), s) {
      assert EntryRecorded(d, s);
      OneMoreAct(d.trace, requested, s);
      OneMoreAct(d.trace + [requested], Updated(session, Waiting), s);
      assert d.trace + [requested, Updated(session, Waiting)] == d.trace + [requested] + [Updated(session, Waiting)];
    }
  }

  /** One act that leaves the fields of sessions alone, a new session, or the end of one. */
  lemma ActRecords(d: Desk, act: Act, d': Desk)
    requires Recorded(d) && d'.trace == d.trace + [act]
    requires match act
             case Wrote(_, _, _) => d'.sessions == d.sessions
             case PressedEnter(_, _) => d'.sessions == d.sessions
             case Created(s) =>
               s !in d.sessions && d'.sessions == d.sessions[s := Entry(Running, true, None, map[], None, {})]
             case Ended(s) =>
               s in d.sessions && d'.sessions == d.sessions[s := d.sessions[s].(status := Stopped, alive := false)]
             case _ => false
    ensures Recorded(d')
  {
    hide RequestedIn, Announced;
    forall s ensures EntryRecorded(d', s) {
      assert EntryRecorded(d, s);
      OneMoreAct(d.trace, act, s);
    }
  }

  lemma NextRecords(d: Desk, e: Event)
    requires Recorded(d) && Enabled(d, e)
    ensures Recorded(Next(d, e))
  {
    hide Recorded, Resolve, Register, AnswerBytes, Create;
    match e
    case SessionStarts(s) => StartRecords(d, s);
    case OutputSettles(s, detection, id) =>
      ResolveRecords(d, s, Superseded, []);
      if detection.Found? { RegisterRecords(Resolve(d, s, Superseded, []), s, detection.prompt, id); }
    case PhoneResponds(s, id, response, writable, bracketed) =>
      RespondRecords(d, s, id, response, writable, bracketed);
    case EnterFires(s, id) => FireRecords(d, s, id);
    case SessionExits(s) =>
      var d1 := Resolve(d, s, SessionEnded, []);
      ResolveRecords(d, s, SessionEnded, []);
      ResolveGrows(d, s, SessionEnded, []);
      ActRecords(d1, Ended(s), Exit(d, s));
  }

  lemma StartRecords(d: Desk, s: string)
    requires Recorded(d) && s !in d.sessions
    ensures Recorded(Create(d, s))
  {
    hide Recorded;
    ActRecords(d, Created(s), Create(d, s));
  }

  lemma FireRecords(d: Desk, s: string, id: string)
    requires Recorded(d)
    ensures Recorded(FireEnter(d, s, id))
  {
    hide Recorded;
    SameRecords(d, d.(enters := d.enters - multiset{(s, id)}));
    if s in d.sessions && d.sessions[s].alive {
      ActRecords(d, PressedEnter(s, id), FireEnter(d, s, id));
    }
  }

  /** Only sessions and trace matter. */
  lemma SameRecords(d: Desk, d': Desk)
    requires Recorded(d) && d'.sessions == d.sessions && d'.trace == d.trace
    ensures Recorded(d')
  {
    hide RequestedIn, Announced;
    forall s ensures EntryRecorded(d', s) {
      assert EntryRecorded(d, s);
    }
  }

  lemma RespondRecords(d: Desk, s: string, id: string, response: Response, writable: bool, bracketed: bool)
    requires Recorded(d)
    ensures Recorded(Respond(d, s, id, response, writable, bracketed).0)
  {
    hide Recorded, Resolve, AnswerBytes;
    if s in d.sessions {
      var bytes := AnswerBytes(d.sessions[s].bytes, response, bracketed);
      var resolution, ids := if response.Cancel? then Cancelled else Answered,
                             if response.Options? then response.optionIds else [];
      var resolved := Resolve(d, s, resolution, ids);
      ResolveRecords(d, s, resolution, ids);
      ActRecords(resolved, Wrote(s, id, bytes), resolved.(trace := resolved.trace + [Wrote(s, id, bytes)]));
      var written := Write(resolved, s, id, bytes, writable);
      SameRecords(written, written.(enters := written.enters + multiset{(s, id)}));
    }
  }

  lemma {:induction false} RunRecords(ds: seq<Desk>, es: seq<Event>, k: nat)
    requires IsRun(ds, es) && k < |ds|
    ensures Recorded(ds[k])
  {
    if k > 0 {
      hide Recorded, Next, Enabled;
      RunRecords(ds, es, k - 1);
      assert Enabled(ds[k - 1], es[k - 1]) && Next(ds[k - 1], es[k - 1]) == ds[k];
      NextRecords(ds[k - 1], es[k - 1]);
    }
  }

  /** Everything a step does is determined by what has been done so far: which prompt is kept, superseded or registered,
      why an interaction is resolved, which status is announced and which bytes are written. */
  lemma TraceTellsAll(ds: seq<Desk>, es: seq<Event>, k: nat)
    requires IsRun(ds, es) && k < |es|
    ensures ds[k + 1].trace == ds[k].trace + Consequences(ds[k].trace, es[k])
  {
    hide Inv, Recorded, Next, Enabled, Consequences;
    assert Enabled(ds[k], es[k]) && Next(ds[k], es[k]) == ds[k + 1];
    RunKeepsInv(ds, es, k);
    RunRecords(ds, es, k);
    NextAdds(ds[k], es[k]);
  }

  /** Every session's status is the one last announced, and it is live from its creation to its end. */
  lemma StatusIsAnnounced(ds: seq<Desk>, es: seq<Event>, k: nat, s: string)
    requires IsRun(ds, es) && k < |ds|
    ensures s in ds[k].sessions <==> Created(s) in ds[k].trace
    ensures s in ds[k].sessions ==> Announced(ds[k].trace, s) == Some(ds[k].sessions[s].status)
    ensures Live(ds[k].trace, s) <==> s in ds[k].sessions && ds[k].sessions[s].alive
  {
    RunRecords(ds, es, k);
    assert EntryRecorded(ds[k], s);
  }

  predicate WasRequested(trace: seq<Act>, s: string, id: string) {
    exists i :: 0 <= i < |trace| && trace[i].Requested? && trace[i].session == s && trace[i].asked.id == id
  }

  lemma {:induction false} RequestedInIff(trace: seq<Act>, s: string, id: string)
    ensures id in RequestedIn(trace, s) <==> WasRequested(trace, s, id)
  {
    if trace != [] {
      var n := |trace| - 1;
      RequestedInIff(trace[..n], s, id);
      if WasRequested(trace[..n], s, id) {
        var i :| 0 <= i < n && trace[..n][i].Requested? && trace[..n][i].session == s && trace[..n][i].asked.id == id;
        assert trace[i].Requested?;
      }
      if WasRequested(trace, s, id) {
        var i :| 0 <= i < |trace| && trace[i].Requested? && trace[i].session == s && trace[i].asked.id == id;
        assert i < n ==> trace[..n][i] == trace[i];
      }
    }
  }

  /** The interaction of the session that has been requested and not resolved. */
  predicate IsOpen(trace: seq<Act>, s: string, id: string) {
    Open(trace, s).Some? && Open(trace, s).value.id == id
  }

  /** Which outcome a response has, over any run: it is not found unless session and interaction are, stale unless the
      interaction is still open, and accepted unless its type is unknown or the PTY refuses bytes it does write. */
  lemma OutcomeIff(ds: seq<Desk>, es: seq<Event>, k: nat, s: string, id: string,
                   response: Response, writable: bool, bracketed: bool)
    requires IsRun(ds, es) && k < |ds|
    ensures
      var trace, outcome := ds[k].trace, Respond(ds[k], s, id, response, writable, bracketed).1;
      && (outcome == SessionNotFound <==> Created(s) !in trace)
      && (outcome == InteractionNotFound <==> Created(s) in trace && !WasRequested(trace, s, id))
      && (outcome == InteractionStale <==> WasRequested(trace, s, id) && !IsOpen(trace, s, id))
      && (outcome == InvalidMessage <==> IsOpen(trace, s, id) && response.UnknownType?)
      && (IsOpen(trace, s, id) && !response.UnknownType? ==>
          var silent := WritesNothing(Open(trace, s).value.prompt.optionBytes, response);
          outcome == if silent || writable then Accepted else PtyWriteFailed)
  {
    hide Orderly, Open, AnswerBytes, WritesNothing, WasRequested, RequestedIn, Announced, Resolve, Write;
    RunKeepsInv(ds, es, k);
    RunRecords(ds, es, k);
    var d := ds[k];
    assert EntryRecorded(d, s);
    assert if s in d.sessions then EntryAgrees(d.sessions[s], Open(d.trace, s)) else Open(d.trace, s).None?;
    RequestedInIff(d.trace, s, id);
    if Open(d.trace, s).Some? {
      WritesNothingIff(Open(d.trace, s).value.prompt.optionBytes, response, bracketed);
    }
  }

  /** Once a session has ended nothing more is announced of it and nothing is written to its PTY, not even a delayed
      Enter. */
  lemma {:induction false} QuietAfterExit(ds: seq<Desk>, es: seq<Event>, k: nat, i: nat, j: nat)
    requires IsRun(ds, es) && k < |ds| && i < j < |ds[k].trace| && ds[k].trace[i].Ended?
    ensures ds[k].trace[j].session != ds[k].trace[i].session
    decreases k
  {
    hide Inv, Recorded, Next, Enabled, Consequences;
    if k > 0 {
      var front := ds[k - 1].trace;
      TraceTellsAll(ds, es, k - 1);
      if j < |front| {
        QuietAfterExit(ds, es, k - 1, i, j);
      } else {
        assert Enabled(ds[k - 1], es[k - 1]);
        RunKeepsInv(ds, es, k - 1);
        RunRecords(ds, es, k - 1);
        QuietStep(ds[k - 1], es[k - 1], i, j);
      }
    }
  }

  /** An end comes last in its step, and leaves nothing for later ones. */
  lemma QuietStep(d: Desk, e: Event, i: nat, j: nat)
    requires Inv(d) && Recorded(d) && Enabled(d, e)
    requires
      var trace := d.trace + Consequences(d.trace, e);
      |d.trace| <= j < |trace| && i < j && trace[i].Ended?
    ensures var trace := d.trace + Consequences(d.trace, e); trace[j].session != trace[i].session
  {
    hide Orderly, Open, RequestedIn, Announced, AnswerBytes, RequestedIds, ResolvedIds, EnteredIds;
    var trace := d.trace + Consequences(d.trace, e);
    if i < |d.trace| {
      var s := trace[i].session;
      assert Ended(s) == d.trace[i] && Ended(s) in d.trace;
      assert EntryRecorded(d, s);
      assert EntryAgrees(d.sessions[s], Open(d.trace, s));
    }
  }

  /** Event `e` is an accepted text answer that is to be submitted. */
  predicate Submits(d: Desk, e: Event, s: string, id: string) {
    && e.PhoneResponds? && e.session == s && e.id == id && e.response.TextAnswer? && e.response.submit
    && Respond(d, s, id, e.response, e.writable, e.bracketed).1 == Accepted
  }

  lemma ArmedOnce(d: Desk, s: string, id: string)
    requires Inv(d)
    ensures (s, id) in d.enters ==> d.enters[(s, id)] == 1
  {
  }

  lemma EntersAfter(d: Desk, e: Event, s: string, id: string)
    requires (s, id) in d.enters ==> d.enters[(s, id)] == 1
    ensures (s, id) in Next(d, e).enters <==>
            Submits(d, e, s, id) || ((s, id) in d.enters && e != EnterFires(s, id))
  {
    hide Settle, Exit, Respond;
    match e
    case OutputSettles(t, detection, i) => SettleArmsNothing(d, t, detection, i);
    case PhoneResponds(t, i, response, w, b) => RespondArms(d, t, i, response, w, b, s, id);
    case SessionExits(t) => ExitArmsNothing(d, t);
    case _ =>
  }

  lemma RespondArms(d: Desk, t: string, i: string, response: Response, w: bool, b: bool, s: string, id: string)
    ensures
      var r := Respond(d, t, i, response, w, b);
      (s, id) in r.0.enters <==>
      (s, id) in d.enters || (t == s && i == id && response.TextAnswer? && response.submit && r.1 == Accepted)
  {
    hide AnswerBytes;
  }

  /** A delayed Enter is armed exactly for the text answers that were accepted and are to be submitted, until it
      fires. */
  lemma {:induction false} EnterArmedIff(ds: seq<Desk>, es: seq<Event>, k: nat, s: string, id: string)
    requires IsRun(ds, es) && k < |ds|
    ensures (s, id) in ds[k].enters <==>
      exists m :: 0 <= m < k && Submits(ds[m], es[m], s, id) && forall n :: m < n < k ==> es[n] != EnterFires(s, id)
    decreases k
  {
    hide Inv, Next, Enabled, Submits;
    if k > 0 {
      EnterArmedIff(ds, es, k - 1, s, id);
      assert Enabled(ds[k - 1], es[k - 1]) && Next(ds[k - 1], es[k - 1]) == ds[k];
      RunKeepsInv(ds, es, k - 1);
      ArmedOnce(ds[k - 1], s, id);
      EntersAfter(ds[k - 1], es[k - 1], s, id);
    }
  }

  /** The events that end an interaction: its screen settles without a prompt or on another one, its answer is taken, or
      its session exits. */
  predicate Closes(e: Event, session: string, id: string, signature: Signature) {
    match e
    case OutputSettles(s, detection, _) =>
      s == session && (detection.NoPrompt? || (detection.Found? && detection.prompt.signature != signature))
    case PhoneResponds(s, i, response, _, _) => s == session && i == id && !response.UnknownType?
    case SessionExits(s) => s == session
    case _ => false
  }

  lemma ActiveAfter(d: Desk, e: Event, session: string, id: string)
    requires Inv(d) && Enabled(d, e) && IsActive(d, session, id) && d.sessions[session].signature.Some?
    ensures IsActive(Next(d, e), session, id) <==> !Closes(e, session, id, d.sessions[session].signature.value)
  {
    assert EntryAgrees(d.sessions[session], Open(d.trace, session));
    OpenWasRequested(d.trace, session);
    hide Inv, Orderly, Open, RequestedIds, Settle, Respond, Resolve;
    match e
    case OutputSettles(s, detection, i) => SettledActive(d, s, detection, i, session, id);
    case PhoneResponds(s, i, response, w, b) => RespondedActive(d, s, i, response, w, b, session, id);
    case SessionExits(s) => ResolvedActive(d, s, SessionEnded, [], session, id);
    case _ =>
  }

  lemma ResolvedActive(d: Desk, s: string, resolution: Resolution, optionIds: seq<string>, session: string, id: string)
    requires IsActive(d, session, id)
    ensures
      var after := Resolve(d, s, resolution, optionIds);
      && (IsActive(after, session, id) <==> s != session)
      && (s in d.sessions <==> s in after.sessions)
      && (s != session ==> after.sessions[session] == d.sessions[session])
  {
  }

  lemma SettledActive(d: Desk, s: string, detection: Detection, i: string, session: string, id: string)
    requires IsActive(d, session, id) && d.sessions[session].alive && d.sessions[session].signature.Some? && i != id
    ensures IsActive(Settle(d, s, detection, i), session, id) <==>
            !Closes(OutputSettles(s, detection, i), session, id, d.sessions[session].signature.value)
  {
    hide Resolve;
    ResolvedActive(d, s, Superseded, [], session, id);
  }

  lemma RespondedActive(d: Desk, s: string, i: string, response: Response, w: bool, b: bool, session: string, id: string)
    requires IsActive(d, session, id) && id in d.sessions[session].known
    ensures IsActive(Respond(d, s, i, response, w, b).0, session, id) <==>
            !(s == session && i == id && !response.UnknownType?)
  {
    hide AnswerBytes, Resolve;
    ResolvedActive(d, s, if response.Cancel? then Cancelled else Answered,
                   if response.Options? then response.optionIds else [], session, id);
  }

  /** From its registration by event `r` on, an interaction is active exactly as long as none of these events has come:
      its prompt is on the screen, and nobody has answered it. */
  lemma {:induction false} StaysActiveIff(ds: seq<Desk>, es: seq<Event>, session: string, id: string, r: nat, k: nat)
    requires IsRun(ds, es) && r < k <= |es| && IsFound(es[r], session) && es[r].id == id
    requires IsActive(ds[r + 1], session, id)
    ensures IsActive(ds[k], session, id) <==>
            forall m :: r < m < k ==> !Closes(es[m], session, id, es[r].detection.prompt.signature)
    decreases k
  {
    hide Inv, Next, Enabled, Closes, IsActive;
    if k > r + 1 {
      StaysActiveIff(ds, es, session, id, r, k - 1);
      var d, e := ds[k - 1], es[k - 1];
      assert Enabled(d, e) && Next(d, e) == ds[k];
      RunKeepsInv(ds, es, k - 1);
      if IsActive(d, session, id) {
        ActiveSince(ds, es, session, id, r, k - 1, k - 1);
        ActiveAfter(d, e, session, id);
      } else {
        assert Enabled(ds[r], es[r]) && Next(ds[r], es[r]) == ds[r + 1];
        RunKeepsInv(ds, es, r);
        RegistrationBinds(ds[r], es[r], session, id);
        TraceGrows(ds, es, r + 1, k - 1);
        RequestedStays(d.trace, |ds[r + 1].trace|, id);
        if IsActive(ds[k], session, id) {
          StayedActive(d, e, session, id);
        }
      }
    }
  }

  /** A prompt found by event `r` is registered exactly when its session is live and the open interaction, if any, is of
      another prompt. */
  lemma RegisteredIff(ds: seq<Desk>, es: seq<Event>, session: string, r: nat)
    requires IsRun(ds, es) && r < |es| && IsFound(es[r], session)
    ensures
      var trace := ds[r].trace;
      IsActive(ds[r + 1], session, es[r].id) <==>
      && Live(trace, session)
      && (Open(trace, session).None? ||
          Open(trace, session).value.prompt.signature != es[r].detection.prompt.signature)
  {
    hide Orderly, Open, RequestedIds, RequestedIn, Announced;
    assert Enabled(ds[r], es[r]) && Next(ds[r], es[r]) == ds[r + 1];
    RunKeepsInv(ds, es, r);
    RunRecords(ds, es, r);
    var d := ds[r];
    assert EntryRecorded(d, session);
    if session in d.sessions {
      assert EntryAgrees(d.sessions[session], Open(d.trace, session));
      OpenWasRequested(d.trace, session);
    }
  }

  /** After the output of a live session has settled without a prompt no interaction of it is active; one that was is
      superseded, and the session is running again. */
  lemma NoPromptNoInteraction(ds: seq<Desk>, es: seq<Event>, session: string, k: nat)
    requires IsRun(ds, es) && k < |es|
    requires es[k].OutputSettles? && es[k].session == session && es[k].detection.NoPrompt? && Live(ds[k].trace, session)
    ensures
      var before, after := ds[k], ds[k + 1];
      && session in before.sessions && session in after.sessions && after.sessions[session].active.None?
      && after.trace == before.trace +
         (if before.sessions[session].active.None? then []
          else [Resolved(session, before.sessions[session].active.value, Superseded, []), Updated(session, Running)])
  {
    hide Orderly, Open, RequestedIn, Announced;
    assert Enabled(ds[k], es[k]) && Next(ds[k], es[k]) == ds[k + 1];
    RunKeepsInv(ds, es, k);
    RunRecords(ds, es, k);
    assert EntryRecorded(ds[k], session);
    assert EntryAgrees(ds[k].sessions[session], Open(ds[k].trace, session));
  }

  // ---- The phone's mirror -----------------------------------------------------------------

  /** The part of an interaction that reaches the phone. */
  datatype Request = Request(id: string, signature: Signature)

  function ToRequest(open: Option<Asked>): Option<Request> {
    if open.None? then None else Some(Request(open.value.id, open.value.prompt.signature))
  }

  function ShownFor(phone: map<string, Request>, session: string): Option<Request> {
    if session in phone then Some(phone[session]) else None
  }

  /** The reducer: a resolution clears by session id only. */
  function MirrorOne(phone: map<string, Request>, act: Act): map<string, Request> {
    match act
    case Requested(s, asked) => phone[s := Request(asked.id, asked.prompt.signature)]
    case Resolved(s, _, _, _) => phone - {s}
    case _ => phone
  }

  function Mirror(phone: map<string, Request>, acts: seq<Act>): map<string, Request> {
    if acts == [] then phone else MirrorOne(Mirror(phone, acts[..|acts| - 1]), acts[|acts| - 1])
  }

  /** The last act of a trace, for the session it concerns and for the others. */
  lemma MirrorStep(phone: map<string, Request>, trace: seq<Act>, session: string)
    requires trace != []
    ensures
      var last := trace[|trace| - 1];
      ShownFor(MirrorOne(phone, last), session) ==
      if Concerns(last, session) then ToRequest(Open(trace, session)) else ShownFor(phone, session)
    ensures !Concerns(trace[|trace| - 1], session) ==> Open(trace, session) == Open(trace[..|trace| - 1], session)
  {
  }

  lemma {:induction false} MirrorShowsOpen(phone: map<string, Request>, trace: seq<Act>, p: nat, session: string)
    requires p <= |trace|
    ensures ShownFor(Mirror(phone, trace[p..]), session) ==
            if exists k :: p <= k < |trace| && Concerns(trace[k], session) then ToRequest(Open(trace, session))
            else ShownFor(phone, session)
    decreases |trace|
  {
    hide Open, ToRequest, ShownFor, MirrorOne, Concerns;
    var n := |trace| - 1;
    if p <= n {
      var front, acts := trace[..n], trace[p..];
      assert acts[..|acts| - 1] == front[p..] && acts[|acts| - 1] == trace[n];
      MirrorShowsOpen(phone, front, p, session);
      MirrorStep(Mirror(phone, front[p..]), trace, session);
      assert forall k :: p <= k < n ==> front[k] == trace[k];
    } else {
      assert trace[p..] == [];
    }
  }

  lemma {:induction false} TraceGrows(ds: seq<Desk>, es: seq<Event>, i: nat, j: nat)
    requires IsRun(ds, es) && i <= j < |ds|
    ensures |ds[i].trace| <= |ds[j].trace| && ds[j].trace[..|ds[i].trace|] == ds[i].trace
    decreases j
  {
    hide Next, Enabled;
    if i < j {
      TraceGrows(ds, es, i, j - 1);
      var d, e := ds[j - 1], es[j - 1];
      assert Enabled(d, e) && Next(d, e) == ds[j];
      NextExtends(d, e);
      assert ds[j].trace[..|ds[i].trace|] == ds[j].trace[..|d.trace|][..|ds[i].trace|];
    }
  }

  lemma NextExtends(d: Desk, e: Event)
    ensures |d.trace| <= |Next(d, e).trace| && Next(d, e).trace[..|d.trace|] == d.trace
  {
    hide AnswerBytes, Resolve;
    assert d.trace <= Next(d, e).trace by {
      match e
      case OutputSettles(session, _, _) => ResolveGrows(d, session, Superseded, []);
      case PhoneResponds(session, id, response, writable, bracketed) =>
        RespondGrows(d, session, id, response, writable, bracketed);
      case SessionExits(session) => ResolveGrows(d, session, SessionEnded, []);
      case _ =>
    }
  }

  lemma ResolveGrows(d: Desk, session: string, resolution: Resolution, optionIds: seq<string>)
    ensures d.trace <= Resolve(d, session, resolution, optionIds).trace
    ensures session in d.sessions ==> session in Resolve(d, session, resolution, optionIds).sessions
  {
  }

  lemma RespondGrows(d: Desk, session: string, id: string, response: Response, writable: bool, bracketed: bool)
    ensures d.trace <= Respond(d, session, id, response, writable, bracketed).0.trace
  {
    hide AnswerBytes, Resolve;
    ResolveGrows(d, session, if response.Cancel? then Cancelled else Answered,
                   if response.Options? then response.optionIds else []);
  }

  /** A phone that subscribes when the desktop is in `ds[i]` and then applies every later event shows exactly the
      desktop's active interaction in `ds[j]`, even when events emitted before the subscription, from position `p` on,
      arrive after its answer. */
  lemma PhoneMirrorsDesktop(ds: seq<Desk>, es: seq<Event>, i: nat, j: nat, p: nat,
                            phone: map<string, Request>, session: string)
    requires IsRun(ds, es) && i <= j < |ds| && p <= |ds[i].trace|
    requires session in ds[i].sessions && session in ds[j].sessions
    requires ShownFor(phone, session) == ActiveRequest(ds[i].sessions[session])
    ensures p <= |ds[j].trace|
    ensures ShownFor(Mirror(phone, ds[j].trace[p..]), session) == ActiveRequest(ds[j].sessions[session])
  {
    hide Orderly, Open, Mirror, Next;
    RunKeepsInv(ds, es, i);
    RunKeepsInv(ds, es, j);
    TraceGrows(ds, es, i, j);
    var trace, q := ds[j].trace, |ds[i].trace|;
    assert EntryAgrees(ds[i].sessions[session], Open(ds[i].trace, session));
    assert EntryAgrees(ds[j].sessions[session], Open(trace, session));
    MirrorShowsOpen(phone, trace, p, session);
    if !exists k :: p <= k < |trace| && Concerns(trace[k], session) {
      OpenFromLast(trace, session, q);
    }
  }

  /** What a subscription answer carries for a session. */
  function ActiveRequest(e: Entry): Option<Request> {
    if e.active.Some? && e.signature.Some? then Some(Request(e.active.value, e.signature.value)) else None
  }

  // ---- The daemon -------------------------------------------------------------------------

  class Daemon {
    var sessions: map<string, Entry>
    var enters: multiset<(string, string)>
    ghost var trace: seq<Act>

    ghost function State(): Desk
      reads this
    {
      Desk(sessions, enters, trace)
    }

    constructor ()
      ensures State() == INIT
    {
      sessions, enters, trace := map[], multiset{}, [];
    }

    method Emit(ghost act: Act)
      modifies this`trace
      ensures trace == old(trace) + [act]
    {
      trace := trace + [act];
    }

    method ResolveInteraction(session: string, resolution: Resolution, optionIds: seq<string>)
      modifies this
      ensures State() == Resolve(old(State()), session, resolution, optionIds)
    {
      if session !in sessions || sessions[session].active.None? {
        return;
      }
      var e := sessions[session];
      var id := e.active.value;
      e := e.(active := None);
      e := e.(bytes := map[]);
      e := e.(signature := None);
      sessions := sessions[session := e];
      Emit(Resolved(session, id, resolution, optionIds));
      if resolution != SessionEnded && e.status == Waiting {
        sessions := sessions[session := e.(status := Running)];
        Emit(Updated(session, Running));
      }
    }

    method RegisterInteraction(session: string, prompt: Prompt, id: string)
      modifies this
      ensures State() == Register(old(State()), session, prompt, id)
    {
      if session !in sessions {
        return;
      }
      var e := sessions[session];
      e := e.(active := Some(id));
      e := e.(bytes := prompt.optionBytes);
      e := e.(signature := Some(prompt.signature));
      e := e.(known := e.known + {id});
      sessions := sessions[session := e.(status := Waiting)];
      Emit(Requested(session, Asked(id, prompt)));
      Emit(Updated(session, Waiting));
    }

    method DetectInteraction(session: string, detection: Detection, id: string)
      modifies this
      ensures State() == Settle(old(State()), session, detection, id)
    {
      if session !in sessions || !sessions[session].alive || detection.NoOutput? {
        return;
      }
      var active := sessions[session].active;
      if detection.NoPrompt? {
        if active.Some? {
          ResolveInteraction(session, Superseded, []);
        }
        return;
      }
      if active.Some? && sessions[session].signature == Some(detection.prompt.signature) {
        return;
      }
      if active.Some? {
        ResolveInteraction(session, Superseded, []);
      }
      RegisterInteraction(session, detection.prompt, id);
    }

    method WritePty(session: string, id: string, bytes: seq<byte>, writable: bool) returns (failed: bool)
      modifies this`trace
      ensures State() == Write(old(State()), session, id, bytes, writable)
      ensures failed == (bytes != [] && !writable)
    {
      failed := bytes != [] && !writable;
      if bytes != [] && writable {
        Emit(Wrote(session, id, bytes));
      }
    }

    /** The interaction is resolved before the PTY is touched, so a duplicate response can never write twice. */
    method HandleInteractionRespond(session: string, id: string, response: Response, writable: bool, bracketed: bool)
      returns (outcome: Outcome)
      modifies this
      ensures (State(), outcome) == Respond(old(State()), session, id, response, writable, bracketed)
    {
      if session !in sessions {
        return SessionNotFound;
      }
      if id !in sessions[session].known {
        return InteractionNotFound;
      }
      var active := sessions[session].active;
      if active.None? || active.value != id {
        return InteractionStale;
      }
      var bindings := sessions[session].bytes;
      var failed;
      match response {
        case Options(optionIds) =>
          var payload := if optionIds != [] && optionIds[0] in bindings then bindings[optionIds[0]] else [];
          ResolveInteraction(session, Answered, optionIds);
          failed := WritePty(session, id, payload, writable);
          return if failed then PtyWriteFailed else Accepted;
        case TextAnswer(text, submit) =>
          ResolveInteraction(session, Answered, []);
          failed := WritePty(session, id, TextBody(text, submit, bracketed), writable);
          if failed {
            return PtyWriteFailed;
          }
          if submit {
            enters := enters + multiset{(session, id)};
          }
          return Accepted;
        case Cancel =>
          ResolveInteraction(session, Cancelled, []);
          return Accepted;
        case UnknownType =>
          return InvalidMessage;
      }
    }

    method OnExit(session: string)
      modifies this
      ensures State() == Exit(old(State()), session)
    {
      if session !in sessions {
        return;
      }
      if sessions[session].active.Some? {
        ResolveInteraction(session, SessionEnded, []);
      }
      sessions := sessions[session := sessions[session].(status := Stopped, alive := false)];
      Emit(Ended(session));
    }
  }
}
