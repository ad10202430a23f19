/** The relay's request broker: desktops, phone links and the table of requests forwarded and not yet answered
    (apps/relay/src/state.ts, apps/relay/src/handlers.ts).

    JavaScript Maps and Sets iterate in insertion order, so they are sequences here. A timer handle is never reused,
    so it also names the forwarded request it was armed for. `log` records what becomes of every forwarded request. */
module Relay {
  import opened Options
  import opened Sequences

  type Socket = int

  datatype Desktop = Desktop(id: string, socket: Socket)

  /** A phone's link to a desktop; a socket may hold several. */
  datatype Conn = Conn(desktopId: string, socket: Socket)

  datatype Group = Group(desktopId: string, conns: seq<Conn>)

  datatype Pending = Pending(key: string, desktopId: string, requestId: string, mobile: Conn, timer: nat)

  datatype How =
    | AnsweredBy(desktopId: string, responseId: string)
    | TimedOut
    | DesktopOffline
    | PhoneClosed

  datatype Act =
    | Forwarded(timer: nat, desktopId: string, requestId: string, phone: Socket, desktop: Socket)
    | Settled(timer: nat, phone: Socket, how: How)  // one reply to `phone`, none if it closed

  datatype State = State(
    desktops: seq<Desktop>,
    links: seq<Group>,
    pending: seq<Pending>,
    armed: map<nat, string>,  // armed timers and the key each will look up
    nextTimer: nat,
    log: seq<Act>)

  const INIT := State([], [], [], map[], 0, [])

  // ---- Keys -------------------------------------------------------------------------------

  const NUL := '\0'

  function PendingKey(desktopId: string, requestId: string): string {
    desktopId + [NUL] + requestId
  }

  predicate IsPrefix(a: string, b: string) {
    |a| <= |b| && b[..|a|] == a
  }

  /** Exactly which desktop ids can share a key: one id, followed by NUL, starts the other followed by NUL. */
  lemma KeysCollideIff(d1: string, d2: string)
    ensures (exists r1: string, r2: string :: PendingKey(d1, r1) == PendingKey(d2, r2)) <==>
            Collide(d1, d2)
  {
    if r1: string, r2: string :| PendingKey(d1, r1) == PendingKey(d2, r2) {
      var k1, k2 := PendingKey(d1, r1), PendingKey(d2, r2);
      assert k1[..|d1| + 1] == d1 + [NUL] && k2[..|d2| + 1] == d2 + [NUL];
      if |d1| <= |d2| {
        assert k2[..|d2| + 1][..|d1| + 1] == k1[..|d1| + 1];
      } else {
        assert k1[..|d1| + 1][..|d2| + 1] == k2[..|d2| + 1];
      }
    }
    if IsPrefix(d1 + [NUL], d2 + [NUL]) {
      var r1 := (d2 + [NUL])[|d1| + 1..];
      assert d1 + [NUL] + r1 == d2 + [NUL];
      assert PendingKey(d1, r1) == PendingKey(d2, "");
    }
    if IsPrefix(d2 + [NUL], d1 + [NUL]) {
      var r2 := (d1 + [NUL])[|d2| + 1..];
      assert d2 + [NUL] + r2 == d1 + [NUL];
      assert PendingKey(d1, "") == PendingKey(d2, r2);
    }
  }

  /** Whether some key of one desktop id is a key of the other. */
  predicate Collide(d1: string, d2: string) {
    IsPrefix(d1 + [NUL], d2 + [NUL]) || IsPrefix(d2 + [NUL], d1 + [NUL])
  }

  /** Keys are injective over desktop ids without NUL. */
  lemma KeysAreInjective(d1: string, r1: string, d2: string, r2: string)
    requires NUL !in d1 && NUL !in d2 && PendingKey(d1, r1) == PendingKey(d2, r2)
    ensures d1 == d2 && r1 == r2
  {
    var k := PendingKey(d1, r1);
    assert k[|d1|] == NUL && k[|d2|] == NUL;
    assert k[..|d1|] == d1 && k[..|d2|] == d2;
    assert k[|d1| + 1..] == r1 && k[|d2| + 1..] == r2;
  }

  lemma SameIdSameRequest(d: string, r1: string, r2: string)
    ensures PendingKey(d, r1) == PendingKey(d, r2) <==> r1 == r2
  {
    assert PendingKey(d, r1)[|d| + 1..] == r1 && PendingKey(d, r2)[|d| + 1..] == r2;
  }

  // ---- Desktops ---------------------------------------------------------------------------

  /** The id a socket is registered under; the empty string when it is not, as the handlers have it. */
  function IdOfSocket(ds: seq<Desktop>, socket: Socket): string {
    if ds == [] then "" else if ds[0].socket == socket then ds[0].id else IdOfSocket(ds[1..], socket)
  }

  function ById(ds: seq<Desktop>, id: string): Option<Desktop> {
    if ds == [] then None else if ds[0].id == id then Some(ds[0]) else ById(ds[1..], id)
  }

  /** Drops the registrations of `socket` under other ids. */
  function Unregister(ds: seq<Desktop>, socket: Socket, id: string): seq<Desktop> {
    if ds == [] then []
    else (if ds[0].socket == socket && ds[0].id != id then [] else [ds[0]]) + Unregister(ds[1..], socket, id)
  }

  /** A Map's `set`: an existing key keeps its place. */
  function SetDesktop(ds: seq<Desktop>, d: Desktop): seq<Desktop> {
    if ds == [] then [d] else if ds[0].id == d.id then [d] + ds[1..] else [ds[0]] + SetDesktop(ds[1..], d)
  }

  function WithoutSocket(ds: seq<Desktop>, socket: Socket): seq<Desktop> {
    if ds == [] then [] else if ds[0].socket == socket then ds[1..] else [ds[0]] + WithoutSocket(ds[1..], socket)
  }

  /** No id and no socket is registered twice. */
  predicate Distinct(ds: seq<Desktop>) {
    forall i, j :: 0 <= i < j < |ds| ==> ds[i].id != ds[j].id && ds[i].socket != ds[j].socket
  }

  // ---- Links ------------------------------------------------------------------------------

  function AddLink(links: seq<Group>, c: Conn): seq<Group> {
    if links == [] then [Group(c.desktopId, [c])]
    else if links[0].desktopId == c.desktopId then [links[0].(conns := links[0].conns + [c])] + links[1..]
    else [links[0]] + AddLink(links[1..], c)
  }

  function FirstOf(cs: seq<Conn>, socket: Socket): Option<Conn> {
    if cs == [] then None else if cs[0].socket == socket then Some(cs[0]) else FirstOf(cs[1..], socket)
  }

  function FindConn(links: seq<Group>, socket: Socket): Option<Conn> {
    if links == [] then None
    else if FirstOf(links[0].conns, socket).Some? then FirstOf(links[0].conns, socket)
    else FindConn(links[1..], socket)
  }

  function DropFirst(cs: seq<Conn>, socket: Socket): seq<Conn> {
    if cs == [] then [] else if cs[0].socket == socket then cs[1..] else [cs[0]] + DropFirst(cs[1..], socket)
  }

  /** Removes one link of `socket`, and its group if that was the last one. */
  function RemoveLink(links: seq<Group>, socket: Socket): seq<Group> {
    if links == [] then []
    else if FirstOf(links[0].conns, socket).Some? then
      var conns := DropFirst(links[0].conns, socket);
      (if conns == [] then [] else [links[0].(conns := conns)]) + links[1..]
    else [links[0]] + RemoveLink(links[1..], socket)
  }

  lemma {:induction false} DropFirstKeepsOthers(cs: seq<Conn>, socket: Socket, other: Socket)
    requires other != socket
    ensures FirstOf(DropFirst(cs, socket), other) == FirstOf(cs, other)
  {
    if cs != [] && cs[0].socket != socket {
      DropFirstKeepsOthers(cs[1..], socket, other);
    }
  }

  lemma {:induction false} RemoveLinkKeepsOthers(links: seq<Group>, socket: Socket, other: Socket)
    requires other != socket
    ensures FindConn(RemoveLink(links, socket), other) == FindConn(links, other)
  {
    if links != [] {
      DropFirstKeepsOthers(links[0].conns, socket, other);
      var conns := DropFirst(links[0].conns, socket);
      if FirstOf(links[0].conns, socket).None? {
        RemoveLinkKeepsOthers(links[1..], socket, other);
      } else if conns == [] {
        assert RemoveLink(links, socket) == links[1..];
      }
    }
  }

  lemma {:induction false} AddLinkKeeps(links: seq<Group>, c: Conn, socket: Socket)
    ensures FindConn(links, socket).Some? ==> FindConn(AddLink(links, c), socket).Some?
    ensures FindConn(AddLink(links, c), c.socket).Some?
  {
    if links != [] {
      FirstOfMore(links[0].conns, c, socket);
      FirstOfMore(links[0].conns, c, c.socket);
      AddLinkKeeps(links[1..], c, socket);
    }
  }

  lemma {:induction false} FirstOfMore(cs: seq<Conn>, c: Conn, socket: Socket)
    ensures FirstOf(cs, socket).Some? ==> FirstOf(cs + [c], socket) == FirstOf(cs, socket)
    ensures FirstOf(cs + [c], c.socket).Some?
  {
    if cs != [] {
      FirstOfMore(cs[1..], c, socket);
      assert (cs + [c])[1..] == cs[1..] + [c];
    }
  }

  lemma {:induction false} FoundConn(links: seq<Group>, socket: Socket)
    ensures FindConn(links, socket).Some? ==> FindConn(links, socket).value.socket == socket
  {
    if links != [] {
      FirstOfSocket(links[0].conns, socket);
      FoundConn(links[1..], socket);
    }
  }

  lemma {:induction false} FirstOfSocket(cs: seq<Conn>, socket: Socket)
    ensures FirstOf(cs, socket).Some? ==> FirstOf(cs, socket).value.socket == socket
  {
    if cs != [] {
      FirstOfSocket(cs[1..], socket);
    }
  }

  // ---- Settling forwarded requests --------------------------------------------------------

  datatype Test = KeyIs(key: string) | DesktopIs(desktopId: string) | PhoneIs(socket: Socket)

  predicate Matches(p: Pending, test: Test) {
    match test
    case KeyIs(key) => p.key == key
    case DesktopIs(d) => p.desktopId == d
    case PhoneIs(s) => p.mobile.socket == s
  }

  function Matching(ps: seq<Pending>, test: Test): seq<Pending> {
    if ps == [] then [] else (if Matches(ps[0], test) then [ps[0]] else []) + Matching(ps[1..], test)
  }

  function Others(ps: seq<Pending>, test: Test): seq<Pending> {
    if ps == [] then [] else (if Matches(ps[0], test) then [] else [ps[0]]) + Others(ps[1..], test)
  }

  function Settlements(ps: seq<Pending>, how: How): seq<Act> {
    if ps == [] then [] else [Settled(ps[0].timer, ps[0].mobile.socket, how)] + Settlements(ps[1..], how)
  }

  function TimersOf(ps: seq<Pending>): set<nat> {
    if ps == [] then {} else {ps[0].timer} + TimersOf(ps[1..])
  }

  /** The timers a table needs, each with the key it will look up. */
  function ArmedFor(ps: seq<Pending>): map<nat, string> {
    if ps == [] then map[] else ArmedFor(ps[1..])[ps[0].timer := ps[0].key]
  }

  /** Takes every matching request off the table, clears its timer and settles it. */
  function Settle(s: State, test: Test, how: How): State {
    var gone := Matching(s.pending, test);
    s.(pending := Others(s.pending, test), armed := s.armed - TimersOf(gone), log := s.log + Settlements(gone, how))
  }

  // ---- The steps --------------------------------------------------------------------------

  function Register(s: State, id: string, socket: Socket): State {
    s.(desktops := SetDesktop(Unregister(s.desktops, socket, id), Desktop(id, socket)))
  }

  function Link(s: State, c: Conn): State {
    s.(links := AddLink(s.links, c))
  }

  datatype Reply = Accepted | NotPaired | Offline | Duplicate

  /** A phone's session command. */
  function Forward(s: State, socket: Socket, requestId: string): (State, Reply) {
    var conn := FindConn(s.links, socket);
    if conn.None? then (s, NotPaired)
    else
      var desktop := ById(s.desktops, conn.value.desktopId);
      if desktop.None? then (s, Offline)
      else
        var key := PendingKey(desktop.value.id, requestId);
        if Matching(s.pending, KeyIs(key)) != [] then (s, Duplicate)
        else
          var p := Pending(key, desktop.value.id, requestId, conn.value, s.nextTimer);
          (s.(pending := s.pending + [p], armed := s.armed[s.nextTimer := key], nextTimer := s.nextTimer + 1,
              log := s.log + [Forwarded(s.nextTimer, p.desktopId, requestId, socket, desktop.value.socket)]), Accepted)
  }

  /** A desktop's response. */
  function Answer(s: State, socket: Socket, responseId: string): State {
    var id := IdOfSocket(s.desktops, socket);
    if id == "" then s else Settle(s, KeyIs(PendingKey(id, responseId)), AnsweredBy(id, responseId))
  }

  function FireTimer(s: State, timer: nat): State {
    if timer !in s.armed then s
    else Settle(s.(armed := s.armed - {timer}), KeyIs(s.armed[timer]), TimedOut)
  }

  /** A socket that a newer registration replaced is not registered any more and closes without effect. */
  function CloseDesktop(s: State, socket: Socket): State {
    var id := IdOfSocket(s.desktops, socket);
    var s1 := s.(desktops := WithoutSocket(s.desktops, socket));
    if id == "" then s1 else Settle(s1, DesktopIs(id), DesktopOffline)
  }

  function ClosePhone(s: State, socket: Socket): State {
    if FindConn(s.links, socket).None? then s
    else Settle(s.(links := RemoveLink(s.links, socket)), PhoneIs(socket), PhoneClosed)
  }

  datatype Event =
    | DesktopRegisters(id: string, socket: Socket)
    | PhoneLinks(conn: Conn)
    | PhoneRequests(socket: Socket, requestId: string)
    | DesktopResponds(socket: Socket, responseId: string)
    | TimerFires(timer: nat)
    | DesktopCloses(socket: Socket)
    | PhoneCloses(socket: Socket)

  function Next(s: State, e: Event): State {
    match e
    case DesktopRegisters(id, socket) => Register(s, id, socket)
    case PhoneLinks(conn) => Link(s, conn)
    case PhoneRequests(socket, requestId) => Forward(s, socket, requestId).0
    case DesktopResponds(socket, responseId) => Answer(s, socket, responseId)
    case TimerFires(timer) => FireTimer(s, timer)
    case DesktopCloses(socket) => CloseDesktop(s, socket)
    case PhoneCloses(socket) => ClosePhone(s, socket)
  }

  function Run(es: seq<Event>): State {
    if es == [] then INIT else Next(Run(es[..|es| - 1]), es[|es| - 1])
  }

  // ---- What the log means -----------------------------------------------------------------

  datatype Request = Request(desktopId: string, requestId: string, phone: Socket, desktop: Socket)

  function Requests(log: seq<Act>): map<nat, Request> {
    if log == [] then map[]
    else
      var last := log[|log| - 1];
      if last.Forwarded? then
        Requests(log[..|log| - 1])[last.timer := Request(last.desktopId, last.requestId, last.phone, last.desktop)]
      else Requests(log[..|log| - 1])
  }

  function SettledTimers(log: seq<Act>): set<nat> {
    if log == [] then {}
    else
      var last := log[|log| - 1];
      SettledTimers(log[..|log| - 1]) + (if last.Settled? then {last.timer} else {})
  }

  /** A request is forwarded under a new timer; it is settled once, towards the phone that sent it, and by a desktop
      only with a response whose key is the request's. */
  predicate Follows(front: seq<Act>, act: Act) {
    match act
    case Forwarded(t, _, _, _, _) => t !in Requests(front)
    case Settled(t, phone, how) =>
      && t in Requests(front) && t !in SettledTimers(front) && Requests(front)[t].phone == phone
      && (how.AnsweredBy? ==>
          PendingKey(how.desktopId, how.responseId) ==
          PendingKey(Requests(front)[t].desktopId, Requests(front)[t].requestId))
  }

  predicate Tidy(log: seq<Act>) {
    log == [] || (Tidy(log[..|log| - 1]) && Follows(log[..|log| - 1], log[|log| - 1]))
  }

  // ---- The invariant ----------------------------------------------------------------------

  /** One entry of the table, as the log and the links know it. */
  predicate Tracked(s: State, p: Pending) {
    && p.key == PendingKey(p.desktopId, p.requestId)
    && p.timer < s.nextTimer && p.mobile.desktopId == p.desktopId
    && FindConn(s.links, p.mobile.socket).Some?
    && p.timer in Requests(s.log) && p.timer !in SettledTimers(s.log)
    && Requests(s.log)[p.timer] == Request(p.desktopId, p.requestId, p.mobile.socket, Requests(s.log)[p.timer].desktop)
  }

  /** Entries are in the order of their timers, and no key is entered twice. */
  predicate DistinctEntries(ps: seq<Pending>) {
    ps == [] ||
    ((forall p :: p in ps[1..] ==> ps[0].timer < p.timer && ps[0].key != p.key) && DistinctEntries(ps[1..]))
  }

  ghost predicate Inv(s: State) {
    && Distinct(s.desktops)
    && Tidy(s.log)
    && DistinctEntries(s.pending)
    && (forall p :: p in s.pending ==> Tracked(s, p))
    && s.armed == ArmedFor(s.pending)
    && Requests(s.log).Keys == TimersOf(s.pending) + SettledTimers(s.log)
    && (forall t :: t in Requests(s.log) ==> t < s.nextTimer)
  }

  // ---- Every event keeps the invariant ----------------------------------------------------

  lemma {:induction false} PartitionMembers(ps: seq<Pending>, test: Test)
    ensures forall p :: p in Matching(ps, test) <==> p in ps && Matches(p, test)
    ensures forall p :: p in Others(ps, test) <==> p in ps && !Matches(p, test)
  {
    if ps != [] {
      PartitionMembers(ps[1..], test);
      assert ps == [ps[0]] + ps[1..];
    }
  }

  lemma {:induction false} PartitionDistinct(ps: seq<Pending>, test: Test)
    requires DistinctEntries(ps)
    ensures DistinctEntries(Matching(ps, test)) && DistinctEntries(Others(ps, test))
  {
    if ps != [] {
      PartitionDistinct(ps[1..], test);
      PartitionMembers(ps[1..], test);
      var gone, rest := Matching(ps[1..], test), Others(ps[1..], test);
      assert [] + gone == gone && [] + rest == rest;
      assert ([ps[0]] + gone)[1..] == gone && ([ps[0]] + rest)[1..] == rest;
    }
  }

  lemma {:induction false} PartitionTimers(ps: seq<Pending>, test: Test)
    requires DistinctEntries(ps)
    ensures TimersOf(ps) == TimersOf(Matching(ps, test)) + TimersOf(Others(ps, test))
    ensures ArmedFor(Others(ps, test)) == ArmedFor(ps) - TimersOf(Matching(ps, test))
  {
    if ps != [] {
      hide DistinctEntries, TimersOf, ArmedFor, Matching, Others;
      NewestLast(ps);
      PartitionTimers(ps[1..], test);
      InTimers(ps[1..], ps[0].timer);
      var p, gone, rest := ps[0], Matching(ps[1..], test), Others(ps[1..], test);
      FirstOut(ps, test);
      FirstEntry(ps[0], ps[1..]);
      FirstEntry(ps[0], gone);
      FirstEntry(ps[0], rest);
      assert ps == [p] + ps[1..];
      OverrideAndDrop(ArmedFor(ps[1..]), p.timer, p.key, TimersOf(gone));
    }
  }

  lemma FirstOut(ps: seq<Pending>, test: Test)
    requires ps != []
    ensures var gone, rest := Matching(ps[1..], test), Others(ps[1..], test);
            if Matches(ps[0], test) then Matching(ps, test) == [ps[0]] + gone && Others(ps, test) == rest
            else Matching(ps, test) == gone && Others(ps, test) == [ps[0]] + rest
  {
  }

  lemma FirstEntry(p: Pending, rest: seq<Pending>)
    ensures TimersOf([p] + rest) == {p.timer} + TimersOf(rest)
    ensures ArmedFor([p] + rest) == ArmedFor(rest)[p.timer := p.key]
  {
    assert ([p] + rest)[1..] == rest;
  }

  lemma OverrideAndDrop(m: map<nat, string>, t: nat, key: string, gone: set<nat>)
    requires t !in m && t !in gone
    ensures m[t := key] - ({t} + gone) == m - gone
    ensures m[t := key] - gone == (m - gone)[t := key]
  {
  }

  lemma NewestLast(ps: seq<Pending>)
    requires DistinctEntries(ps) && ps != []
    ensures DistinctEntries(ps[1..])
    ensures forall p :: p in ps[1..] ==> p.timer != ps[0].timer
  {
  }

  lemma Partition(ps: seq<Pending>, test: Test)
    requires DistinctEntries(ps)
    ensures forall p :: p in Matching(ps, test) <==> p in ps && Matches(p, test)
    ensures forall p :: p in Others(ps, test) <==> p in ps && !Matches(p, test)
    ensures TimersOf(ps) == TimersOf(Matching(ps, test)) + TimersOf(Others(ps, test))
    ensures DistinctEntries(Matching(ps, test)) && DistinctEntries(Others(ps, test))
    ensures ArmedFor(Others(ps, test)) == ArmedFor(ps) - TimersOf(Matching(ps, test))
  {
    PartitionMembers(ps, test);
    PartitionDistinct(ps, test);
    PartitionTimers(ps, test);
  }

  lemma {:induction false} InTimers(ps: seq<Pending>, t: nat)
    ensures t in TimersOf(ps) <==> exists p :: p in ps && p.timer == t
    ensures t in ArmedFor(ps) <==> t in TimersOf(ps)
  {
    if ps != [] {
      InTimers(ps[1..], t);
      assert ps == [ps[0]] + ps[1..];
      if ps[0].timer == t {
        assert ps[0] in ps;
      }
    }
  }

  lemma {:induction false} ArmedKey(ps: seq<Pending>, p: Pending)
    requires DistinctEntries(ps) && p in ps
    ensures p.timer in ArmedFor(ps) && ArmedFor(ps)[p.timer] == p.key
  {
    if ps[0] != p {
      ArmedKey(ps[1..], p);
    }
  }

  lemma {:induction false} SameKeySameEntry(ps: seq<Pending>, p: Pending, q: Pending)
    requires DistinctEntries(ps) && p in ps && q in ps && p.key == q.key
    ensures p == q
  {
    if ps[0] != p && ps[0] != q {
      SameKeySameEntry(ps[1..], p, q);
    }
  }

  lemma LogAfter(log: seq<Act>, act: Act)
    ensures Requests(log + [act]) ==
            if act.Forwarded? then
              Requests(log)[act.timer := Request(act.desktopId, act.requestId, act.phone, act.desktop)]
            else Requests(log)
    ensures SettledTimers(log + [act]) == SettledTimers(log) + (if act.Settled? then {act.timer} else {})
    ensures Tidy(log + [act]) <==> Tidy(log) && Follows(log, act)
  {
    assert (log + [act])[..|log|] == log;
  }

  predicate Settleable(log: seq<Act>, p: Pending, how: How) {
    Follows(log, Settled(p.timer, p.mobile.socket, how))
  }

  lemma {:induction false} SettlementsAreTidy(log: seq<Act>, ps: seq<Pending>, how: How)
    requires Tidy(log) && DistinctEntries(ps)
    requires forall p :: p in ps ==> Settleable(log, p, how)
    ensures var log' := log + Settlements(ps, how);
            && Tidy(log') && Requests(log') == Requests(log)
            && SettledTimers(log') == SettledTimers(log) + TimersOf(ps)
    decreases ps
  {
    hide Tidy, Requests, SettledTimers;
    if ps == [] {
      assert log + Settlements(ps, how) == log;
    } else {
      var act := Settled(ps[0].timer, ps[0].mobile.socket, how);
      assert ps[0] in ps;
      LogAfter(log, act);
      forall p | p in ps[1..] ensures Settleable(log + [act], p, how) {
        assert p in ps && Settleable(log, p, how);
      }
      SettlementsAreTidy(log + [act], ps[1..], how);
      Associative(log, [act], Settlements(ps[1..], how));
    }
  }

  lemma SettleKeepsInv(s: State, test: Test, how: How)
    requires Inv(s)
    requires how.AnsweredBy? ==> test == KeyIs(PendingKey(how.desktopId, how.responseId))
    ensures Inv(Settle(s, test, how))
  {
    hide Tidy, Requests, SettledTimers, DistinctEntries, Matching, Others, Distinct, FindConn, PendingKey;
    var gone := Matching(s.pending, test);
    Partition(s.pending, test);
    forall p | p in gone ensures Settleable(s.log, p, how) {
      assert Tracked(s, p);
    }
    SettlementsAreTidy(s.log, gone, how);
    var s' := Settle(s, test, how);
    forall p | p in s'.pending ensures Tracked(s', p) {
      assert Tracked(s, p);
      InTimers(gone, p.timer);
      forall q | q in gone ensures q.timer != p.timer {
        if q.timer == p.timer {
          SameTimerSameEntry(s.pending, p, q);
        }
      }
    }
  }

  lemma {:induction false} SameTimerSameEntry(ps: seq<Pending>, p: Pending, q: Pending)
    requires DistinctEntries(ps) && p in ps && q in ps && p.timer == q.timer
    ensures p == q
  {
    if ps[0] != p && ps[0] != q {
      SameTimerSameEntry(ps[1..], p, q);
    }
  }

  lemma {:induction false} AddedEntry(ps: seq<Pending>, p: Pending)
    requires DistinctEntries(ps)
    requires forall q :: q in ps ==> q.timer < p.timer && q.key != p.key
    ensures DistinctEntries(ps + [p])
    ensures TimersOf(ps + [p]) == TimersOf(ps) + {p.timer}
    ensures ArmedFor(ps + [p]) == ArmedFor(ps)[p.timer := p.key]
  {
    if ps != [] {
      assert ps == [ps[0]] + ps[1..] && ps[0] in ps;
      AddedEntry(ps[1..], p);
      assert (ps + [p])[1..] == ps[1..] + [p];
    } else {
      assert ps + [p] == [p] && [p][1..] == [];
    }
  }

  lemma {:induction false} ByIdHasId(ds: seq<Desktop>, id: string)
    ensures ById(ds, id).Some? ==> ById(ds, id).value.id == id
  {
    if ds != [] {
      ByIdHasId(ds[1..], id);
    }
  }

  lemma ForwardKeepsInv(s: State, socket: Socket, requestId: string)
    requires Inv(s)
    ensures Inv(Forward(s, socket, requestId).0)
  {
    hide Tidy, Requests, SettledTimers, DistinctEntries, Distinct, FindConn, ById, PendingKey, Matching;
    var conn := FindConn(s.links, socket);
    if conn.Some? && ById(s.desktops, conn.value.desktopId).Some? {
      var d := ById(s.desktops, conn.value.desktopId).value.id;
      FoundConn(s.links, socket);
      ByIdHasId(s.desktops, conn.value.desktopId);
      if Matching(s.pending, KeyIs(PendingKey(d, requestId))) == [] {
        AcceptKeepsInv(s, Pending(PendingKey(d, requestId), d, requestId, conn.value, s.nextTimer),
                       ById(s.desktops, conn.value.desktopId).value.socket);
      }
    }
  }

  lemma AcceptKeepsInv(s: State, p: Pending, desktop: Socket)
    requires Inv(s) && p.timer == s.nextTimer && p.key == PendingKey(p.desktopId, p.requestId)
    requires FindConn(s.links, p.mobile.socket).Some? && p.mobile.desktopId == p.desktopId
    requires Matching(s.pending, KeyIs(p.key)) == []
    ensures Inv(s.(pending := s.pending + [p], armed := s.armed[p.timer := p.key], nextTimer := s.nextTimer + 1,
                   log := s.log + [Forwarded(p.timer, p.desktopId, p.requestId, p.mobile.socket, desktop)]))
  {
    hide Tidy, Requests, SettledTimers, DistinctEntries, Distinct, FindConn, PendingKey, Matching, TimersOf, ArmedFor;
    var act := Forwarded(p.timer, p.desktopId, p.requestId, p.mobile.socket, desktop);
    var s' := s.(pending := s.pending + [p], armed := s.armed[p.timer := p.key], nextTimer := s.nextTimer + 1,
                 log := s.log + [act]);
    LogAfter(s.log, act);
    Partition(s.pending, KeyIs(p.key));
    forall q | q in s.pending ensures q.timer < p.timer && q.key != p.key {
      assert Tracked(s, q);
      assert q !in Matching(s.pending, KeyIs(p.key));
    }
    AddedEntry(s.pending, p);
    SettledAreRequested(s.log);
    forall q | q in s'.pending ensures Tracked(s', q) {
      if q in s.pending {
        assert Tracked(s, q);
      }
    }
  }

  lemma {:induction false} SettledAreRequested(log: seq<Act>)
    requires Tidy(log)
    ensures SettledTimers(log) <= Requests(log).Keys
  {
    if log != [] {
      SettledAreRequested(log[..|log| - 1]);
    }
  }

  // Registration

  lemma {:induction false} UnregisterShape(ds: seq<Desktop>, socket: Socket, id: string)
    requires Distinct(ds)
    ensures Distinct(Unregister(ds, socket, id))
    ensures forall d :: d in Unregister(ds, socket, id) ==> d in ds && (d.socket == socket ==> d.id == id)
  {
    if ds != [] {
      UnregisterShape(ds[1..], socket, id);
      var rest := Unregister(ds[1..], socket, id);
      assert forall d :: d in rest ==> d in ds[1..];
      DistinctCons(ds[0], rest, ds[1..]);
    }
  }

  lemma DistinctCons(d: Desktop, rest: seq<Desktop>, all: seq<Desktop>)
    requires Distinct([d] + all) && Distinct(rest) && forall e :: e in rest ==> e in all
    ensures Distinct([d] + rest)
  {
    forall e | e in rest ensures e.id != d.id && e.socket != d.socket {
      var i :| 0 <= i < |all| && all[i] == e;
      var whole := [d] + all;
      assert whole[0] == d && whole[i + 1] == e;
    }
  }

  lemma {:induction false} SetKeepsDistinct(ds: seq<Desktop>, d: Desktop)
    requires Distinct(ds)
    requires forall e :: e in ds && e.socket == d.socket ==> e.id == d.id
    ensures Distinct(SetDesktop(ds, d))
    ensures forall e :: e in SetDesktop(ds, d) ==> e == d || (e in ds && e.id != d.id)
  {
    if ds != [] {
      assert ds == [ds[0]] + ds[1..];
      if ds[0].id == d.id {
        assert forall e :: e in ds[1..] ==> e in ds && e.socket != d.socket;
      } else {
        SetKeepsDistinct(ds[1..], d);
        var rest := SetDesktop(ds[1..], d);
        forall e | e in rest ensures e.id != ds[0].id && e.socket != ds[0].socket {
          assert e == d || e in ds[1..];
        }
      }
    }
  }

  lemma {:induction false} WithoutSocketKeepsDistinct(ds: seq<Desktop>, socket: Socket)
    requires Distinct(ds)
    ensures Distinct(WithoutSocket(ds, socket))
    ensures forall d :: d in WithoutSocket(ds, socket) ==> d in ds
  {
    if ds != [] && ds[0].socket != socket {
      WithoutSocketKeepsDistinct(ds[1..], socket);
      assert ds == [ds[0]] + ds[1..];
      DistinctCons(ds[0], WithoutSocket(ds[1..], socket), ds[1..]);
    }
  }

  lemma RegistrationKeepsInv(s: State, desktops: seq<Desktop>)
    requires Inv(s) && Distinct(desktops)
    ensures Inv(s.(desktops := desktops))
  {
    hide Tidy, Requests, SettledTimers, DistinctEntries, Distinct, FindConn, PendingKey;
    forall p | p in s.pending ensures Tracked(s.(desktops := desktops), p) {
      assert Tracked(s, p);
    }
  }

  lemma RegisterKeepsInv(s: State, id: string, socket: Socket)
    requires Inv(s)
    ensures Inv(Register(s, id, socket))
  {
    hide Inv;
    assert Distinct(s.desktops) by { InvDistinct(s); }
    UnregisterShape(s.desktops, socket, id);
    SetKeepsDistinct(Unregister(s.desktops, socket, id), Desktop(id, socket));
    RegistrationKeepsInv(s, SetDesktop(Unregister(s.desktops, socket, id), Desktop(id, socket)));
  }

  lemma InvDistinct(s: State)
    requires Inv(s)
    ensures Distinct(s.desktops)
  {
  }

  lemma CloseDesktopKeepsInv(s: State, socket: Socket)
    requires Inv(s)
    ensures Inv(CloseDesktop(s, socket))
  {
    hide Inv, Settle;
    InvDistinct(s);
    WithoutSocketKeepsDistinct(s.desktops, socket);
    RegistrationKeepsInv(s, WithoutSocket(s.desktops, socket));
    var s1 := s.(desktops := WithoutSocket(s.desktops, socket));
    SettleKeepsInv(s1, DesktopIs(IdOfSocket(s.desktops, socket)), DesktopOffline);
  }

  lemma LinkKeepsInv(s: State, c: Conn)
    requires Inv(s)
    ensures Inv(Link(s, c))
  {
    hide Tidy, Requests, SettledTimers, DistinctEntries, Distinct, FindConn, PendingKey, AddLink;
    forall p | p in s.pending ensures Tracked(Link(s, c), p) {
      assert Tracked(s, p);
      AddLinkKeeps(s.links, c, p.mobile.socket);
    }
  }

  lemma ClosePhoneKeepsInv(s: State, socket: Socket)
    requires Inv(s)
    ensures Inv(ClosePhone(s, socket))
  {
    hide Tidy, Requests, SettledTimers, DistinctEntries, Distinct, FindConn, PendingKey, RemoveLink, Matching, Others;
    SettleKeepsInv(s, PhoneIs(socket), PhoneClosed);
    InvDistinctEntries(s);
    Partition(s.pending, PhoneIs(socket));
    var s1 := Settle(s, PhoneIs(socket), PhoneClosed);
    forall p | p in s1.pending ensures Tracked(s1.(links := RemoveLink(s.links, socket)), p) {
      assert Tracked(s1, p);
      RemoveLinkKeepsOthers(s.links, socket, p.mobile.socket);
    }
  }

  lemma InvDistinctEntries(s: State)
    requires Inv(s)
    ensures DistinctEntries(s.pending)
  {
  }

  /** An armed timer looks up its own request and no other, even when an earlier request had the same id. */
  lemma TimerFindsItsOwnRequest(s: State, timer: nat)
    requires Inv(s) && timer in s.armed
    ensures Matching(s.pending, KeyIs(s.armed[timer])) != []
    ensures forall p :: p in s.pending ==> (p.key == s.armed[timer] <==> p.timer == timer)
    ensures TimersOf(Matching(s.pending, KeyIs(s.armed[timer]))) == {timer}
  {
    hide Tidy, Requests, SettledTimers, Distinct, FindConn, PendingKey, Matching, Tracked, DistinctEntries;
    InTimers(s.pending, timer);
    var p :| p in s.pending && p.timer == timer;
    ArmedKey(s.pending, p);
    Partition(s.pending, KeyIs(p.key));
    var gone := Matching(s.pending, KeyIs(p.key));
    assert p in gone;
    forall q | q in s.pending && q.key == p.key ensures q == p {
      SameKeySameEntry(s.pending, p, q);
    }
    forall q | q in s.pending && q.timer == p.timer ensures q == p {
      SameTimerSameEntry(s.pending, p, q);
    }
    forall t ensures t in TimersOf(gone) <==> t == timer {
      InTimers(gone, t);
    }
  }

  lemma FireTimerKeepsInv(s: State, timer: nat)
    requires Inv(s)
    ensures Inv(FireTimer(s, timer))
    ensures timer in s.armed ==> FireTimer(s, timer) == Settle(s, KeyIs(s.armed[timer]), TimedOut)
  {
    hide Inv, Matching, Others, TimersOf;
    if timer in s.armed {
      TimerFindsItsOwnRequest(s, timer);
      SettleKeepsInv(s, KeyIs(s.armed[timer]), TimedOut);
      assert s.armed - {timer} - {timer} == s.armed - {timer};
    }
  }

  lemma NextKeepsInv(s: State, e: Event)
    requires Inv(s)
    ensures Inv(Next(s, e))
  {
    hide Inv, Register, Link, Forward, FireTimer, CloseDesktop, ClosePhone, Settle, PendingKey;
    match e
    case DesktopRegisters(id, socket) => RegisterKeepsInv(s, id, socket);
    case PhoneLinks(conn) => LinkKeepsInv(s, conn);
    case PhoneRequests(socket, requestId) => ForwardKeepsInv(s, socket, requestId);
    case DesktopResponds(socket, responseId) =>
      var id := IdOfSocket(s.desktops, socket);
      SettleKeepsInv(s, KeyIs(PendingKey(id, responseId)), AnsweredBy(id, responseId));
    case TimerFires(timer) => FireTimerKeepsInv(s, timer);
    case DesktopCloses(socket) => CloseDesktopKeepsInv(s, socket);
    case PhoneCloses(socket) => ClosePhoneKeepsInv(s, socket);
  }

  // ---- Results over whole runs ------------------------------------------------------------

  /** No socket is registered under two ids, every pending request is tracked by the log, by a link of its phone and
      by its own armed timer, and nothing else is armed. */
  lemma {:induction false} RunKeepsInv(es: seq<Event>)
    ensures Inv(Run(es))
  {
    if es != [] {
      RunKeepsInv(es[..|es| - 1]);
      NextKeepsInv(Run(es[..|es| - 1]), es[|es| - 1]);
    }
  }

  /** Conservation: every request ever forwarded is either pending, with its own armed timer, or settled; never both. */
  lemma RequestsAreConserved(es: seq<Event>, timer: nat)
    requires timer in Requests(Run(es).log)
    ensures var s := Run(es);
            && ((exists p :: p in s.pending && p.timer == timer) <==> timer !in SettledTimers(s.log))
            && (timer in s.armed <==> timer !in SettledTimers(s.log))
  {
    RunKeepsInv(es);
    var s := Run(es);
    InTimers(s.pending, timer);
    if p :| p in s.pending && p.timer == timer {
      assert Tracked(s, p);
    }
  }

  lemma {:induction false} TidyPrefix(log: seq<Act>, n: nat)
    requires Tidy(log) && n <= |log|
    ensures Tidy(log[..n])
    ensures n < |log| ==> Follows(log[..n], log[n])
  {
    var m := |log| - 1;
    if n == |log| {
      assert log[..n] == log;
    } else if n < m {
      TidyPrefix(log[..m], n);
      assert log[..m][..n] == log[..n];
    }
  }

  lemma {:induction false} LogContains(log: seq<Act>, i: nat)
    requires i < |log| && log[i].Settled?
    ensures log[i].timer in SettledTimers(log)
  {
    if i < |log| - 1 {
      LogContains(log[..|log| - 1], i);
    }
  }

  lemma {:induction false} RequestWasForwarded(log: seq<Act>, timer: nat) returns (i: nat)
    requires timer in Requests(log)
    ensures i < |log|
    ensures var r := Requests(log)[timer]; log[i] == Forwarded(timer, r.desktopId, r.requestId, r.phone, r.desktop)
  {
    var n := |log| - 1;
    if log[n].Forwarded? && log[n].timer == timer {
      i := n;
    } else {
      i := RequestWasForwarded(log[..n], timer);
    }
  }

  /** A request is settled at most once: by an answer, a timeout, its desktop's close or its phone's close. */
  lemma SettledAtMostOnce(es: seq<Event>, i: nat, j: nat)
    requires i < j < |Run(es).log| && Run(es).log[i].Settled? && Run(es).log[j].Settled?
    ensures Run(es).log[i].timer != Run(es).log[j].timer
  {
    RunKeepsInv(es);
    var log := Run(es).log;
    TidyPrefix(log, j);
    assert log[..j][i] == log[i];
    LogContains(log[..j], i);
  }

  /** Whoever settles a request, the reply goes to the phone that sent it. A desktop settles only a request whose key
      is its response's: a request forwarded to that desktop under that id, unless the two ids can share a key. */
  lemma RepliesReachTheirRequester(es: seq<Event>, j: nat) returns (i: nat)
    requires j < |Run(es).log| && Run(es).log[j].Settled?
    ensures i < j
    ensures var log := Run(es).log;
            && log[i].Forwarded? && log[i].timer == log[j].timer && log[i].phone == log[j].phone
            && (log[j].how.AnsweredBy? ==>
                var how := log[j].how;
                && PendingKey(how.desktopId, how.responseId) == PendingKey(log[i].desktopId, log[i].requestId)
                && ((how.desktopId == log[i].desktopId && how.responseId == log[i].requestId) ||
                    (how.desktopId != log[i].desktopId && Collide(how.desktopId, log[i].desktopId))))
  {
    hide PendingKey;
    RunKeepsInv(es);
    var log := Run(es).log;
    TidyPrefix(log, j);
    i := RequestWasForwarded(log[..j], log[j].timer);
    assert log[..j][i] == log[i];
    if log[j].how.AnsweredBy? {
      KeysCollideIff(log[j].how.desktopId, log[i].desktopId);
      SameIdSameRequest(log[i].desktopId, log[j].how.responseId, log[i].requestId);
    }
  }

  /** After a phone's socket has closed, none of its requests is pending or timed. */
  lemma ClosedPhoneHasNoRequests(es: seq<Event>, socket: Socket)
    ensures forall p :: p in ClosePhone(Run(es), socket).pending ==> p.mobile.socket != socket
  {
    hide Tidy, Requests, SettledTimers, FindConn, PendingKey, Matching, Others, Run, RemoveLink;
    RunKeepsInv(es);
    var s := Run(es);
    InvDistinctEntries(s);
    Partition(s.pending, PhoneIs(socket));
    forall p | p in ClosePhone(s, socket).pending ensures p.mobile.socket != socket {
      assert p in s.pending ==> Tracked(s, p);
    }
  }

  // Registrations

  lemma {:induction false} FoundIff(ds: seq<Desktop>, id: string)
    requires Distinct(ds)
    ensures forall d :: d in ds && d.id == id <==> ById(ds, id) == Some(d)
  {
    if ds != [] {
      FoundIff(ds[1..], id);
      assert ds == [ds[0]] + ds[1..];
    }
  }

  lemma {:induction false} HoldsId(ds: seq<Desktop>, socket: Socket, id: string)
    requires Distinct(ds) && id != ""
    ensures IdOfSocket(ds, socket) == id <==> Desktop(id, socket) in ds
  {
    if ds != [] {
      HoldsId(ds[1..], socket, id);
      assert ds == [ds[0]] + ds[1..];
      assert ds[0].socket == socket ==> Desktop(id, socket) !in ds[1..];
    }
  }

  lemma {:induction false} UnregisteredIff(ds: seq<Desktop>, socket: Socket, id: string, d: Desktop)
    ensures d in Unregister(ds, socket, id) <==> d in ds && (d.socket == socket ==> d.id == id)
  {
    if ds != [] {
      UnregisteredIff(ds[1..], socket, id, d);
      assert ds == [ds[0]] + ds[1..];
    }
  }

  lemma {:induction false} SetIff(ds: seq<Desktop>, added: Desktop, d: Desktop)
    requires Distinct(ds)
    ensures d in SetDesktop(ds, added) <==> d == added || (d in ds && d.id != added.id)
  {
    if ds != [] {
      assert ds == [ds[0]] + ds[1..];
      if ds[0].id != added.id {
        SetIff(ds[1..], added, d);
      }
    }
  }

  lemma {:induction false} WithoutSocketIff(ds: seq<Desktop>, socket: Socket, d: Desktop)
    requires Distinct(ds)
    ensures d in WithoutSocket(ds, socket) <==> d in ds && d.socket != socket
  {
    if ds != [] {
      assert ds == [ds[0]] + ds[1..];
      if ds[0].socket != socket {
        WithoutSocketIff(ds[1..], socket, d);
      }
    }
  }

  /** Who is registered after an event: a registration takes the id from its socket before and the socket from its other
      ids, a close takes the socket's id, and nothing else changes. */
  lemma RegisteredIff(es: seq<Event>, e: Event, d: Desktop)
    ensures
      var before, after := Run(es).desktops, Next(Run(es), e).desktops;
      d in after <==>
      match e
      case DesktopRegisters(id, socket) => d == Desktop(id, socket) || (d in before && d.id != id && d.socket != socket)
      case DesktopCloses(socket) => d in before && d.socket != socket
      case _ => d in before
  {
    RunKeepsInv(es);
    var ds := Run(es).desktops;
    InvDistinct(Run(es));
    hide Run, Inv, Distinct, Matching, Others, FindConn, ById, PendingKey;
    match e
    case DesktopRegisters(id, socket) =>
      UnregisterShape(ds, socket, id);
      UnregisteredIff(ds, socket, id, d);
      SetIff(Unregister(ds, socket, id), Desktop(id, socket), d);
    case DesktopCloses(socket) => WithoutSocketIff(ds, socket, d);
    case _ =>
  }

  // Links

  /** All links, in the order in which the Map and its Sets are walked. */
  function Conns(links: seq<Group>): seq<Conn> {
    if links == [] then [] else links[0].conns + Conns(links[1..])
  }

  /** The first link of a socket in that order; a socket may have several. */
  predicate FirstLink(conns: seq<Conn>, socket: Socket, c: Conn) {
    exists i :: 0 <= i < |conns| && conns[i] == c && c.socket == socket && NoneBefore(conns, socket, i)
  }

  predicate NoneBefore(conns: seq<Conn>, socket: Socket, i: nat)
    requires i <= |conns|
  {
    forall j :: 0 <= j < i ==> conns[j].socket != socket
  }

  lemma {:induction false} FirstOfIff(conns: seq<Conn>, socket: Socket)
    ensures FirstOf(conns, socket).None? <==> NoneBefore(conns, socket, |conns|)
    ensures forall c :: FirstLink(conns, socket, c) <==> FirstOf(conns, socket) == Some(c)
  {
    if conns != [] {
      FirstOfIff(conns[1..], socket);
      if conns[0].socket == socket {
        assert NoneBefore(conns, socket, 0);
      } else {
        var rest := conns[1..];
        forall c ensures FirstLink(conns, socket, c) <==> FirstLink(rest, socket, c) {
          if FirstLink(rest, socket, c) {
            var i :| 0 <= i < |rest| && rest[i] == c && c.socket == socket && NoneBefore(rest, socket, i);
            assert conns[i + 1] == c && NoneBefore(conns, socket, i + 1);
          }
          if FirstLink(conns, socket, c) {
            var i :| 0 <= i < |conns| && conns[i] == c && c.socket == socket && NoneBefore(conns, socket, i);
            assert rest[i - 1] == c && NoneBefore(rest, socket, i - 1);
          }
        }
      }
    }
  }

  lemma {:induction false} FirstOfParts(a: seq<Conn>, b: seq<Conn>, socket: Socket)
    ensures FirstOf(a + b, socket) == if FirstOf(a, socket).Some? then FirstOf(a, socket) else FirstOf(b, socket)
  {
    if a == [] {
      assert a + b == b;
    } else {
      FirstOfParts(a[1..], b, socket);
      assert (a + b)[1..] == a[1..] + b;
    }
  }

  lemma {:induction false} FindsFirst(links: seq<Group>, socket: Socket)
    ensures FindConn(links, socket) == FirstOf(Conns(links), socket)
  {
    if links != [] {
      FindsFirst(links[1..], socket);
      FirstOfParts(links[0].conns, Conns(links[1..]), socket);
    }
  }

  predicate GroupOf(g: Group, desktopId: string) {
    g.desktopId == desktopId && g.conns != [] && forall c :: c in g.conns ==> c.desktopId == desktopId
  }

  /** Every group holds the links of its desktop, and no desktop has two groups. */
  predicate Grouped(links: seq<Group>) {
    links == [] ||
    (GroupOf(links[0], links[0].desktopId) && NoGroup(links[1..], links[0].desktopId) && Grouped(links[1..]))
  }

  predicate NoGroup(links: seq<Group>, desktopId: string) {
    forall g :: g in links ==> g.desktopId != desktopId
  }

  lemma {:induction false} OtherDesktops(links: seq<Group>, desktopId: string)
    requires Grouped(links) && NoGroup(links, desktopId)
    ensures forall c :: c in Conns(links) ==> c.desktopId != desktopId
  {
    if links != [] {
      assert links == [links[0]] + links[1..];
      OtherDesktops(links[1..], desktopId);
    }
  }

  lemma {:induction false} LinkingAddsNoGroup(links: seq<Group>, c: Conn, desktopId: string)
    requires NoGroup(links, desktopId) && c.desktopId != desktopId
    ensures NoGroup(AddLink(links, c), desktopId)
  {
    if links != [] {
      assert links == [links[0]] + links[1..];
      LinkingAddsNoGroup(links[1..], c, desktopId);
    }
  }

  lemma InFront(g: Group, rest: seq<Group>)
    ensures Conns([g] + rest) == g.conns + Conns(rest)
    ensures Grouped([g] + rest) <==> GroupOf(g, g.desktopId) && NoGroup(rest, g.desktopId) && Grouped(rest)
  {
    assert ([g] + rest)[1..] == rest;
  }

  /** A new link comes behind all links of its desktop, or last if there is none. */
  lemma {:induction false} LinkingAdds(links: seq<Group>, c: Conn) returns (a: seq<Conn>, b: seq<Conn>)
    requires Grouped(links)
    ensures Grouped(AddLink(links, c))
    ensures Conns(links) == a + b && Conns(AddLink(links, c)) == a + [c] + b
    ensures forall d :: d in b ==> d.desktopId != c.desktopId
    ensures b != [] ==> a != [] && a[|a| - 1].desktopId == c.desktopId
  {
    hide Grouped, Conns;
    if links == [] {
      a, b := [], [];
      LinkingFirst(c);
    } else {
      var g, rest := links[0], links[1..];
      assert links == [g] + rest;
      InFront(g, rest);
      if g.desktopId == c.desktopId {
        var grown := g.(conns := g.conns + [c]);
        a, b := g.conns, Conns(rest);
        OtherDesktops(rest, c.desktopId);
        InFront(grown, rest);
        assert a[|a| - 1] in g.conns;
      } else {
        a, b := LinkingAdds(rest, c);
        LinkingAddsNoGroup(rest, c, g.desktopId);
        InFront(g, AddLink(rest, c));
        Associative(g.conns, a, b);
        Associative(g.conns, a + [c], b);
        Associative(g.conns, a, [c]);
        a := g.conns + a;
      }
    }
  }

  lemma LinkingFirst(c: Conn)
    ensures Conns([]) == [] && Conns(AddLink([], c)) == [] + [c] + [] && Grouped(AddLink([], c))
  {
    assert [Group(c.desktopId, [c])][1..] == [];
  }

  /** Only the first link of a socket is removed. */
  lemma {:induction false} RemovingDrops(links: seq<Group>, socket: Socket) returns (a: seq<Conn>, b: seq<Conn>)
    requires Grouped(links) && FindConn(links, socket).Some?
    ensures Grouped(RemoveLink(links, socket))
    ensures Conns(links) == a + [FindConn(links, socket).value] + b && Conns(RemoveLink(links, socket)) == a + b
    ensures NoneBefore(a, socket, |a|) && FindConn(links, socket).value.socket == socket
  {
    hide Grouped, Conns, DropFirst, FirstOf;
    var g, rest := links[0], links[1..];
    assert links == [g] + rest;
    InFront(g, rest);
    if FirstOf(g.conns, socket).Some? {
      a, b := DroppingFirst(g.conns, socket);
      var c := FirstOf(g.conns, socket).value;
      Associative(a + [c], b, Conns(rest));
      Associative(a, b, Conns(rest));
      var left := g.(conns := a + b);
      InFront(left, rest);
      if a + b == [] {
        assert [] + rest == rest && [] + Conns(rest) == Conns(rest);
      }
      b := b + Conns(rest);
    } else {
      a, b := RemovingDrops(rest, socket);
      RemovingAddsNoGroup(rest, socket, g.desktopId);
      InFront(g, RemoveLink(rest, socket));
      FirstOfIff(g.conns, socket);
      var c := FindConn(rest, socket).value;
      Associative(g.conns, a + [c], b);
      Associative(g.conns, a, [c]);
      Associative(g.conns, a, b);
      a := g.conns + a;
    }
  }

  lemma {:induction false} DroppingFirst(cs: seq<Conn>, socket: Socket) returns (a: seq<Conn>, b: seq<Conn>)
    requires FirstOf(cs, socket).Some?
    ensures cs == a + [FirstOf(cs, socket).value] + b && DropFirst(cs, socket) == a + b
    ensures NoneBefore(a, socket, |a|) && FirstOf(cs, socket).value.socket == socket
  {
    if cs[0].socket == socket {
      a, b := [], cs[1..];
    } else {
      a, b := DroppingFirst(cs[1..], socket);
      a := [cs[0]] + a;
    }
  }

  lemma {:induction false} RemovingAddsNoGroup(links: seq<Group>, socket: Socket, desktopId: string)
    requires NoGroup(links, desktopId)
    ensures NoGroup(RemoveLink(links, socket), desktopId)
  {
    if links != [] {
      assert links == [links[0]] + links[1..];
      RemovingAddsNoGroup(links[1..], socket, desktopId);
    }
  }

  lemma {:induction false} RunKeepsGroups(es: seq<Event>)
    ensures Grouped(Run(es).links)
  {
    if es != [] {
      hide Grouped, Matching, Others, PendingKey, AddLink, RemoveLink, FindConn;
      var s, e := Run(es[..|es| - 1]), es[|es| - 1];
      RunKeepsGroups(es[..|es| - 1]);
      if e.PhoneLinks? {
        var a, b := LinkingAdds(s.links, e.conn);
      } else if e.PhoneCloses? && FindConn(s.links, e.socket).Some? {
        var a, b := RemovingDrops(s.links, e.socket);
      }
    } else {
      assert Grouped(INIT.links);
    }
  }

  /** The links after an event: a link is added behind the links of its desktop, a phone's close removes the first link
      of its socket, and nothing else changes them. */
  lemma LinksAfter(es: seq<Event>, e: Event) returns (a: seq<Conn>, b: seq<Conn>)
    ensures
      var before, after := Conns(Run(es).links), Conns(Next(Run(es), e).links);
      match e
      case PhoneLinks(c) =>
        && before == a + b && after == a + [c] + b && (forall d :: d in b ==> d.desktopId != c.desktopId)
        && (b != [] ==> a != [] && a[|a| - 1].desktopId == c.desktopId)
      case PhoneCloses(socket) =>
        if NoneBefore(before, socket, |before|) then after == before
        else exists c :: FirstLink(before, socket, c) && before == a + [c] + b && after == a + b && NoneBefore(a, socket, |a|)
      case _ => after == before
  {
    RunKeepsGroups(es);
    var s := Run(es);
    hide Run, Grouped, Conns, Matching, Others, PendingKey, AddLink, RemoveLink, FindConn, FirstLink, NoneBefore;
    a, b := [], [];
    match e
    case PhoneLinks(c) => a, b := LinkingAdds(s.links, c);
    case PhoneCloses(socket) =>
      FindsFirst(s.links, socket);
      FirstOfIff(Conns(s.links), socket);
      if FindConn(s.links, socket).Some? {
        a, b := RemovingDrops(s.links, socket);
      }
    case _ =>
  }

  // Replies and settlements

  predicate Registered(s: State, desktopId: string) {
    exists d :: d in s.desktops && d.id == desktopId
  }

  /** A request with that id waits for that desktop, or for one whose id shares the key. */
  predicate InFlight(s: State, desktopId: string, requestId: string) {
    exists p :: p in s.pending && PendingKey(p.desktopId, p.requestId) == PendingKey(desktopId, requestId)
  }

  /** The request goes to the socket that is registered for the desktop of the phone's first link. */
  predicate ForwardsTo(s: State, d: Desktop, socket: Socket, requestId: string, s': State) {
    && d in s.desktops
    && s'.log == s.log + [Forwarded(s.nextTimer, d.id, requestId, socket, d.socket)]
    && s'.pending == s.pending +
         [Pending(PendingKey(d.id, requestId), d.id, requestId, Conn(d.id, socket), s.nextTimer)]
  }

  /** Which reply a phone's request gets, over any run: it is not paired exactly when no link has its socket, and the
      desktop of its first link is offline exactly when nobody is registered for it; a request is refused as a duplicate
      exactly when one with its key is in flight, and forwarded otherwise. */
  lemma ReplyIff(es: seq<Event>, socket: Socket, requestId: string)
    ensures
      var s, r := Run(es), Forward(Run(es), socket, requestId);
      var conns := Conns(s.links);
      && (r.1 == NotPaired <==> forall c :: c in conns ==> c.socket != socket)
      && (r.1 == Offline <==> exists c :: FirstLink(conns, socket, c) && !Registered(s, c.desktopId))
      && (r.1 == Duplicate <==>
          exists c :: FirstLink(conns, socket, c) && Registered(s, c.desktopId) && InFlight(s, c.desktopId, requestId))
      && (r.1 == Accepted <==> exists d :: ForwardsTo(s, d, socket, requestId, r.0))
      && (r.1 != Accepted ==> r.0 == s)
      && (forall c, d :: FirstLink(conns, socket, c) && ForwardsTo(s, d, socket, requestId, r.0) ==>
            d.id == c.desktopId)
  {
    RunKeepsInv(es);
    var s := Run(es);
    hide Run, Inv, Conns, FirstOf, FirstLink, InFlight, Registered, ForwardsTo, Forward, NoneBefore;
    FindsFirst(s.links, socket);
    FirstOfIff(Conns(s.links), socket);
    Unlinked(Conns(s.links), socket);
    if FindConn(s.links, socket).Some? {
      ForwardIs(s, socket, requestId, FindConn(s.links, socket).value);
    } else {
      NotPairedIsRefused(s, socket, requestId);
    }
  }

  lemma Unlinked(conns: seq<Conn>, socket: Socket)
    ensures NoneBefore(conns, socket, |conns|) <==> forall c :: c in conns ==> c.socket != socket
  {
  }

  lemma NotPairedIsRefused(s: State, socket: Socket, requestId: string)
    requires FindConn(s.links, socket).None?
    ensures Forward(s, socket, requestId) == (s, NotPaired)
    ensures forall d :: !ForwardsTo(s, d, socket, requestId, s)
  {
    forall d ensures !ForwardsTo(s, d, socket, requestId, s) {
      assert |s.log| != |s.log + [Forwarded(s.nextTimer, d.id, requestId, socket, d.socket)]|;
    }
  }

  lemma ForwardIs(s: State, socket: Socket, requestId: string, c: Conn)
    requires Inv(s) && FindConn(s.links, socket) == Some(c)
    ensures
      var r := Forward(s, socket, requestId);
      && r.1 == (if !Registered(s, c.desktopId) then Offline
                 else if InFlight(s, c.desktopId, requestId) then Duplicate else Accepted)
      && (r.1 == Accepted <==> exists d :: ForwardsTo(s, d, socket, requestId, r.0))
      && (r.1 != Accepted ==> r.0 == s)
      && (forall d :: ForwardsTo(s, d, socket, requestId, r.0) ==> d.id == c.desktopId)
  {
    InvDistinct(s);
    FoundConn(s.links, socket);
    FoundIff(s.desktops, c.desktopId);
    InFlightIff(s, c.desktopId, requestId);
    hide Inv, Distinct, FindConn, ById, PendingKey, Matching, InFlight;
    var r := Forward(s, socket, requestId);
    if r.1 == Accepted {
      var d := ById(s.desktops, c.desktopId).value;
      assert c == Conn(d.id, socket);
      assert ForwardsTo(s, d, socket, requestId, r.0);
      forall e | ForwardsTo(s, e, socket, requestId, r.0) ensures e.id == c.desktopId {
        assert r.0.log[|s.log|] == Forwarded(s.nextTimer, e.id, requestId, socket, e.socket);
      }
    } else {
      forall d ensures !ForwardsTo(s, d, socket, requestId, s) {
        assert |s.log| != |s.log + [Forwarded(s.nextTimer, d.id, requestId, socket, d.socket)]|;
      }
    }
  }

  lemma InFlightIff(s: State, desktopId: string, requestId: string)
    requires Inv(s)
    ensures Matching(s.pending, KeyIs(PendingKey(desktopId, requestId))) != [] <==> InFlight(s, desktopId, requestId)
  {
    hide PendingKey, Matching, Tidy, Requests, SettledTimers, DistinctEntries, Distinct, FindConn;
    var key := PendingKey(desktopId, requestId);
    PartitionMembers(s.pending, KeyIs(key));
    var found := Matching(s.pending, KeyIs(key));
    forall p | p in s.pending ensures p.key == PendingKey(p.desktopId, p.requestId) {
      assert Tracked(s, p);
    }
    if found != [] {
      assert found[0] in found && Matches(found[0], KeyIs(key));
    }
    if p :| p in s.pending && PendingKey(p.desktopId, p.requestId) == key {
      assert Matches(p, KeyIs(key)) && p in found;
    }
  }

  /** Event `e` settles the pending request `p`, for reason `how`. */
  predicate Settles(s: State, e: Event, p: Pending, how: How) {
    match e
    case DesktopResponds(socket, responseId) =>
      && how.AnsweredBy? && how.responseId == responseId
      && how.desktopId != "" && Desktop(how.desktopId, socket) in s.desktops
      && PendingKey(how.desktopId, responseId) == PendingKey(p.desktopId, p.requestId)
    case TimerFires(timer) => how == TimedOut && timer == p.timer
    case DesktopCloses(socket) => how == DesktopOffline && p.desktopId != "" && Desktop(p.desktopId, socket) in s.desktops
    case PhoneCloses(socket) => how == PhoneClosed && socket == p.mobile.socket
    case _ => false
  }

  /** When a pending request is settled, and how: by the response of a desktop that is registered under an id of its key,
      by its own timer, by the close of its desktop's socket or of its phone's. Nothing else settles it, and what
      settles it says so to its phone. */
  lemma SettledIff(es: seq<Event>, e: Event, p: Pending, how: How)
    requires p in Run(es).pending
    ensures
      var s, next := Run(es), Next(Run(es), e);
      && (Settled(p.timer, p.mobile.socket, how) in next.log <==> Settles(s, e, p, how))
      && (Settles(s, e, p, how) ==> p !in next.pending)
      && (p !in next.pending ==> exists h :: Settles(s, e, p, h))
  {
    RunKeepsInv(es);
    var s := Run(es);
    PendingIsUnsettled(s, p, how);
    hide Run, Inv, Tracked, Settle, Matching, Others, IdOfSocket, PendingKey, FindConn, Tidy, Distinct, Requests;
    match e
    case DesktopResponds(socket, responseId) =>
      var id := IdOfSocket(s.desktops, socket);
      InvDistinct(s);
      if id != "" {
        HoldsId(s.desktops, socket, id);
        SettleSettles(s, KeyIs(PendingKey(id, responseId)), AnsweredBy(id, responseId), p, how);
        if Matches(p, KeyIs(PendingKey(id, responseId))) {
          assert Settles(s, e, p, AnsweredBy(id, responseId));
        }
      }
      if how.AnsweredBy? && how.desktopId != "" { HoldsId(s.desktops, socket, how.desktopId); }
    case TimerFires(timer) =>
      FireTimerKeepsInv(s, timer);
      if timer in s.armed {
        TimerFindsItsOwnRequest(s, timer);
        SettleSettles(s, KeyIs(s.armed[timer]), TimedOut, p, how);
        if timer == p.timer { assert Settles(s, e, p, TimedOut); }
      } else {
        PendingIsArmed(s, p);
      }
    case DesktopCloses(socket) =>
      var id := IdOfSocket(s.desktops, socket);
      InvDistinct(s);
      if id != "" {
        HoldsId(s.desktops, socket, id);
        SettleSettles(s, DesktopIs(id), DesktopOffline, p, how);
        OnlyDesktops(s, WithoutSocket(s.desktops, socket), DesktopIs(id), DesktopOffline);
        if p.desktopId == id { assert Settles(s, e, p, DesktopOffline); }
      }
      if p.desktopId != "" { HoldsId(s.desktops, socket, p.desktopId); }
    case PhoneCloses(socket) =>
      SettleSettles(s, PhoneIs(socket), PhoneClosed, p, how);
      if p.mobile.socket == socket {
        PendingIsLinked(s, p);
        assert Settles(s, e, p, PhoneClosed);
      }
    case _ => OtherEventsSettleNothing(s, e, p, how);
  }

  lemma PendingIsUnsettled(s: State, p: Pending, how: How)
    requires Inv(s) && p in s.pending
    ensures Settled(p.timer, p.mobile.socket, how) !in s.log && p.key == PendingKey(p.desktopId, p.requestId)
  {
    assert Tracked(s, p);
    if Settled(p.timer, p.mobile.socket, how) in s.log {
      var i :| 0 <= i < |s.log| && s.log[i] == Settled(p.timer, p.mobile.socket, how);
      LogContains(s.log, i);
      assert false;
    }
  }

  lemma PendingIsArmed(s: State, p: Pending)
    requires Inv(s) && p in s.pending
    ensures p.timer in s.armed
  {
    ArmedKey(s.pending, p);
  }

  lemma PendingIsLinked(s: State, p: Pending)
    requires Inv(s) && p in s.pending
    ensures FindConn(s.links, p.mobile.socket).Some?
  {
    assert Tracked(s, p);
  }

  lemma OnlyDesktops(s: State, desktops: seq<Desktop>, test: Test, how: How)
    ensures Settle(s.(desktops := desktops), test, how) == Settle(s, test, how).(desktops := desktops)
  {
  }

  lemma SettleSettles(s: State, test: Test, reason: How, p: Pending, how: How)
    requires Inv(s) && p in s.pending
    ensures
      var next := Settle(s, test, reason);
      && (p in next.pending <==> !Matches(p, test))
      && (Settled(p.timer, p.mobile.socket, how) in next.log <==> Matches(p, test) && how == reason)
  {
    hide Matching, Others, PendingKey, Tidy, Requests, SettledTimers, Distinct, FindConn, DistinctEntries;
    PendingIsUnsettled(s, p, how);
    PartitionMembers(s.pending, test);
    SettlementsOf(Matching(s.pending, test), reason, p.timer, p.mobile.socket, how);
    if q :| q in Matching(s.pending, test) && q.timer == p.timer {
      SameTimerSameEntry(s.pending, p, q);
    }
  }

  lemma {:induction false} SettlementsOf(ps: seq<Pending>, reason: How, timer: nat, phone: Socket, how: How)
    ensures Settled(timer, phone, how) in Settlements(ps, reason) <==>
            how == reason && exists q :: q in ps && q.timer == timer && q.mobile.socket == phone
  {
    if ps != [] {
      SettlementsOf(ps[1..], reason, timer, phone, how);
      assert ps == [ps[0]] + ps[1..];
      if ps[0].timer == timer && ps[0].mobile.socket == phone {
        assert ps[0] in ps;
      }
    }
  }

  lemma OtherEventsSettleNothing(s: State, e: Event, p: Pending, how: How)
    requires e.DesktopRegisters? || e.PhoneLinks? || e.PhoneRequests?
    requires p in s.pending && Settled(p.timer, p.mobile.socket, how) !in s.log
    ensures p in Next(s, e).pending && Settled(p.timer, p.mobile.socket, how) !in Next(s, e).log
  {
  }

  /** The desktop socket a pending request was forwarded to. */
  function SentTo(s: State, p: Pending): Option<Socket> {
    if p.timer in Requests(s.log) then Some(Requests(s.log)[p.timer].desktop) else None
  }

  /** After a desktop's socket has closed, no request forwarded to it is pending exactly when every one that was had
      been forwarded under the id the socket still holds. The handlers take the empty id for none. */
  lemma ClosedDesktopHasNoRequestsIff(es: seq<Event>, socket: Socket)
    ensures var s := Run(es);
            var closed, id := CloseDesktop(s, socket), IdOfSocket(s.desktops, socket);
            && ((forall p :: p in closed.pending ==> SentTo(closed, p) != Some(socket)) <==>
                (forall p :: p in s.pending && SentTo(s, p) == Some(socket) ==> id != "" && p.desktopId == id))
            && ((forall p :: p in closed.pending ==> p.desktopId != id) <==>
                id != "" || forall p :: p in s.pending ==> p.desktopId != "")
  {
    hide Tidy, SettledTimers, FindConn, PendingKey, Matching, Others, Run, Requests, WithoutSocket, IdOfSocket;
    RunKeepsInv(es);
    var s := Run(es);
    var id := IdOfSocket(s.desktops, socket);
    InvDistinctEntries(s);
    Partition(s.pending, DesktopIs(id));
    SettlingKeepsRequests(s, DesktopIs(id), DesktopOffline);
    var closed := CloseDesktop(s, socket);
    assert Requests(closed.log) == Requests(s.log);
    assert forall p :: p in s.pending && !(id != "" && p.desktopId == id) ==> p in closed.pending;
  }

  lemma SettlingKeepsRequests(s: State, test: Test, how: How)
    requires Inv(s) && !how.AnsweredBy?
    ensures Requests(Settle(s, test, how).log) == Requests(s.log)
  {
    hide Tidy, Requests, SettledTimers, DistinctEntries, Matching, Others, Distinct, FindConn, PendingKey;
    var gone := Matching(s.pending, test);
    Partition(s.pending, test);
    forall p | p in gone ensures Settleable(s.log, p, how) {
      assert Tracked(s, p);
    }
    SettlementsAreTidy(s.log, gone, how);
  }

  /** A daemon that reconnects: a newer socket has taken over the id, and the requests forwarded to the old one stay
      pending when it closes, for the newer one to answer or the timer to end. */
  lemma ReplacedDesktopLeavesRequests()
    ensures var s := Run([DesktopRegisters("a", 1), PhoneLinks(Conn("a", 3)), PhoneRequests(3, "r"),
                          DesktopRegisters("a", 2), DesktopCloses(1)]);
            s == AfterForwarding().(desktops := [Desktop("a", 2)])
  {
    RegisteringAgain(AfterForwarding(), Desktop("a", 1), Desktop("a", 2));
    ClosingUnregistered(AfterForwarding().(desktops := [Desktop("a", 2)]), Desktop("a", 2), 1);
    TwoMore(DesktopRegisters("a", 2), DesktopCloses(1));
  }

  /** A desktop that registers again under another id: its close fails only the requests of the newer id. */
  lemma RenamedDesktopLeavesRequests()
    ensures var s := Run([DesktopRegisters("a", 1), PhoneLinks(Conn("a", 3)), PhoneRequests(3, "r"),
                          DesktopRegisters("b", 1), DesktopCloses(1)]);
            s == AfterForwarding().(desktops := [])
  {
    assert "a"[0] != "b"[0];
    RegisteringAgain(AfterForwarding(), Desktop("a", 1), Desktop("b", 1));
    ClosingOther(AfterForwarding().(desktops := [Desktop("b", 1)]), Desktop("b", 1), ForwardedToA());
    TwoMore(DesktopRegisters("b", 1), DesktopCloses(1));
  }

  lemma TwoMore(e1: Event, e2: Event)
    ensures Run([DesktopRegisters("a", 1), PhoneLinks(Conn("a", 3)), PhoneRequests(3, "r"), e1, e2])
         == Next(Next(AfterForwarding(), e1), e2)
  {
    hide Next, AfterForwarding;
    var es := [DesktopRegisters("a", 1), PhoneLinks(Conn("a", 3)), PhoneRequests(3, "r"), e1, e2];
    OneForwarded();
    assert es[..4][..3] == [DesktopRegisters("a", 1), PhoneLinks(Conn("a", 3)), PhoneRequests(3, "r")];
    assert Run(es) == Next(Run(es[..4]), e2);
    assert Run(es[..4]) == Next(Run(es[..4][..3]), e1);
  }

  lemma RegisteringAgain(s: State, d: Desktop, d2: Desktop)
    requires s.desktops == [d] && (d.id == d2.id || d.socket == d2.socket)
    ensures Register(s, d2.id, d2.socket) == s.(desktops := [d2])
  {
    var ds := s.desktops;
    assert ds[1..] == [] && Unregister(ds[1..], d2.socket, d2.id) == [];
    assert Unregister(ds, d2.socket, d2.id) == if d.id == d2.id then ds else [];
    assert SetDesktop([], d2) == [d2] && [d2] + [] == [d2];
  }

  lemma ClosingUnregistered(s: State, d: Desktop, socket: Socket)
    requires s.desktops == [d] && d.socket != socket
    ensures CloseDesktop(s, socket) == s
  {
    var ds := s.desktops;
    assert ds[1..] == [] && IdOfSocket(ds[1..], socket) == "" && WithoutSocket(ds[1..], socket) == [];
    assert WithoutSocket(ds, socket) == [d] + [] == ds;
  }

  lemma ClosingOther(s: State, d: Desktop, p: Pending)
    requires s.desktops == [d] && d.id != "" && s.pending == [p] && p.desktopId != d.id
    ensures CloseDesktop(s, d.socket) == s.(desktops := [])
  {
    var test := DesktopIs(d.id);
    assert s.desktops[1..] == [] && WithoutSocket(s.desktops, d.socket) == [];
    assert s.pending[1..] == [] && Matching(s.pending[1..], test) == [] && Others(s.pending[1..], test) == [];
    assert Matching(s.pending, test) == [] && Others(s.pending, test) == s.pending;
    assert s.armed - {} == s.armed && s.log + [] == s.log;
  }

  function ForwardedToA(): Pending {
    Pending(PendingKey("a", "r"), "a", "r", Conn("a", 3), 0)
  }

  function AfterForwarding(): State {
    State([Desktop("a", 1)], [Group("a", [Conn("a", 3)])], [ForwardedToA()], map[0 := PendingKey("a", "r")], 1,
          [Forwarded(0, "a", "r", 3, 1)])
  }

  lemma OneForwarded()
    ensures Run([DesktopRegisters("a", 1), PhoneLinks(Conn("a", 3)), PhoneRequests(3, "r")]) == AfterForwarding()
  {
    var es := [DesktopRegisters("a", 1), PhoneLinks(Conn("a", 3)), PhoneRequests(3, "r")];
    assert es[..2][..1] == es[..1] && es[..|es| - 1] == es[..2] && es[..1][..0] == [];
    assert Run(es[..1]) == INIT.(desktops := [Desktop("a", 1)]);
    assert Run(es[..2]) == INIT.(desktops := [Desktop("a", 1)], links := [Group("a", [Conn("a", 3)])]);
    assert Run(es) == Forward(Run(es[..2]), 3, "r").0;
  }

  /** With NUL in a desktop id the promise fails: desktop "a" answers a request forwarded to desktop "a" NUL "b", and
      the phone is sent a response with an id it never used. */
  lemma NulMisroutes()
    ensures var d2 := ['a', NUL, 'b'];
            var s := Run([DesktopRegisters("a", 1), DesktopRegisters(d2, 2), PhoneLinks(Conn(d2, 3)),
                          PhoneRequests(3, "c"), DesktopResponds(1, ['b', NUL, 'c'])]);
            s.log == [Forwarded(0, d2, "c", 3, 2), Settled(0, 3, AnsweredBy("a", ['b', NUL, 'c']))]
  {
    var d2 := ['a', NUL, 'b'];
    var es := [DesktopRegisters("a", 1), DesktopRegisters(d2, 2), PhoneLinks(Conn(d2, 3)),
               PhoneRequests(3, "c"), DesktopResponds(1, ['b', NUL, 'c'])];
    var a, b := Desktop("a", 1), Desktop(d2, 2);
    var key := ['a', NUL, 'b', NUL, 'c'];
    var s3 := INIT.(desktops := [a, b], links := [Group(d2, [Conn(d2, 3)])]);
    assert es[..4][..3] == es[..3];
    assert Run(es[..3]) == s3 by {
      assert es[..3] == [DesktopRegisters("a", 1), DesktopRegisters(d2, 2), PhoneLinks(Conn(d2, 3))];
      TwoDesktopsAndAPhone();
    }
    assert PendingKey(d2, "c") == key && PendingKey("a", ['b', NUL, 'c']) == key;
    var p := Pending(key, d2, "c", Conn(d2, 3), 0);
    var s4 := s3.(pending := [p], armed := map[0 := key], nextTimer := 1, log := [Forwarded(0, d2, "c", 3, 2)]);
    assert Run(es[..4]) == s4 by {
      assert |"a"| != |d2|;
      assert [a, b][1..] == [b] && ById([a, b], d2) == Some(b);
      assert Run(es[..4]) == Forward(s3, 3, "c").0;
    }
    assert es[..|es| - 1] == es[..4];
    assert Matching([p], KeyIs(key)) == [p] by { assert [p][1..] == []; }
    assert Settlements([p], AnsweredBy("a", ['b', NUL, 'c'])) ==
           [Settled(0, 3, AnsweredBy("a", ['b', NUL, 'c']))];
  }

  lemma TwoDesktopsAndAPhone()
    ensures var d2 := ['a', NUL, 'b'];
            Run([DesktopRegisters("a", 1), DesktopRegisters(d2, 2), PhoneLinks(Conn(d2, 3))])
            == INIT.(desktops := [Desktop("a", 1), Desktop(d2, 2)], links := [Group(d2, [Conn(d2, 3)])])
  {
    var d2 := ['a', NUL, 'b'];
    var es := [DesktopRegisters("a", 1), DesktopRegisters(d2, 2), PhoneLinks(Conn(d2, 3))];
    var a, b := Desktop("a", 1), Desktop(d2, 2);
    assert |"a"| != |d2|;
    assert es[..2][..1] == es[..1] && es[..|es| - 1] == es[..2];
    assert Run(es[..1]) == INIT.(desktops := [a]) by { assert es[..1][..0] == []; }
    assert Run(es[..2]) == INIT.(desktops := [a, b]) by {
      assert [a][1..] == [] && a.id != d2;
      assert Unregister([a], 2, d2) == [a] && SetDesktop([a], b) == [a, b];
      assert Run(es[..2]) == Register(INIT.(desktops := [a]), d2, 2);
    }
  }

  // ---- The broker -------------------------------------------------------------------------

  class RelayState {
    var desktops: seq<Desktop>
    var links: seq<Group>
    var pending: seq<Pending>
    var armed: map<nat, string>
    var nextTimer: nat
    ghost var log: seq<Act>

    ghost function Value(): State
      reads this
    {
      State(desktops, links, pending, armed, nextTimer, log)
    }

    constructor ()
      ensures Value() == INIT
    {
      desktops, links, pending, armed, nextTimer, log := [], [], [], map[], 0, [];
    }

    method RegisterDesktop(id: string, socket: Socket)
      modifies this
      ensures Value() == Register(old(Value()), id, socket)
    {
      hide SetDesktop;
      var i := 0;
      assert desktops[..0] == [] && desktops[0..] == desktops;
      while i < |desktops|
        invariant 0 <= i <= |desktops| && Value() == old(Value()).(desktops := desktops)
        invariant Unregister(old(desktops), socket, id) == desktops[..i] + Unregister(desktops[i..], socket, id)
        decreases |desktops| - i
      {
        var d, before, after := desktops[i], desktops[..i], desktops[i + 1..];
        assert desktops[i..] == [d] + after;
        UnregisterFirst(d, after, socket, id);
        if d.socket == socket && d.id != id {
          assert (before + after)[..i] == before && (before + after)[i..] == after;
          desktops := before + after;
        } else {
          assert desktops[..i + 1] == before + [d];
          Associative(before, [d], Unregister(after, socket, id));
          i := i + 1;
        }
      }
      assert desktops[..i] == desktops && desktops[i..] == [] && desktops + [] == desktops;
      desktops := SetDesktop(desktops, Desktop(id, socket));
    }

    method RemoveDesktopBySocket(socket: Socket) returns (id: string)
      modifies this`desktops
      ensures id == IdOfSocket(old(desktops), socket)
      ensures desktops == WithoutSocket(old(desktops), socket)
    {
      var i := 0;
      assert desktops[..0] == [] && desktops[0..] == desktops;
      while i < |desktops|
        invariant 0 <= i <= |desktops| && desktops == old(desktops)
        invariant IdOfSocket(desktops, socket) == IdOfSocket(desktops[i..], socket)
        invariant WithoutSocket(desktops, socket) == desktops[..i] + WithoutSocket(desktops[i..], socket)
      {
        var d, before, after := desktops[i], desktops[..i], desktops[i + 1..];
        assert desktops[i..][0] == d && desktops[i..][1..] == after;
        if d.socket == socket {
          desktops := before + after;
          return d.id;
        }
        assert desktops[..i + 1] == before + [d];
        Associative(before, [d], WithoutSocket(after, socket));
        i := i + 1;
      }
      assert desktops[i..] == [] && desktops[..i] == desktops;
      id := "";
    }

    /** Registers a forwarded request and arms its timer; a key already in the table is refused. */
    method AddPending(desktopId: string, requestId: string, mobile: Conn, ghost desktop: Socket)
      returns (added: bool)
      modifies this
      ensures added <==> Matching(old(pending), KeyIs(PendingKey(desktopId, requestId))) == []
      ensures !added ==> Value() == old(Value())
      ensures added ==>
                var p := Pending(PendingKey(desktopId, requestId), desktopId, requestId, mobile, old(nextTimer));
                Value() == old(Value()).(pending := old(pending) + [p], armed := old(armed)[p.timer := p.key],
                                         nextTimer := old(nextTimer) + 1,
                                         log := old(log) +
                                           [Forwarded(p.timer, desktopId, requestId, mobile.socket, desktop)])
    {
      var key := PendingKey(desktopId, requestId);
      if Matching(pending, KeyIs(key)) != [] {
        return false;
      }
      var timer := nextTimer;
      nextTimer := nextTimer + 1;
      armed := armed[timer := key];
      pending := pending + [Pending(key, desktopId, requestId, mobile, timer)];
      log := log + [Forwarded(timer, desktopId, requestId, mobile.socket, desktop)];
      return true;
    }

    /** Takes every request that passes the test off the table, clears its timer and settles it, in table order. */
    method SettleMatching(test: Test, how: How)
      modifies this
      ensures Value() == Settle(old(Value()), test, how)
    {
      hide Matching, Others, TimersOf, Settlements;
      var i := 0;
      ghost var gone: seq<Pending> := [];
      NothingGone(test, how);
      assert pending[..0] == [] && pending[0..] == pending;
      while i < |pending|
        invariant 0 <= i <= |pending|
        invariant Others(old(pending), test) == pending[..i] + Others(pending[i..], test)
        invariant Matching(old(pending), test) == gone + Matching(pending[i..], test)
        invariant armed == old(armed) - TimersOf(gone) && log == old(log) + Settlements(gone, how)
        invariant Value() == old(Value()).(pending := pending, armed := armed, log := log)
        decreases |pending| - i
      {
        var p, before, after := pending[i], pending[..i], pending[i + 1..];
        FirstOut(pending[i..], test);
        assert pending[i..][1..] == after;
        if Matches(p, test) {
          OneMore(gone, p, how);
          Associative(gone, [p], Matching(after, test));
          armed := armed - {p.timer};
          assert (before + after)[..i] == before && (before + after)[i..] == after;
          pending := before + after;
          log := log + [Settled(p.timer, p.mobile.socket, how)];
          gone := gone + [p];
        } else {
          assert pending[..i + 1] == before + [p];
          Associative(before, [p], Others(after, test));
          i := i + 1;
        }
      }
      assert pending[i..] == [] && pending[..i] == pending && gone + [] == gone;
    }

    method HandleRequest(socket: Socket, requestId: string) returns (reply: Reply)
      modifies this
      ensures (Value(), reply) == Forward(old(Value()), socket, requestId)
    {
      var conn := FindConn(links, socket);
      if conn.None? {
        return NotPaired;
      }
      var desktop := ById(desktops, conn.value.desktopId);
      if desktop.None? {
        return Offline;
      }
      FoundConn(links, socket);
      var added := AddPending(desktop.value.id, requestId, conn.value, desktop.value.socket);
      return if added then Accepted else Duplicate;
    }

    method HandleResponse(socket: Socket, responseId: string)
      modifies this
      ensures Value() == Answer(old(Value()), socket, responseId)
    {
      var id := IdOfSocket(desktops, socket);
      if id == "" {
        return;
      }
      SettleMatching(KeyIs(PendingKey(id, responseId)), AnsweredBy(id, responseId));
    }

    method OnTimeout(timer: nat)
      modifies this
      ensures Value() == FireTimer(old(Value()), timer)
    {
      if timer !in armed {
        return;
      }
      var key := armed[timer];
      armed := armed - {timer};
      SettleMatching(KeyIs(key), TimedOut);
    }

    method OnDesktopClose(socket: Socket)
      modifies this
      ensures Value() == CloseDesktop(old(Value()), socket)
    {
      var id := RemoveDesktopBySocket(socket);
      if id == "" {
        return;
      }
      SettleMatching(DesktopIs(id), DesktopOffline);
    }

    method OnMobileClose(socket: Socket)
      modifies this
      ensures Value() == ClosePhone(old(Value()), socket)
    {
      if FindConn(links, socket).None? {
        return;
      }
      links := RemoveLink(links, socket);
      SettleMatching(PhoneIs(socket), PhoneClosed);
    }
  }

  lemma NothingGone(test: Test, how: How)
    ensures Matching([], test) == [] && Others([], test) == [] && TimersOf([]) == {} && Settlements([], how) == []
  {
  }

  lemma UnregisterFirst(d: Desktop, rest: seq<Desktop>, socket: Socket, id: string)
    ensures Unregister([d] + rest, socket, id) ==
            (if d.socket == socket && d.id != id then [] else [d]) + Unregister(rest, socket, id)
  {
    assert ([d] + rest)[1..] == rest;
  }

  lemma {:induction false} OneMore(gone: seq<Pending>, p: Pending, how: How)
    ensures TimersOf(gone + [p]) == TimersOf(gone) + {p.timer}
    ensures Settlements(gone + [p], how) == Settlements(gone, how) + [Settled(p.timer, p.mobile.socket, how)]
  {
    if gone == [] {
      assert gone + [p] == [p] && [p][1..] == [];
    } else {
      OneMore(gone[1..], p, how);
      assert (gone + [p])[0] == gone[0] && (gone + [p])[1..] == gone[1..] + [p];
    }
  }
}
