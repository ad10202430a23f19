/** Session output on the desktop: numbering, the bounded replay buffer and the answer to
    `session.subscribe` (apps/desktop/cucoudle_desktop/registry.py). */
module Registry {
  import opened Options
  import opened Sequences
  import opened TerminalBuffer

  const MAX_BUFFER_BYTES := 256 * 1024
  const MAX_BUFFER_CHUNKS := 2000

  // ---- The bounded replay buffer ----------------------------------------------------------

  function Size(cs: seq<Chunk>): nat {
    if cs == [] then 0 else |cs[0].data| + Size(cs[1..])
  }

  predicate Fits(cs: seq<Chunk>) {
    Size(cs) <= MAX_BUFFER_BYTES && |cs| <= MAX_BUFFER_CHUNKS
  }

  /** What the buffer keeps of a session's whole output. */
  function Retained(history: seq<Chunk>): seq<Chunk> {
    if Fits(history) then history else Retained(history[1..])
  }

  lemma {:induction false} SizeIsTextLength(cs: seq<Chunk>)
    ensures Size(cs) == |Text(cs)|
  {
    if cs != [] {
      SizeIsTextLength(cs[1..]);
    }
  }

  lemma {:induction false} SizeAppend(a: seq<Chunk>, b: seq<Chunk>)
    ensures Size(a + b) == Size(a) + Size(b)
  {
    SizeIsTextLength(a + b);
    SizeIsTextLength(a);
    SizeIsTextLength(b);
    TextAppend(a, b);
  }

  /** The buffer is the longest suffix of the session's output that meets both limits. */
  lemma {:induction false} RetainedIsLongestFittingSuffix(history: seq<Chunk>, i: nat)
    requires i <= |history|
    ensures IsSuffix(Retained(history), history) && Fits(Retained(history))
    ensures Fits(history[i..]) ==> |history| - i <= |Retained(history)|
  {
    if !Fits(history) {
      RetainedIsLongestFittingSuffix(history[1..], if i == 0 then 0 else i - 1);
      if i == 0 {
        assert history[i..] == history;
      } else {
        assert history[i..] == history[1..][i - 1..];
      }
    } else {
      assert history[0..] == history;
    }
  }

  /** Evicting as output arrives keeps what evicting from the whole output at once would keep. */
  lemma {:induction false} RetainedIncrementally(history: seq<Chunk>, c: Chunk)
    ensures Retained(Retained(history) + [c]) == Retained(history + [c])
  {
    if !Fits(history) {
      RetainedIncrementally(history[1..], c);
      SizeAppend(history, [c]);
      assert (history + [c])[1..] == history[1..] + [c];
    }
  }

  /** The newest chunk survives its own append exactly when it is no longer than the whole budget. */
  lemma {:induction false} NewestChunkIsRetained(history: seq<Chunk>, c: Chunk)
    ensures |c.data| <= MAX_BUFFER_BYTES <==> Retained(history + [c]) != []
    ensures |c.data| <= MAX_BUFFER_BYTES ==>
              var r := Retained(history + [c]); r[|r| - 1] == c
  {
    var h := history + [c];
    RetainedIsLongestFittingSuffix(h, |history|);
    assert h[|history|..] == [c];
    assert Size([c]) == |c.data|;
    var r := Retained(h);
    if r != [] {
      assert r == r[..|r| - 1] + [c];
      SizeAppend(r[..|r| - 1], [c]);
    }
  }

  // ---- The answer to session.subscribe ----------------------------------------------------

  datatype View = Live | Replayed(events: seq<Chunk>) | Snapshot(text: string, lastSeq: int)

  function After(k: int, cs: seq<Chunk>): (r: seq<Chunk>)
    ensures forall c :: c in r ==> c in cs && c.no > k
  {
    if cs == [] then [] else (if cs[0].no > k then [cs[0]] else []) + After(k, cs[1..])
  }

  /** The answer computed from the retained chunks, as the desktop computes it. */
  function ViewOf(buffer: seq<Chunk>, after: Option<int>): View {
    if buffer == [] then
      Live
    else
      var last := buffer[|buffer| - 1].no;
      match after
      case None => Snapshot(Text(buffer), last)
      case Some(k) =>
        if k >= last then Live
        else if k >= buffer[0].no - 1 then Replayed(After(k, buffer))
        else Snapshot(Text(buffer), last)
  }

  /** What the phone's buffer of the session becomes when the answer arrives. */
  function ApplyView(b: Buffer, view: View): Buffer {
    match view
    case Live => b
    case Replayed(events) => Replay(b, events)
    case Snapshot(text, last) => ReplaceSnapshot(text, last)
  }

  lemma {:induction false} AfterSplits(k: int, cs: seq<Chunk>) returns (i: nat)
    requires Increasing(cs)
    ensures i <= |cs| && After(k, cs) == cs[i..]
    ensures forall j :: 0 <= j < i ==> cs[j].no <= k
    ensures forall j :: i <= j < |cs| ==> cs[j].no > k
  {
    if cs == [] || cs[0].no > k {
      i := 0;
      AllAfter(k, cs);
      assert cs[0..] == cs;
    } else {
      var j := AfterSplits(k, cs[1..]);
      i := j + 1;
      assert cs[i..] == cs[1..][j..];
    }
  }

  lemma {:induction false} AllAfter(k: int, cs: seq<Chunk>)
    requires forall c :: c in cs ==> c.no > k
    ensures After(k, cs) == cs
  {
    if cs != [] {
      AllAfter(k, cs[1..]);
    }
  }

  /** "live" tells the truth, that nothing newer exists, for every history whose newest chunk fits the budget;
      after a longer chunk "live" is answered whatever the phone has missed. */
  lemma LiveMeansNothingNewer(history: seq<Chunk>, k: int)
    requires Increasing(history)
    ensures ViewOf(Retained(history), Some(k)).Live? <==>
              (history != [] && |history[|history| - 1].data| > MAX_BUFFER_BYTES) ||
              forall c :: c in history ==> c.no <= k
  {
    if history == [] {
      assert Retained(history) == [];
    } else {
      var n := |history|;
      assert history == history[..n - 1] + [history[n - 1]];
      NewestChunkIsRetained(history[..n - 1], history[n - 1]);
    }
  }

  predicate InFront(no: int, cs: seq<Chunk>) {
    forall c :: c in cs ==> no < c.no
  }

  /** Which answer a subscription gets. A number above the asker's that lies in front of everything retained may belong
      to an evicted chunk, and a snapshot is sent then, if anything retained is newer. If there is no such number, the
      answer is a replay of exactly the session's chunks newer than the asker's number, in order. */
  lemma AnswerIff(log: seq<Record>, session: string, k: int)
    ensures
      var all := ChunksOf(log, session);
      var kept := Retained(all);
      var view, newer := ViewOf(kept, Some(k)), exists c :: c in kept && c.no > k;
      && (view.Live? <==> !newer)
      && (view.Snapshot? <==> newer && exists no: int :: k < no && InFront(no, kept))
      && (view.Replayed? <==> newer && !exists no: int :: k < no && InFront(no, kept))
      && (view.Replayed? ==> Increasing(view.events) && forall c :: c in view.events <==> c in all && c.no > k)
  {
    hide *;
    var kept := KeptOf(log, session);
    if kept != [] {
      ModeIff(kept, k);
      if ViewOf(kept, Some(k)).Replayed? {
        ReplayIsTheRest(ChunksOf(log, session), kept, k);
      }
    } else {
      NothingKept(k);
    }
  }

  lemma KeptOf(log: seq<Record>, session: string) returns (kept: seq<Chunk>)
    ensures kept == Retained(ChunksOf(log, session)) && Increasing(kept)
    ensures Increasing(ChunksOf(log, session)) && IsSuffix(kept, ChunksOf(log, session))
  {
    hide Retained, ChunksOf, Increasing;
    var all := ChunksOf(log, session);
    kept := Retained(all);
    ChunksAreNumbered(log, session);
    RetainedIsLongestFittingSuffix(all, 0);
    var evicted := all[..|all| - |kept|];
    assert all == evicted + kept;
    Ordered(evicted, kept);
  }

  lemma NothingKept(k: int)
    ensures ViewOf([], Some(k)).Live?
  {
  }

  lemma ReplayIsTheRest(all: seq<Chunk>, kept: seq<Chunk>, k: int)
    requires Increasing(all) && IsSuffix(kept, all) && kept != [] && kept[0].no - 1 <= k
    ensures Increasing(After(k, kept))
    ensures forall c :: c in After(k, kept) <==> c in all && c.no > k
  {
    hide Increasing, IsSuffix;
    var stale := SuffixCoversTheRest(all, kept, k);
  }

  lemma ModeIff(kept: seq<Chunk>, k: int)
    requires kept != [] && Increasing(kept)
    ensures
      var view, newer := ViewOf(kept, Some(k)), exists c :: c in kept && c.no > k;
      && (view.Live? <==> !newer)
      && (view.Snapshot? <==> newer && exists no: int :: k < no && InFront(no, kept))
      && (view.Replayed? <==> newer && !exists no: int :: k < no && InFront(no, kept))
      && (view.Replayed? ==> view.events == After(k, kept) && kept[0].no - 1 <= k)
  {
    var last := kept[|kept| - 1];
    assert last in kept && kept[0] in kept;
    assert InFront(kept[0].no - 1, kept);
  }

  /** A subscription that asks without a number gets a snapshot, unless nothing is retained. */
  lemma FirstAnswer(history: seq<Chunk>)
    ensures ViewOf(Retained(history), None) ==
            if Retained(history) == [] then Live
            else Snapshot(Text(Retained(history)), history[|history| - 1].no)
  {
    RetainedText(history);
  }

  /** A replay answer misses no chunk newer than the asker's number: the evicted ones are all older. */
  lemma ReplayCoversTheRest(history: seq<Chunk>, k: int) returns (stale: seq<Chunk>)
    requires Increasing(history)
    requires ViewOf(Retained(history), Some(k)).Replayed?
    ensures history == stale + After(k, Retained(history))
    ensures forall c :: c in stale ==> c.no <= k
    ensures Increasing(After(k, Retained(history)))
  {
    RetainedIsLongestFittingSuffix(history, 0);
    var r := Retained(history);
    stale := SuffixCoversTheRest(history, r, k);
  }

  lemma SuffixCoversTheRest(history: seq<Chunk>, r: seq<Chunk>, k: int) returns (stale: seq<Chunk>)
    requires Increasing(history) && IsSuffix(r, history)
    requires r != [] && r[0].no - 1 <= k
    ensures history == stale + After(k, r)
    ensures forall c :: c in stale ==> c.no <= k
    ensures Increasing(After(k, r))
  {
    var evicted := history[..|history| - |r|];
    assert history == evicted + r;
    hide *;
    stale := RestIsCovered(evicted, r, k);
  }

  lemma RestIsCovered(evicted: seq<Chunk>, r: seq<Chunk>, k: int) returns (stale: seq<Chunk>)
    requires Increasing(evicted + r)
    requires r != [] && r[0].no - 1 <= k
    ensures evicted + r == stale + After(k, r)
    ensures forall c :: c in stale ==> c.no <= k
    ensures Increasing(After(k, r))
  {
    Ordered(evicted, r);
    hide Increasing, After;
    var i := AfterSplits(k, r);
    assert r == r[..i] + r[i..];
    Ordered(r[..i], r[i..]);
    Associative(evicted, r[..i], r[i..]);
    stale := evicted + r[..i];
    forall c | c in stale ensures c.no <= k {
      assert c in evicted || c in r[..i];
      assert r[0] in r;
    }
  }

  lemma Ordered(a: seq<Chunk>, b: seq<Chunk>)
    requires Increasing(a + b)
    ensures Increasing(a) && Increasing(b)
    ensures forall c, d :: c in a && d in b ==> c.no < d.no
  {
    assert forall i :: 0 <= i < |a| ==> a[i] == (a + b)[i];
    assert forall i :: 0 <= i < |b| ==> b[i] == (a + b)[|a| + i];
  }

  /** A replay answer leaves the phone's buffer as if it had received every chunk ever sent, in order, without
      a disconnect; the phone may have advanced past the number it asked with. */
  lemma ReplayEqualsNeverDisconnected(history: seq<Chunk>, b: Buffer, k: int)
    requires Increasing(history) && k <= b.lastSeq
    requires ViewOf(Retained(history), Some(k)).Replayed?
    ensures ApplyView(b, ViewOf(Retained(history), Some(k))) == AppendAll(b, history)
  {
    hide Retained, Increasing, After, AppendAll;
    var stale := ReplayCoversTheRest(history, k);
    var events := After(k, Retained(history));
    AppendAllConcat(b, stale, events);
    StaleChunksAreIgnored(b, stale);
    ReplayInOrder(b, events);
  }

  lemma RetainedText(history: seq<Chunk>)
    ensures IsSuffix(Text(Retained(history)), Text(history))
    ensures Retained(history) != [] ==>
              history != [] && Retained(history)[|Retained(history)| - 1] == history[|history| - 1]
  {
    RetainedIsLongestFittingSuffix(history, 0);
    var r := Retained(history);
    var gone := history[..|history| - |r|];
    assert history == gone + r;
    TextAppend(gone, r);
    assert (Text(gone) + Text(r))[|Text(gone)|..] == Text(r);
  }

  /** A snapshot leaves the phone with a suffix of the session's text; it is the very buffer of a phone that never
      disconnected exactly when eviction lost no character or what is retained fills the phone's buffer. */
  lemma SnapshotEqualsNeverDisconnected(history: seq<Chunk>, b: Buffer, after: Option<int>)
    requires Increasing(history) && (forall c :: c in history ==> c.no > 0)
    requires ViewOf(Retained(history), after).Snapshot?
    ensures var s := ApplyView(b, ViewOf(Retained(history), after));
            && IsSuffix(s.text, Text(history)) && s.lastSeq == history[|history| - 1].no
            && (s == AppendAll(EMPTY, history) <==>
                Size(Retained(history)) == Size(history) || Size(Retained(history)) >= MAX_TERMINAL_BUFFER_LENGTH)
  {
    hide Retained, Text, Size, AppendAll, ApplyView, ViewOf, TrimText, IsSuffix, Increasing;
    SnapshotCarriesAll(Retained(history), b, after);
    RetainedText(history);
    SizeIsTextLength(history);
    NeverDisconnected(history);
    SizeIsTextLength(Retained(history));
    TrimmedSuffix(Text(Retained(history)), Text(history));
  }

  lemma NeverDisconnected(history: seq<Chunk>)
    requires Increasing(history) && history != [] && history[0].no > 0
    ensures AppendAll(EMPTY, history) == Buffer(TrimText(Text(history)), history[|history| - 1].no)
  {
    hide Text, AppendAll;
    FreshChunksAppend(EMPTY, history);
    assert EMPTY.text + Text(history) == Text(history);
  }

  lemma TrimmedSuffix(t: string, s: string)
    requires IsSuffix(t, s)
    ensures IsSuffix(TrimText(t), s)
    ensures TrimText(t) == TrimText(s) <==> |t| == |s| || |t| >= MAX_TERMINAL_BUFFER_LENGTH
  {
    TailOfSuffix(MAX_TERMINAL_BUFFER_LENGTH, t, s);
  }

  lemma SnapshotCarriesAll(r: seq<Chunk>, b: Buffer, after: Option<int>)
    requires ViewOf(r, after).Snapshot?
    ensures r != [] && ApplyView(b, ViewOf(r, after)) == Buffer(TrimText(Text(r)), r[|r| - 1].no)
  {
  }

  // ---- The registry -----------------------------------------------------------------------

  /** One numbered output of one session. */
  datatype Record = Record(session: string, data: string)

  /** A session's chunks in a whole output log: the daemon's counter numbers record `i` with `i + 1`. */
  function ChunksOf(log: seq<Record>, session: string): seq<Chunk> {
    if log == [] then []
    else
      var n := |log| - 1;
      ChunksOf(log[..n], session) +
      (if log[n].session == session then [Chunk(n + 1, log[n].data)] else [])
  }

  lemma {:induction false} ChunksAreNumbered(log: seq<Record>, session: string)
    ensures forall c :: c in ChunksOf(log, session) ==> 1 <= c.no <= |log|
    ensures Increasing(ChunksOf(log, session))
  {
    if log != [] {
      ChunksAreNumbered(log[..|log| - 1], session);
    }
  }

  lemma ChunksOfNext(log: seq<Record>, r: Record, session: string)
    ensures ChunksOf(log + [r], session) ==
            ChunksOf(log, session) + (if r.session == session then [Chunk(|log| + 1, r.data)] else [])
  {
    assert (log + [r])[..|log|] == log;
  }

  class SessionEntry {
    const session: string
    var buffer: seq<Chunk>
    var bufferedBytes: int
    ghost var history: seq<Chunk>  // everything ever appended

    ghost predicate Valid()
      reads this
    {
      && Increasing(history)
      && buffer == Retained(history)
      && bufferedBytes == Size(buffer)
    }

    ghost predicate Tracks(log: seq<Record>)
      reads this
    {
      Valid() && history == ChunksOf(log, session)
    }

    constructor (session: string)
      ensures Valid() && history == [] && this.session == session
    {
      this.session := session;
      buffer, bufferedBytes, history := [], 0, [];
    }

    method AppendOutput(no: int, data: string)
      requires Valid()
      requires history == [] || history[|history| - 1].no < no
      modifies this
      ensures Valid() && history == old(history) + [Chunk(no, data)]
    {
      RetainedIncrementally(history, Chunk(no, data));
      SizeAppend(buffer, [Chunk(no, data)]);
      assert Size([Chunk(no, data)]) == |data|;
      history := history + [Chunk(no, data)];
      buffer := buffer + [Chunk(no, data)];
      bufferedBytes := bufferedBytes + |data|;
      while buffer != [] && (bufferedBytes > MAX_BUFFER_BYTES || |buffer| > MAX_BUFFER_CHUNKS)
        invariant Retained(buffer) == Retained(history)
        invariant bufferedBytes == Size(buffer)
        invariant history == old(history) + [Chunk(no, data)]
        decreases |buffer|
      {
        var dropped := buffer[0];
        buffer := buffer[1..];
        bufferedBytes := bufferedBytes - |dropped.data|;
      }
      assert Fits(buffer);
    }
  }

  class SessionRegistry {
    var entries: map<string, SessionEntry>
    var lastNo: nat
    ghost var log: seq<Record>  // every output recorded, of all sessions

    ghost predicate Valid()
      reads this, entries.Values
    {
      && lastNo == |log|
      && (forall s :: s in entries ==> entries[s].session == s && entries[s].Tracks(log))
      && (forall r :: r in log ==> r.session in entries)
    }

    constructor ()
      ensures Valid() && log == [] && entries == map[]
    {
      entries, lastNo, log := map[], 0, [];
    }

    method Create(session: string)
      requires Valid() && session !in entries
      modifies this
      ensures Valid() && log == old(log)
      ensures entries.Keys == old(entries).Keys + {session} && fresh(entries[session])
      ensures forall s :: s in old(entries) ==> entries[s] == old(entries)[s]
    {
      hide Retained, Increasing, Size;
      var entry := new SessionEntry(session);
      NoChunks(log, session);
      var before := entries;
      entries := entries[session := entry];
      assert forall s :: s in entries && s != session ==> s in before && entries[s] == before[s];
    }

    /** Numbers the output with the shared counter and retains it; output of an unknown session is refused. */
    method RecordOutput(session: string, data: string) returns (no: Option<nat>)
      requires Valid()
      modifies this, if session in entries then {entries[session]} else {}
      ensures Valid() && entries == old(entries)
      ensures session !in entries ==> no == None && log == old(log)
      ensures session in entries ==> no == Some(|log|) && log == old(log) + [Record(session, data)]
    {
      hide Retained, Increasing, Size;
      if session !in entries {
        return None;
      }
      ChunksAreNumbered(log, session);
      lastNo := lastNo + 1;
      no := Some(lastNo);
      entries[session].AppendOutput(lastNo, data);
      log := log + [Record(session, data)];
      ghost var before := old(log);
      forall s | s in entries ensures entries[s].Tracks(log) {
        ChunksOfNext(before, Record(session, data), s);
      }
    }

    /** The subscription answer is the one the session's whole output determines. */
    method SubscribeView(session: string, after: Option<int>) returns (view: Option<View>)
      requires Valid()
      ensures session !in entries ==> view == None
      ensures session in entries ==> view == Some(ViewOf(Retained(ChunksOf(log, session)), after))
    {
      hide Retained, Increasing, Size, Text, After;
      if session !in entries {
        return None;
      }
      var buffer := entries[session].buffer;
      if buffer == [] {
        return Some(Live);
      }
      var earliest, last := buffer[0].no, buffer[|buffer| - 1].no;
      match after
      case None => view := Some(Snapshot(Text(buffer), last));
      case Some(k) =>
        if k >= last {
          view := Some(Live);
        } else if k >= earliest - 1 {
          view := Some(Replayed(After(k, buffer)));
        } else {
          view := Some(Snapshot(Text(buffer), last));
        }
    }
  }

  lemma {:induction false} NoChunks(log: seq<Record>, session: string)
    requires forall r :: r in log ==> r.session != session
    ensures ChunksOf(log, session) == []
  {
    if log != [] {
      NoChunks(log[..|log| - 1], session);
    }
  }
}
