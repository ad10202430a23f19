/** The server-rendered terminal: the desktop's renderer (apps/desktop/cucoudle_desktop/render.py) and the phone's copy
    of it (apps/mobile/src/state/renderBuffer.ts).

    Of the emulator, `top` is its bounded scrollback and `screen` its viewport, both as rendered lines. */
module Render {
  import opened Options
  import opened Sequences
  import opened StyledLines

  const HISTORY_LIMIT := 1000
  const SCROLLBACK := 10000

  datatype Frame = Frame(seqNo: nat, append: seq<Line>, screen: seq<Line>)

  /** A snapshot, and the phone's copy. */
  datatype Buffer = Buffer(history: seq<Line>, screen: seq<Line>, lastSeq: nat)

  datatype Renderer = Renderer(top: seq<Line>, consumed: nat, history: seq<Line>, screen: seq<Line>, seqNo: nat)

  const START := Renderer([], 0, [], [], 0)

  // ---- The renderer -----------------------------------------------------------------------

  /** The emulator scrolls `lines` off and shows `screen`. */
  function Scroll(r: Renderer, lines: seq<Line>, screen: seq<Line>): Renderer {
    r.(top := LastN(SCROLLBACK, r.top + lines), screen := screen)
  }

  /** The scrolled lines that have not been drained. */
  function Fresh(r: Renderer): seq<Line> {
    if r.consumed <= |r.top| then r.top[r.consumed..] else []
  }

  function Drain(r: Renderer): Renderer {
    r.(consumed := |r.top|, history := LastN(HISTORY_LIMIT, r.history + Fresh(r)))
  }

  function TakeFrame(r: Renderer): Renderer {
    Drain(r).(seqNo := r.seqNo + 1)
  }

  function FrameOf(r: Renderer): Frame {
    Frame(r.seqNo + 1, Fresh(r), r.screen)
  }

  function SnapshotOf(r: Renderer): Buffer {
    Buffer(Drain(r).history, r.screen, r.seqNo)
  }

  // ---- The phone --------------------------------------------------------------------------

  function ApplyFrame(b: Buffer, f: Frame): Buffer {
    if f.seqNo <= b.lastSeq then b
    else Buffer(if f.append == [] then b.history else LastN(HISTORY_LIMIT, b.history + f.append), f.screen, f.seqNo)
  }

  function ApplyAll(b: Buffer, fs: seq<Frame>): Buffer
    decreases |fs|
  {
    if fs == [] then b else ApplyAll(ApplyFrame(b, fs[0]), fs[1..])
  }

  function ReplaceSnapshot(s: Buffer): Buffer {
    Buffer(LastN(HISTORY_LIMIT, s.history), s.screen, s.lastSeq)
  }

  // ---- Runs of the renderer ---------------------------------------------------------------

  /** The emulator is fed, a frame is emitted to every phone, or a snapshot is taken for another phone. */
  datatype Event = Fed(lines: seq<Line>, screen: seq<Line>) | Emits | Serves

  function Next(r: Renderer, e: Event): Renderer {
    match e
    case Fed(lines, screen) => Scroll(r, lines, screen)
    case Emits => TakeFrame(r)
    case Serves => Drain(r)
  }

  function After(r: Renderer, es: seq<Event>): Renderer
    decreases |es|
  {
    if es == [] then r else After(Next(r, es[0]), es[1..])
  }

  function Frames(r: Renderer, es: seq<Event>): seq<Frame>
    decreases |es|
  {
    if es == [] then []
    else (if es[0].Emits? then [FrameOf(r)] else []) + Frames(Next(r, es[0]), es[1..])
  }

  /** The lines drained, by frames and by snapshots. */
  function Drained(r: Renderer, es: seq<Event>): seq<Line>
    decreases |es|
  {
    if es == [] then []
    else (if es[0].Fed? then [] else Fresh(r)) + Drained(Next(r, es[0]), es[1..])
  }

  /** The lines that frames carry. */
  function Emitted(r: Renderer, es: seq<Event>): seq<Line>
    decreases |es|
  {
    if es == [] then []
    else (if es[0].Emits? then Fresh(r) else []) + Emitted(Next(r, es[0]), es[1..])
  }

  /** The lines that scroll off. */
  function Scrolled(es: seq<Event>): seq<Line> {
    if es == [] then [] else (if es[0].Fed? then es[0].lines else []) + Scrolled(es[1..])
  }

  /** `ds` delivers `fs` after number `n`: in order, with any stale or repeated frames mixed in. */
  predicate Delivers(ds: seq<Frame>, n: nat, fs: seq<Frame>)
    decreases |ds|
  {
    if ds == [] then fs == []
    else if ds[0].seqNo <= n then Delivers(ds[1..], n, fs)
    else fs != [] && ds[0] == fs[0] && Delivers(ds[1..], ds[0].seqNo, fs[1..])
  }

  // ---- Coherence --------------------------------------------------------------------------

  lemma {:induction false} StaleFramesAreIgnored(b: Buffer, ds: seq<Frame>, fs: seq<Frame>)
    requires Delivers(ds, b.lastSeq, fs)
    ensures ApplyAll(b, ds) == ApplyAll(b, fs)
    decreases |ds|
  {
    if ds != [] {
      if ds[0].seqNo <= b.lastSeq {
        StaleFramesAreIgnored(b, ds[1..], fs);
      } else {
        StaleFramesAreIgnored(ApplyFrame(b, ds[0]), ds[1..], fs[1..]);
      }
    }
  }

  lemma LastNMore(h: seq<Line>, a: seq<Line>, b: seq<Line>)
    ensures LastN(HISTORY_LIMIT, LastN(HISTORY_LIMIT, h + a) + b) == LastN(HISTORY_LIMIT, h + (a + b))
  {
    LastNAppend(HISTORY_LIMIT, h + a, b);
    Associative(h, a, b);
  }

  /** The renderer's history is the end of all it has drained. */
  lemma {:induction false} HistoryIsDrained(r: Renderer, es: seq<Event>)
    requires |r.history| <= HISTORY_LIMIT
    ensures After(r, es).history == LastN(HISTORY_LIMIT, r.history + Drained(r, es))
    decreases |es|
  {
    hide LastN, Fresh;
    if es == [] {
      assert r.history + Drained(r, es) == r.history;
      LastNAll(r.history);
    } else {
      var next := Next(r, es[0]);
      var drained := if es[0].Fed? then [] else Fresh(r);
      assert r.history + [] == r.history;
      LastNAll(r.history);
      assert next.history == LastN(HISTORY_LIMIT, r.history + drained);
      LastNBounds(r.history + drained);
      HistoryIsDrained(next, es[1..]);
      LastNMore(r.history, drained, Drained(next, es[1..]));
    }
  }

  lemma LastNAll(h: seq<Line>)
    requires |h| <= HISTORY_LIMIT
    ensures LastN(HISTORY_LIMIT, h) == h
  {
  }

  lemma LastNBounds(h: seq<Line>)
    ensures |LastN(HISTORY_LIMIT, h)| <= HISTORY_LIMIT
  {
  }

  /** What the phone shows after all frames of a run: the end of the lines they carried, and the last frame's screen. */
  lemma {:induction false} PhoneShowsFrames(b: Buffer, r: Renderer, es: seq<Event>)
    requires |b.history| <= HISTORY_LIMIT && b.lastSeq == r.seqNo
    ensures
      var fs := Frames(r, es);
      ApplyAll(b, fs) == Buffer(LastN(HISTORY_LIMIT, b.history + Emitted(r, es)),
                                if fs == [] then b.screen else fs[|fs| - 1].screen,
                                After(r, es).seqNo)
    decreases |es|
  {
    hide LastN, Fresh, After, ApplyAll, Frames, Emitted;
    Unfold(b, r, es);
    if es == [] {
      assert b.history + [] == b.history;
      LastNAll(b.history);
    } else {
      var next, rest := Next(r, es[0]), Frames(Next(r, es[0]), es[1..]);
      if es[0].Emits? {
        var b1 := ApplyFrame(b, FrameOf(r));
        FrameExtends(b, r);
        LastNBounds(b.history + Fresh(r));
        PhoneShowsFrames(b1, next, es[1..]);
        LastNMore(b.history, Fresh(r), Emitted(next, es[1..]));
        LastOf(FrameOf(r), rest);
      } else {
        PhoneShowsFrames(b, next, es[1..]);
      }
    }
  }

  lemma FrameExtends(b: Buffer, r: Renderer)
    requires |b.history| <= HISTORY_LIMIT && b.lastSeq == r.seqNo
    ensures ApplyFrame(b, FrameOf(r)) == Buffer(LastN(HISTORY_LIMIT, b.history + Fresh(r)), r.screen, r.seqNo + 1)
  {
    assert b.history + [] == b.history;
  }

  lemma LastOf(f: Frame, fs: seq<Frame>)
    ensures ([f] + fs)[|fs|] == if fs == [] then f else fs[|fs| - 1]
  {
  }

  /** One step of each of the recursive functions. */
  lemma Unfold(b: Buffer, r: Renderer, es: seq<Event>)
    ensures es == [] ==> Frames(r, es) == [] && Emitted(r, es) == [] && After(r, es) == r && ApplyAll(b, []) == b
    ensures es != [] ==>
      var next := Next(r, es[0]);
      && After(r, es) == After(next, es[1..])
      && (es[0].Emits? ==>
          && Frames(r, es) == [FrameOf(r)] + Frames(next, es[1..])
          && Emitted(r, es) == Fresh(r) + Emitted(next, es[1..])
          && ApplyAll(b, Frames(r, es)) == ApplyAll(ApplyFrame(b, FrameOf(r)), Frames(next, es[1..])))
      && (!es[0].Emits? ==> Frames(r, es) == Frames(next, es[1..]) && Emitted(r, es) == Emitted(next, es[1..]))
  {
    if es != [] && es[0].Emits? {
      assert ([FrameOf(r)] + Frames(Next(r, es[0]), es[1..]))[1..] == Frames(Next(r, es[0]), es[1..]);
    }
  }

  lemma {:induction false} FramesCarryAll(r: Renderer, es: seq<Event>)
    requires forall i :: 0 <= i < |es| ==> !es[i].Serves?
    ensures Emitted(r, es) == Drained(r, es)
    decreases |es|
  {
    if es != [] {
      FramesCarryAll(Next(r, es[0]), es[1..]);
    }
  }

  /** The only phone: after a snapshot and the frames that follow it, however often repeated and with any stale frames
      mixed in, it holds the renderer's own history and number, and the screen the renderer had at the last frame, or at
      the snapshot when no frame has followed. */
  lemma SolePhoneIsCoherent(r: Renderer, es: seq<Event>, ds: seq<Frame>)
    requires |r.history| <= HISTORY_LIMIT
    requires forall i :: 0 <= i < |es| ==> !es[i].Serves?
    requires Delivers(ds, r.seqNo, Frames(Drain(r), es))
    ensures
      var phone, now := ApplyAll(ReplaceSnapshot(SnapshotOf(r)), ds), After(Drain(r), es);
      && phone.history == now.history && phone.lastSeq == now.seqNo
      && (es != [] && es[|es| - 1].Emits? ==> phone.screen == now.screen)
      && (NoEmit(es) ==> phone.screen == r.screen)
      && (forall j :: 0 <= j < |es| && es[j].Emits? && NoEmit(es[j + 1..]) ==>
            phone.screen == After(Drain(r), es[..j]).screen)
  {
    var b, fs := ReplaceSnapshot(SnapshotOf(r)), Frames(Drain(r), es);
    LastNBounds(r.history + Fresh(r));
    LastNAll(Drain(r).history);
    StaleFramesAreIgnored(b, ds, fs);
    PhoneShowsFrames(b, Drain(r), es);
    HistoryIsDrained(Drain(r), es);
    FramesCarryAll(Drain(r), es);
    if es != [] && es[|es| - 1].Emits? {
      LastFrameIsCurrent(Drain(r), es);
    }
    if NoEmit(es) {
      NoFrames(Drain(r), es);
    }
    forall j | 0 <= j < |es| && es[j].Emits? && NoEmit(es[j + 1..])
      ensures fs != [] && fs[|fs| - 1].screen == After(Drain(r), es[..j]).screen
    {
      LastFrameAt(Drain(r), es, j);
    }
  }

  predicate NoEmit(es: seq<Event>) {
    forall i :: 0 <= i < |es| ==> !es[i].Emits?
  }

  lemma {:induction false} NoFrames(r: Renderer, es: seq<Event>)
    requires NoEmit(es)
    ensures Frames(r, es) == []
    decreases |es|
  {
    if es != [] {
      NoFrames(Next(r, es[0]), es[1..]);
    }
  }

  lemma {:induction false} LastFrameAt(r: Renderer, es: seq<Event>, j: nat)
    requires j < |es| && es[j].Emits? && NoEmit(es[j + 1..])
    ensures var fs := Frames(r, es);
      fs != [] && fs[|fs| - 1].screen == After(r, es[..j]).screen
    decreases |es|
  {
    if j == 0 {
      NoFrames(Next(r, es[0]), es[1..]);
      assert es[..0] == [];
    } else {
      assert es[1..][j..] == es[j + 1..] && es[1..][..j - 1] == es[..j][1..];
      LastFrameAt(Next(r, es[0]), es[1..], j - 1);
      LastOf(FrameOf(r), Frames(Next(r, es[0]), es[1..]));
    }
  }

  /** The screen the emulator was last fed, `screen` if it was not fed. */
  function LastFed(screen: seq<Line>, es: seq<Event>): seq<Line>
    decreases |es|
  {
    if es == [] then screen else LastFed(if es[0].Fed? then es[0].screen else screen, es[1..])
  }

  lemma {:induction false} ScreenIsLastFed(r: Renderer, es: seq<Event>)
    ensures After(r, es).screen == LastFed(r.screen, es)
    ensures After(r, es).seqNo == r.seqNo + |Frames(r, es)|
    decreases |es|
  {
    if es != [] {
      ScreenIsLastFed(Next(r, es[0]), es[1..]);
    }
  }

  lemma {:induction false} OneMoreDrain(r: Renderer, es: seq<Event>)
    ensures Drained(r, es + [Serves]) == Drained(r, es) + Fresh(After(r, es))
    decreases |es|
  {
    if es == [] {
      assert [Serves][1..] == [];
    } else {
      assert (es + [Serves])[1..] == es[1..] + [Serves];
      OneMoreDrain(Next(r, es[0]), es[1..]);
    }
  }

  /** What a phone that loads a snapshot shows, after any run of the renderer: the screen as it was last fed, the end of
      all lines drained until then, its own drain included, and the number of frames taken. */
  lemma SnapshotShowsAll(es: seq<Event>)
    ensures
      var phone := ReplaceSnapshot(SnapshotOf(After(START, es)));
      && phone.screen == LastFed([], es)
      && phone.history == LastN(HISTORY_LIMIT, Drained(START, es + [Serves]))
      && phone.lastSeq == |Frames(START, es)|
  {
    hide LastN, Fresh, Drained, After, Frames, LastFed;
    var r := After(START, es);
    ScreenIsLastFed(START, es);
    HistoryIsDrained(START, es);
    OneMoreDrain(START, es);
    LastNMore([], Drained(START, es), Fresh(r));
    assert [] + (Drained(START, es) + Fresh(r)) == Drained(START, es) + Fresh(r);
    LastNBounds(r.history + Fresh(r));
    LastNAll(Drain(r).history);
  }

  lemma {:induction false} LastFrameIsCurrent(r: Renderer, es: seq<Event>)
    requires es != [] && es[|es| - 1].Emits?
    ensures var fs := Frames(r, es);
      fs != [] && fs[|fs| - 1].screen == After(r, es).screen
    decreases |es|
  {
    if |es| > 1 {
      LastFrameIsCurrent(Next(r, es[0]), es[1..]);
    } else {
      assert es[1..] == [];
    }
  }

  // ---- Exactly once -----------------------------------------------------------------------

  predicate Valid(r: Renderer) {
    r.consumed <= |r.top| <= SCROLLBACK && |r.history| <= HISTORY_LIMIT
  }

  lemma StepKeepsValid(r: Renderer, e: Event)
    requires Valid(r)
    ensures Valid(Next(r, e))
    ensures Next(r, e).consumed == r.consumed + if e.Fed? then 0 else |Fresh(r)|
  {
  }

  /** As many lines are drained as the renderer counts as consumed, which the scrollback bounds. */
  lemma {:induction false} DrainedIsConsumed(r: Renderer, es: seq<Event>)
    requires Valid(r)
    ensures Valid(After(r, es)) && After(r, es).consumed == r.consumed + |Drained(r, es)|
    decreases |es|
  {
    if es != [] {
      hide Valid, Fresh;
      StepKeepsValid(r, es[0]);
      DrainedIsConsumed(Next(r, es[0]), es[1..]);
    }
  }

  lemma StepBelowTheLimit(r: Renderer, e: Event)
    requires Valid(r) && (e.Fed? ==> |r.top| + |e.lines| <= SCROLLBACK)
    ensures Next(r, e).top == r.top + (if e.Fed? then e.lines else [])
    ensures r.top[..r.consumed] + (if e.Fed? then [] else Fresh(r)) == Next(r, e).top[..Next(r, e).consumed]
  {
  }

  lemma {:induction false} NothingIsLostBelowTheLimit(r: Renderer, es: seq<Event>)
    requires Valid(r) && |r.top| + |Scrolled(es)| <= SCROLLBACK
    ensures After(r, es).top == r.top + Scrolled(es) && Valid(After(r, es))
    ensures r.top[..r.consumed] + Drained(r, es) == After(r, es).top[..After(r, es).consumed]
    decreases |es|
  {
    hide LastN, Fresh;
    if es == [] {
      assert r.top + Scrolled(es) == r.top;
      assert r.top[..r.consumed] + Drained(r, es) == r.top[..r.consumed];
    } else {
      var e, next := es[0], Next(r, es[0]);
      StepKeepsValid(r, e);
      StepBelowTheLimit(r, e);
      NothingIsLostBelowTheLimit(next, es[1..]);
      Associative(r.top, if e.Fed? then e.lines else [], Scrolled(es[1..]));
      Associative(r.top[..r.consumed], if e.Fed? then [] else Fresh(r), Drained(next, es[1..]));
    }
  }

  lemma {:induction false} DrainedAtTheEnd(r: Renderer, es: seq<Event>)
    requires es != [] && !es[|es| - 1].Fed?
    ensures After(r, es).consumed == |After(r, es).top|
    decreases |es|
  {
    if |es| > 1 {
      DrainedAtTheEnd(Next(r, es[0]), es[1..]);
    } else {
      assert es[1..] == [];
    }
  }

  /** Every line that scrolls off is drained once and in order, for a whole run that ends in a drain, exactly when no
      more lines have scrolled off than the emulator's scrollback holds. */
  lemma EveryLineDrainedOnceIff(es: seq<Event>)
    requires es != [] && !es[|es| - 1].Fed?
    ensures Drained(START, es) == Scrolled(es) <==> |Scrolled(es)| <= SCROLLBACK
  {
    hide After, Drained, Scrolled;
    DrainedIsConsumed(START, es);
    if |Scrolled(es)| <= SCROLLBACK {
      NothingIsLostBelowTheLimit(START, es);
      DrainedAtTheEnd(START, es);
      FromTheStart(Scrolled(es), Drained(START, es), After(START, es).top);
    }
  }

  lemma FromTheStart(scrolled: seq<Line>, drained: seq<Line>, top: seq<Line>)
    requires top == START.top + scrolled && START.top[..START.consumed] + drained == top[..|top|]
    ensures drained == scrolled
  {
    assert START.top + scrolled == scrolled;
    assert START.top[..START.consumed] + drained == drained;
    assert top[..|top|] == top;
  }

  /** Once the scrollback is full and consumed, no line is drained again: the history stands still for ever. */
  lemma {:induction false} FullScrollbackFreezesHistory(r: Renderer, es: seq<Event>)
    requires Valid(r) && r.consumed == SCROLLBACK
    ensures Drained(r, es) == [] && Emitted(r, es) == [] && After(r, es).history == r.history
    decreases |es|
  {
    assert r.history + [] == r.history;
    if es != [] {
      FullScrollbackFreezesHistory(Next(r, es[0]), es[1..]);
    }
  }

  // ---- A second phone ---------------------------------------------------------------------

  /** How many lines frames have carried since a snapshot last took some away; `None` if none did. */
  function SinceTaken(r: Renderer, es: seq<Event>): Option<nat>
    decreases |es|
  {
    if es == [] then None
    else
      var next := Next(r, es[0]);
      var later := SinceTaken(next, es[1..]);
      if later.Some? then later
      else if es[0].Serves? && Fresh(r) != [] then Some(|Emitted(next, es[1..])|)
      else None
  }

  lemma {:induction false} NothingTaken(r: Renderer, es: seq<Event>)
    requires SinceTaken(r, es).None?
    ensures Emitted(r, es) == Drained(r, es)
    decreases |es|
  {
    hide Fresh;
    if es != [] {
      NothingTaken(Next(r, es[0]), es[1..]);
    }
  }

  /** The last line taken, what was drained and emitted before it, and what both got after it. */
  lemma {:induction false} LastTaken(r: Renderer, es: seq<Event>)
    returns (drained: seq<Line>, emitted: seq<Line>, taken: Line, tail: seq<Line>)
    requires SinceTaken(r, es).Some?
    ensures Drained(r, es) == drained + [taken] + tail && Emitted(r, es) == emitted + tail
    ensures |tail| == SinceTaken(r, es).value
    ensures forall line :: line in emitted ==> line in drained
    decreases |es|
  {
    hide Fresh;
    var e, next := es[0], Next(r, es[0]);
    var scrolled := Fresh(r);
    if SinceTaken(next, es[1..]).Some? {
      drained, emitted, taken, tail := LastTaken(next, es[1..]);
      var more := if e.Fed? then [] else scrolled;
      var shown := if e.Emits? then scrolled else [];
      Associative(more, drained + [taken], tail);
      Associative(more, drained, [taken]);
      Associative(shown, emitted, tail);
      drained, emitted := more + drained, shown + emitted;
    } else {
      NothingTaken(next, es[1..]);
      tail := Emitted(next, es[1..]);
      drained, emitted, taken := scrolled[..|scrolled| - 1], [], scrolled[|scrolled| - 1];
      assert scrolled == drained + [taken];
      assert [] + tail == tail;
    }
  }

  predicate Distinct(lines: seq<Line>) {
    forall i, j :: 0 <= i < j < |lines| ==> lines[i] != lines[j]
  }

  lemma LongTailsAgree(a: seq<Line>, b: seq<Line>, tail: seq<Line>)
    requires |tail| >= HISTORY_LIMIT
    ensures LastN(HISTORY_LIMIT, a + tail) == LastN(HISTORY_LIMIT, b + tail)
  {
  }

  lemma ShortTailsTell(h: seq<Line>, drained: seq<Line>, emitted: seq<Line>, taken: Line, tail: seq<Line>)
    requires |tail| < HISTORY_LIMIT && Distinct(h + (drained + [taken] + tail))
    requires forall line :: line in emitted ==> line in drained
    ensures LastN(HISTORY_LIMIT, h + (drained + [taken] + tail)) != LastN(HISTORY_LIMIT, h + (emitted + tail))
  {
    var all, seen := h + (drained + [taken] + tail), h + (emitted + tail);
    var at := |h| + |drained|;
    assert all[at] == taken;
    assert taken in LastN(HISTORY_LIMIT, all) by {
      var first := |all| - |LastN(HISTORY_LIMIT, all)|;
      assert LastN(HISTORY_LIMIT, all)[at - first] == all[at];
    }
    assert taken !in seen by {
      assert taken !in h by {
        forall k | 0 <= k < |h| ensures h[k] != taken { assert all[k] == h[k]; }
      }
      assert taken !in drained by {
        forall k | 0 <= k < |drained| ensures drained[k] != taken { assert all[|h| + k] == drained[k]; }
      }
      assert taken !in tail by {
        forall k | 0 <= k < |tail| ensures tail[k] != taken { assert all[at + 1 + k] == tail[k]; }
      }
    }
    assert forall line :: line in LastN(HISTORY_LIMIT, seen) ==> line in seen;
  }

  /** A phone that is in step with the renderer while other phones are served snapshots: it is still in step when no
      snapshot took a line away, or when frames have carried a whole history since; for lines that differ from each
      other, only then. */
  lemma BystanderIsCoherentIff(r: Renderer, es: seq<Event>, b: Buffer, ds: seq<Frame>)
    requires |r.history| <= HISTORY_LIMIT && b.history == r.history && b.lastSeq == r.seqNo
    requires Delivers(ds, r.seqNo, Frames(r, es))
    ensures
      var coherent := ApplyAll(b, ds).history == After(r, es).history;
      var undisturbed := SinceTaken(r, es).None? || SinceTaken(r, es).value >= HISTORY_LIMIT;
      && (undisturbed ==> coherent)
      && (Distinct(r.history + Drained(r, es)) ==> (coherent <==> undisturbed))
  {
    hide LastN, Drained, Emitted, SinceTaken, Distinct, After, Frames, Delivers;
    StaleFramesAreIgnored(b, ds, Frames(r, es));
    PhoneShowsFrames(b, r, es);
    HistoryIsDrained(r, es);
    if SinceTaken(r, es).None? {
      NothingTaken(r, es);
    } else {
      var drained, emitted, taken, tail := LastTaken(r, es);
      Associative(r.history, drained + [taken], tail);
      Associative(r.history, emitted, tail);
      if |tail| >= HISTORY_LIMIT {
        LongTailsAgree(r.history + (drained + [taken]), r.history + emitted, tail);
      } else if Distinct(r.history + Drained(r, es)) {
        ShortTailsTell(r.history, drained, emitted, taken, tail);
      }
    }
  }

  // ---- The renderer itself ----------------------------------------------------------------

  class TerminalRenderer {
    var top: seq<Line>       // the emulator's scrollback
    var screen: seq<Line>    // the emulator's viewport
    var history: seq<Line>
    var consumed: nat
    var seqNo: nat

    function State(): Renderer
      reads this
    {
      Renderer(top, consumed, history, screen, seqNo)
    }

    constructor ()
      ensures State() == START
    {
      top, screen, history, consumed, seqNo := [], [], [], 0, 0;
    }

    /** What feeding bytes does to the emulator. */
    method Feed(lines: seq<Line>, newScreen: seq<Line>)
      modifies this`top, this`screen
      ensures State() == Scroll(old(State()), lines, newScreen)
    {
      top := top + lines;
      if |top| > SCROLLBACK { top := top[|top| - SCROLLBACK..]; }
      screen := newScreen;
    }

    method DrainHistory() returns (scrolled: seq<Line>)
      modifies this`consumed, this`history
      ensures State() == Drain(old(State())) && scrolled == Fresh(old(State()))
    {
      scrolled := if consumed <= |top| then top[consumed..] else [];
      consumed := |top|;
      history := history + scrolled;
      if |history| > HISTORY_LIMIT { history := history[|history| - HISTORY_LIMIT..]; }
    }

    method NextFrame() returns (frame: Frame)
      modifies this`consumed, this`history, this`seqNo
      ensures State() == TakeFrame(old(State())) && frame == FrameOf(old(State()))
    {
      var scrolled := DrainHistory();
      seqNo := seqNo + 1;
      frame := Frame(seqNo, scrolled, screen);
    }

    method Snapshot() returns (snapshot: Buffer)
      modifies this`consumed, this`history
      ensures State() == Drain(old(State())) && snapshot == SnapshotOf(old(State()))
    {
      var _ := DrainHistory();
      snapshot := Buffer(history, screen, seqNo);
    }
  }
}
