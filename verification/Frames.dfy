/** Length-prefixed frames on the local socket: the daemon's decoder (apps/desktop/cucoudle_desktop/ipc.py) and the
    shim's separate re-implementation of it (apps/desktop/cucoudle_desktop/shim_template.py). */
module Frames {
  import opened Sequences

  const HEADER_SIZE := 5
  const MAX_FRAME := 8 * 1024 * 1024
  const TWO_TO_THE_32 := 0x1_0000_0000

  const STDOUT: byte := 0x82
  const EXIT: byte := 0x83
  const ERROR: byte := 0x84

  datatype Frame = Frame(kind: byte, payload: seq<byte>)

  // ---- Encoding ---------------------------------------------------------------------------

  /** An unsigned 32-bit number in big-endian order. */
  function PackLength(n: nat): (r: seq<byte>)
    requires n < TWO_TO_THE_32
    ensures |r| == 4
  {
    [n / 0x100_0000, n / 0x1_0000 % 0x100, n / 0x100 % 0x100, n % 0x100]
  }

  function UnpackLength(b: seq<byte>): (n: nat)
    requires |b| == 4
    ensures n < TWO_TO_THE_32
  {
    b[0] as int * 0x100_0000 + b[1] as int * 0x1_0000 + b[2] as int * 0x100 + b[3] as int
  }

  lemma LengthRoundTrip(n: nat)
    requires n < TWO_TO_THE_32
    ensures UnpackLength(PackLength(n)) == n
  {
    var high, higher := n / 0x100, n / 0x1_0000;
    assert n == high * 0x100 + n % 0x100;
    assert high == higher * 0x100 + high % 0x100;
    assert higher == n / 0x100_0000 * 0x100 + higher % 0x100;
  }

  lemma LengthRoundTripBack(b: seq<byte>)
    requires |b| == 4
    ensures PackLength(UnpackLength(b)) == b
  {
    var n := UnpackLength(b);
    assert n / 0x100 == b[0] as int * 0x1_0000 + b[1] as int * 0x100 + b[2] as int;
    assert n / 0x1_0000 == b[0] as int * 0x100 + b[1] as int;
    assert n / 0x100_0000 == b[0] as int;
  }

  datatype Encoded = Bytes(bytes: seq<byte>) | PayloadTooLarge(size: nat)

  function Encode(f: Frame): Encoded {
    if |f.payload| > MAX_FRAME then PayloadTooLarge(|f.payload|)
    else Bytes([f.kind] + PackLength(|f.payload|) + f.payload)
  }

  function EncodeAll(fs: seq<Frame>): seq<byte>
    requires forall f :: f in fs ==> |f.payload| <= MAX_FRAME
  {
    if fs == [] then [] else Encode(fs[0]).bytes + EncodeAll(fs[1..])
  }

  // ---- What a byte stream means -----------------------------------------------------------

  function LengthOf(buf: seq<byte>): nat
    requires |buf| >= HEADER_SIZE
  {
    UnpackLength(buf[1..HEADER_SIZE])
  }

  /** A stream that starts with a header announcing more than the limit. */
  predicate Oversized(buf: seq<byte>) {
    |buf| >= HEADER_SIZE && LengthOf(buf) > MAX_FRAME
  }

  predicate StartsWithFrame(buf: seq<byte>) {
    |buf| >= HEADER_SIZE && LengthOf(buf) <= MAX_FRAME && HEADER_SIZE + LengthOf(buf) <= |buf|
  }

  function FirstFrame(buf: seq<byte>): Frame
    requires StartsWithFrame(buf)
  {
    Frame(buf[0], buf[HEADER_SIZE..HEADER_SIZE + LengthOf(buf)])
  }

  function AfterFirst(buf: seq<byte>): (rest: seq<byte>)
    requires StartsWithFrame(buf)
    ensures |rest| < |buf|
  {
    buf[HEADER_SIZE + LengthOf(buf)..]
  }

  /** The complete frames at the front of a stream. */
  function FramesOf(buf: seq<byte>): seq<Frame>
    decreases |buf|
  {
    if StartsWithFrame(buf) then [FirstFrame(buf)] + FramesOf(AfterFirst(buf)) else []
  }

  /** What follows them. */
  function RestOf(buf: seq<byte>): seq<byte>
    decreases |buf|
  {
    if StartsWithFrame(buf) then RestOf(AfterFirst(buf)) else buf
  }

  lemma EncodedFirst(f: Frame, rest: seq<byte>)
    requires |f.payload| <= MAX_FRAME
    ensures var buf := Encode(f).bytes + rest;
            StartsWithFrame(buf) && FirstFrame(buf) == f && AfterFirst(buf) == rest
  {
    var buf := Encode(f).bytes + rest;
    assert buf[1..HEADER_SIZE] == PackLength(|f.payload|);
    LengthRoundTrip(|f.payload|);
  }

  lemma FirstReencodes(buf: seq<byte>)
    requires StartsWithFrame(buf)
    ensures |FirstFrame(buf).payload| <= MAX_FRAME
    ensures Encode(FirstFrame(buf)).bytes + AfterFirst(buf) == buf
  {
    LengthRoundTripBack(buf[1..HEADER_SIZE]);
    assert buf == [buf[0]] + buf[1..HEADER_SIZE] + buf[HEADER_SIZE..HEADER_SIZE + LengthOf(buf)] + AfterFirst(buf);
  }

  /** Decoding inverts encoding: frames followed by an incomplete tail decode to those frames and that tail. */
  lemma {:induction false} DecodeInvertsEncode(fs: seq<Frame>, tail: seq<byte>)
    requires forall f :: f in fs ==> |f.payload| <= MAX_FRAME
    requires !StartsWithFrame(tail)
    ensures FramesOf(EncodeAll(fs) + tail) == fs && RestOf(EncodeAll(fs) + tail) == tail
  {
    if fs == [] {
      assert EncodeAll(fs) + tail == tail;
    } else {
      DecodeInvertsEncode(fs[1..], tail);
      Associative(Encode(fs[0]).bytes, EncodeAll(fs[1..]), tail);
      EncodedFirst(fs[0], EncodeAll(fs[1..]) + tail);
    }
  }

  /** And encoding inverts decoding, for every byte stream; what remains holds no complete frame. */
  lemma {:induction false} EncodeInvertsDecode(buf: seq<byte>)
    ensures forall f :: f in FramesOf(buf) ==> |f.payload| <= MAX_FRAME
    ensures buf == EncodeAll(FramesOf(buf)) + RestOf(buf)
    ensures !StartsWithFrame(RestOf(buf))
    decreases |buf|
  {
    if StartsWithFrame(buf) {
      var rest := AfterFirst(buf);
      EncodeInvertsDecode(rest);
      FirstReencodes(buf);
      Associative(Encode(FirstFrame(buf)).bytes, EncodeAll(FramesOf(rest)), RestOf(rest));
    }
  }

  /** The number that digits to base 256 write, the most significant first. */
  function Numeral(digits: seq<byte>): nat {
    if digits == [] then 0 else 0x100 * Numeral(digits[..|digits| - 1]) + digits[|digits| - 1] as int
  }

  lemma LengthIsNumeral(digits: seq<byte>)
    requires |digits| == 4
    ensures UnpackLength(digits) == Numeral(digits)
  {
    assert digits[..3][..2] == digits[..2] && digits[..2][..1] == digits[..1] && digits[..1][..0] == [];
    assert Numeral(digits[..1]) == digits[0] as int;
    assert Numeral(digits[..2]) == 0x100 * Numeral(digits[..1]) + digits[1] as int;
    assert Numeral(digits[..3]) == 0x100 * Numeral(digits[..2]) + digits[2] as int;
  }

  /** A frame on the wire: its kind, the length of its payload as four digits, and the payload. */
  lemma WireFormat(f: Frame)
    requires Encode(f).Bytes?
    ensures
      var bytes := Encode(f).bytes;
      && |bytes| == 5 + |f.payload| && bytes[0] == f.kind && Numeral(bytes[1..5]) == |f.payload|
      && bytes[5..] == f.payload
  {
    LengthIsNumeral(PackLength(|f.payload|));
    LengthRoundTrip(|f.payload|);
    assert Encode(f).bytes[1..5] == PackLength(|f.payload|);
  }

  /** A header is judged as soon as its last digit is there, and by its digits alone. */
  lemma OversizedIff(buf: seq<byte>)
    ensures Oversized(buf) <==>
      exists kind: byte, digits: seq<byte> ::
        |digits| == 4 && [kind] + digits <= buf && Numeral(digits) > 8 * 1024 * 1024
  {
    if |buf| >= 5 {
      LengthIsNumeral(buf[1..5]);
      assert [buf[0]] + buf[1..5] == buf[..5];
    }
    forall kind: byte, digits: seq<byte> | |digits| == 4 && [kind] + digits <= buf && Numeral(digits) > 8 * 1024 * 1024
      ensures Oversized(buf)
    {
      assert buf[..5] == [kind] + digits;
      assert buf[1..5] == digits;
    }
  }

  /** Encoding refuses exactly the frames that no stream decodes to. */
  lemma EncodesIff(f: Frame)
    ensures Encode(f).Bytes? <==> exists buf :: f in FramesOf(buf)
    ensures Encode(f).Bytes? ==> FramesOf(Encode(f).bytes) == [f]
  {
    if |f.payload| <= MAX_FRAME {
      NothingStartsNoFrame();
      EncodedFirst(f, []);
      var buf := Encode(f).bytes;
      assert buf + [] == buf;
      assert FramesOf(buf) == [f] + FramesOf([]);
      assert f in FramesOf(buf);
    }
    forall buf | f in FramesOf(buf) ensures Encode(f).Bytes? {
      EncodeInvertsDecode(buf);
    }
  }

  /** Decoding a longer stream continues where decoding its front stopped. */
  lemma {:induction false} DecodeAppend(a: seq<byte>, b: seq<byte>)
    ensures FramesOf(a + b) == FramesOf(a) + FramesOf(RestOf(a) + b)
    ensures RestOf(a + b) == RestOf(RestOf(a) + b)
    decreases |a|
  {
    if StartsWithFrame(a) {
      assert (a + b)[1..HEADER_SIZE] == a[1..HEADER_SIZE];
      assert FirstFrame(a + b) == FirstFrame(a);
      assert AfterFirst(a + b) == AfterFirst(a) + b;
      DecodeAppend(AfterFirst(a), b);
    }
  }

  lemma OversizedStays(a: seq<byte>, b: seq<byte>)
    requires Oversized(a)
    ensures Oversized(a + b) && FramesOf(a + b) == [] && RestOf(a + b) == a + b
  {
    assert (a + b)[1..HEADER_SIZE] == a[1..HEADER_SIZE];
  }

  // ---- The daemon's decoder ---------------------------------------------------------------

  datatype FeedResult = Fed(frames: seq<Frame>) | TooLong(length: nat)

  class FrameDecoder {
    var buf: seq<byte>

    constructor ()
      ensures buf == []
    {
      buf := [];
    }

    /** Returns the frames completed by `data`. An oversized header raises: the frames completed before it in the
        same call are gone, and the header stays at the front of the buffer. */
    method Feed(data: seq<byte>) returns (r: FeedResult)
      modifies this
      ensures buf == RestOf(old(buf) + data)
      ensures r == if Oversized(buf) then TooLong(LengthOf(buf)) else Fed(FramesOf(old(buf) + data))
    {
      buf := buf + data;
      var frames := [];
      while true
        invariant FramesOf(old(buf) + data) == frames + FramesOf(buf)
        invariant RestOf(old(buf) + data) == RestOf(buf)
        decreases |buf|
      {
        if |buf| < HEADER_SIZE {
          break;
        }
        var kind, length := buf[0], UnpackLength(buf[1..HEADER_SIZE]);
        if length > MAX_FRAME {
          return TooLong(length);
        }
        var total := HEADER_SIZE + length;
        if |buf| < total {
          break;
        }
        var payload := buf[HEADER_SIZE..total];
        assert Frame(kind, payload) == FirstFrame(buf) && buf[total..] == AfterFirst(buf);
        Associative(frames, [Frame(kind, payload)], FramesOf(AfterFirst(buf)));
        buf := buf[total..];
        frames := frames + [Frame(kind, payload)];
      }
      return Fed(frames);
    }
  }

  /** What `Feed` delivers for a buffer and a chunk; a call that raises delivers nothing. */
  function Delivered(buf: seq<byte>, data: seq<byte>): seq<Frame> {
    if Oversized(RestOf(buf + data)) then [] else FramesOf(buf + data)
  }

  /** All frames a decoder holding `buf` delivers over a series of calls. */
  function DeliveredAll(buf: seq<byte>, chunks: seq<seq<byte>>): seq<Frame>
    decreases chunks
  {
    if chunks == [] then [] else Delivered(buf, chunks[0]) + DeliveredAll(RestOf(buf + chunks[0]), chunks[1..])
  }

  function BufferAfter(buf: seq<byte>, chunks: seq<seq<byte>>): seq<byte>
    decreases chunks
  {
    if chunks == [] then buf else BufferAfter(RestOf(buf + chunks[0]), chunks[1..])
  }

  /** Delivery does not depend on how the stream is cut, when no oversized header is met. */
  lemma {:induction false} ChunkingIsIrrelevant(buf: seq<byte>, chunks: seq<seq<byte>>)
    requires !StartsWithFrame(buf)
    requires !Oversized(RestOf(buf + Flatten(chunks)))
    ensures DeliveredAll(buf, chunks) == FramesOf(buf + Flatten(chunks))
    ensures BufferAfter(buf, chunks) == RestOf(buf + Flatten(chunks))
    decreases chunks
  {
    if chunks == [] {
      assert buf + Flatten(chunks) == buf;
    } else {
      var rest := Flatten(chunks[1..]);
      var next := RestOf(buf + chunks[0]);
      Associative(buf, chunks[0], rest);
      DecodeAppend(buf + chunks[0], rest);
      EncodeInvertsDecode(buf + chunks[0]);
      if Oversized(next) {
        OversizedStays(next, rest);
        assert false;
      }
      ChunkingIsIrrelevant(next, chunks[1..]);
    }
  }

  /** The frame protocol's promise: frames within the limit arrive exactly, under any chunking of their encodings,
      and a truncated stream leaves exactly its incomplete tail. */
  lemma FramesSurviveChunking(fs: seq<Frame>, tail: seq<byte>, chunks: seq<seq<byte>>)
    requires forall f :: f in fs ==> |f.payload| <= MAX_FRAME
    requires !StartsWithFrame(tail) && !Oversized(tail)
    requires Flatten(chunks) == EncodeAll(fs) + tail
    ensures DeliveredAll([], chunks) == fs && BufferAfter([], chunks) == tail
  {
    DecodeInvertsEncode(fs, tail);
    assert [] + Flatten(chunks) == Flatten(chunks);
    ChunkingIsIrrelevant([], chunks);
  }

  /** Once an oversized header is at the front, nothing is delivered any more. */
  lemma {:induction false} OversizedDeliversNothing(buf: seq<byte>, chunks: seq<seq<byte>>)
    requires Oversized(buf)
    ensures DeliveredAll(buf, chunks) == []
    decreases chunks
  {
    if chunks != [] {
      OversizedStays(buf, chunks[0]);
      OversizedDeliversNothing(buf + chunks[0], chunks[1..]);
    }
  }

  lemma {:induction false} DeliversAtMost(buf: seq<byte>, chunks: seq<seq<byte>>)
    requires FramesOf(buf + Flatten(chunks)) == []
    ensures DeliveredAll(buf, chunks) == []
    decreases chunks
  {
    if chunks != [] {
      Associative(buf, chunks[0], Flatten(chunks[1..]));
      DecodeAppend(buf + chunks[0], Flatten(chunks[1..]));
      DeliversAtMost(RestOf(buf + chunks[0]), chunks[1..]);
    }
  }

  /** Exactly when the frames delivered do not depend on the chunking: no oversized header follows a complete frame.
      Otherwise a single call loses the complete frames, and a cut before the bad header delivers them. */
  lemma ChunkingIsIrrelevantIff(stream: seq<byte>)
    ensures (forall chunks: seq<seq<byte>> :: Flatten(chunks) == stream ==>
               DeliveredAll([], chunks) == Delivered([], stream)) <==>
            !Oversized(RestOf(stream)) || FramesOf(stream) == []
  {
    if !Oversized(RestOf(stream)) || FramesOf(stream) == [] {
      forall chunks: seq<seq<byte>> | Flatten(chunks) == stream
        ensures DeliveredAll([], chunks) == Delivered([], stream)
      {
        AnyCut(stream, chunks);
      }
    } else {
      var chunks := CutBeforeBadHeader(stream);
    }
  }

  lemma AnyCut(stream: seq<byte>, chunks: seq<seq<byte>>)
    requires !Oversized(RestOf(stream)) || FramesOf(stream) == []
    requires Flatten(chunks) == stream
    ensures DeliveredAll([], chunks) == Delivered([], stream)
  {
    assert [] + stream == stream;
    if !Oversized(RestOf(stream)) {
      ChunkingIsIrrelevant([], chunks);
    } else {
      DeliversAtMost([], chunks);
    }
  }

  lemma CutBeforeBadHeader(stream: seq<byte>) returns (chunks: seq<seq<byte>>)
    requires Oversized(RestOf(stream)) && FramesOf(stream) != []
    ensures Flatten(chunks) == stream && DeliveredAll([], chunks) != Delivered([], stream)
  {
    hide Oversized, FramesOf, RestOf, EncodeAll;
    EncodeInvertsDecode(stream);
    var fs := FramesOf(stream);
    var front, rest := EncodeAll(fs), RestOf(stream);
    chunks := [front, rest];
    TwoChunks(front, rest);
    NothingStartsNoFrame();
    DecodeInvertsEncode(fs, []);
    assert front + [] == front && [] + front == front && [] + stream == stream && [] + rest == rest;
  }

  lemma NothingStartsNoFrame()
    ensures !StartsWithFrame([]) && !Oversized([])
  {
  }

  lemma TwoChunks(a: seq<byte>, b: seq<byte>)
    ensures Flatten([a, b]) == a + b
    ensures DeliveredAll([], [a, b]) == Delivered([], a) + Delivered(RestOf([] + a), b)
  {
    hide Delivered, RestOf;
    assert [a, b][1..] == [b] && [b][1..] == [];
    assert Flatten([b]) == b;
    var next := RestOf([] + a);
    assert DeliveredAll(next, [b]) == Delivered(next, b) + [];
  }

  // ---- The shim's reader ------------------------------------------------------------------

  /** EXIT and ERROR end the shim's loop. */
  predicate Final(f: Frame) {
    f.kind == EXIT || f.kind == ERROR
  }

  /** The frames up to and including the first final one. */
  function UpToFinal(fs: seq<Frame>): seq<Frame> {
    if fs == [] then [] else if Final(fs[0]) then [fs[0]] else [fs[0]] + UpToFinal(fs[1..])
  }

  /** What the terminal shows for a series of frames: the payloads of the STDOUT frames. */
  function Shown(fs: seq<Frame>): seq<byte> {
    if fs == [] then [] else (if fs[0].kind == STDOUT then fs[0].payload else []) + Shown(fs[1..])
  }

  lemma {:induction false} ShownAppend(a: seq<Frame>, b: seq<Frame>)
    ensures Shown(a + b) == Shown(a) + Shown(b)
  {
    if a == [] {
      assert a + b == b;
    } else {
      ShownAppend(a[1..], b);
      assert (a + b)[0] == a[0] && (a + b)[1..] == a[1..] + b;
      Associative(if a[0].kind == STDOUT then a[0].payload else [], Shown(a[1..]), Shown(b));
    }
  }

  /** The first final frame, if there is one. */
  function FirstFinal(fs: seq<Frame>): seq<Frame> {
    if fs == [] then [] else if Final(fs[0]) then [fs[0]] else FirstFinal(fs[1..])
  }

  lemma {:induction false} UpToFinalAppend(a: seq<Frame>, b: seq<Frame>)
    ensures if FirstFinal(a) != [] then UpToFinal(a + b) == UpToFinal(a) && FirstFinal(a + b) == FirstFinal(a)
            else UpToFinal(a) == a && UpToFinal(a + b) == a + UpToFinal(b) && FirstFinal(a + b) == FirstFinal(b)
  {
    if a == [] {
      assert a + b == b;
    } else {
      UpToFinalAppend(a[1..], b);
      assert (a + b)[0] == a[0] && (a + b)[1..] == a[1..] + b;
      assert a == [a[0]] + a[1..];
      Associative([a[0]], a[1..], UpToFinal(b));
    }
  }

  datatype Header = NoHeader | Header(kind: byte, length: nat)

  datatype Shim = Shim(
    header: Header,      // a header stripped from the buffer, waiting for its payload
    buf: seq<byte>,
    running: bool,
    shown: seq<byte>,    // written to the local terminal
    ending: seq<Frame>)  // the EXIT or ERROR frame that ended the loop

  predicate Valid(s: Shim) {
    s.header.Header? ==> s.header.length < TWO_TO_THE_32
  }

  /** The stream the shim has yet to dispatch: its stripped header, put back, and its buffer. */
  function Undispatched(s: Shim): seq<byte>
    requires Valid(s)
  {
    if s.header.NoHeader? then s.buf else [s.header.kind] + PackLength(s.header.length) + s.buf
  }

  function StripHeader(s: Shim): Shim
    requires s.header.NoHeader? && |s.buf| >= HEADER_SIZE
  {
    s.(header := Header(s.buf[0], LengthOf(s.buf)), buf := s.buf[HEADER_SIZE..])
  }

  function DispatchOne(s: Shim): Shim
    requires s.header.Header? && |s.buf| >= s.header.length
  {
    var f := Frame(s.header.kind, s.buf[..s.header.length]);
    s.(header := NoHeader,
       buf := s.buf[s.header.length..],
       running := !Final(f),
       shown := if f.kind == STDOUT then s.shown + f.payload else s.shown,
       ending := if Final(f) then [f] else s.ending)
  }

  /** The shim's inner loop. */
  function Dispatch(s: Shim): Shim
    requires Valid(s)
    decreases |s.buf| + (if s.header.Header? then HEADER_SIZE else 0), s.header.NoHeader?
  {
    if s.header.NoHeader? then
      if |s.buf| < HEADER_SIZE then s else Dispatch(StripHeader(s))
    else if |s.buf| < s.header.length then s
    else if !DispatchOne(s).running then DispatchOne(s)
    else Dispatch(DispatchOne(s))
  }

  /** One chunk from the socket; once the loop has ended nothing is read. */
  function Receive(s: Shim, chunk: seq<byte>): Shim
    requires Valid(s)
  {
    if s.running then Dispatch(s.(buf := s.buf + chunk)) else s
  }

  lemma StrippingIsInvisible(s: Shim)
    requires s.header.NoHeader? && |s.buf| >= HEADER_SIZE
    ensures Undispatched(StripHeader(s)) == Undispatched(s)
  {
    LengthRoundTripBack(s.buf[1..HEADER_SIZE]);
    assert s.buf == [s.buf[0]] + s.buf[1..HEADER_SIZE] + s.buf[HEADER_SIZE..];
  }

  lemma HeaderInFront(s: Shim)
    requires Valid(s) && s.header.Header?
    ensures var u := Undispatched(s);
            && |u| == HEADER_SIZE + |s.buf| && LengthOf(u) == s.header.length
            && (|s.buf| >= s.header.length && s.header.length <= MAX_FRAME ==>
                && FirstFrame(u) == Frame(s.header.kind, s.buf[..s.header.length])
                && AfterFirst(u) == s.buf[s.header.length..])
  {
    var u := Undispatched(s);
    assert u[1..HEADER_SIZE] == PackLength(s.header.length);
    LengthRoundTrip(s.header.length);
    assert u[HEADER_SIZE..] == s.buf;
  }

  /** The eager-header loop simulates the daemon's decoder: on the stream it has yet to dispatch it dispatches the
      decoder's frames up to the first final one, and otherwise leaves the decoder's remainder. */
  lemma {:induction false} DispatchSimulates(s: Shim)
    requires Valid(s) && s.running && !Oversized(RestOf(Undispatched(s)))
    ensures var d, fs := Dispatch(s), FramesOf(Undispatched(s));
            && Valid(d) && d.shown == s.shown + Shown(UpToFinal(fs))
            && d.running == (FirstFinal(fs) == [])
            && d.ending == (if d.running then s.ending else FirstFinal(fs))
            && (d.running ==> Undispatched(d) == RestOf(Undispatched(s)))
    decreases |s.buf| + (if s.header.Header? then HEADER_SIZE else 0), s.header.NoHeader?
  {
    var u := Undispatched(s);
    if s.header.NoHeader? {
      if |s.buf| >= HEADER_SIZE {
        StrippingIsInvisible(s);
        DispatchSimulates(StripHeader(s));
      } else {
        assert s.shown + [] == s.shown;
      }
    } else {
      HeaderInFront(s);
      if |s.buf| < s.header.length {
        assert s.shown + [] == s.shown;
      } else {
        assert s.header.length <= MAX_FRAME;
        var f := FirstFrame(u);
        var own := if f.kind == STDOUT then f.payload else [];
        assert DispatchOne(s).shown == s.shown + own;
        ShownOne(f);
        if !Final(f) {
          var d := DispatchOne(s);
          assert Undispatched(d) == AfterFirst(u);
          DispatchSimulates(d);
          Associative(s.shown, own, Shown(UpToFinal(FramesOf(AfterFirst(u)))));
        }
      }
    }
  }

  lemma ShownOne(f: Frame)
    ensures Shown([f]) == if f.kind == STDOUT then f.payload else []
  {
  }

  function ReceiveAll(s: Shim, chunks: seq<seq<byte>>): Shim
    requires Valid(s)
    decreases chunks
  {
    if chunks == [] then s else
      DispatchStaysValid(s.(buf := s.buf + chunks[0]));
      ReceiveAll(Receive(s, chunks[0]), chunks[1..])
  }

  lemma {:induction false} DispatchStaysValid(s: Shim)
    requires Valid(s)
    ensures Valid(Dispatch(s))
    decreases |s.buf| + (if s.header.Header? then HEADER_SIZE else 0), s.header.NoHeader?
  {
    if s.header.NoHeader? {
      if |s.buf| >= HEADER_SIZE {
        DispatchStaysValid(StripHeader(s));
      }
    } else if |s.buf| >= s.header.length && DispatchOne(s).running {
      DispatchStaysValid(DispatchOne(s));
    }
  }

  const FRESH_SHIM := Shim(NoHeader, [], true, [], [])

  lemma {:induction false} ShimAgreesFrom(s: Shim, chunks: seq<seq<byte>>)
    requires Valid(s) && s.running && !StartsWithFrame(Undispatched(s)) && s.ending == []
    requires !Oversized(RestOf(Undispatched(s) + Flatten(chunks)))
    ensures var d, fs := ReceiveAll(s, chunks), FramesOf(Undispatched(s) + Flatten(chunks));
            && Valid(d) && d.shown == s.shown + Shown(UpToFinal(fs))
            && d.ending == FirstFinal(fs) && d.running == (FirstFinal(fs) == [])
            && (d.running ==> Undispatched(d) == RestOf(Undispatched(s) + Flatten(chunks)))
    decreases chunks
  {
    hide FramesOf, RestOf, Oversized, Dispatch, Undispatched, Shown;
    var u := Undispatched(s);
    if chunks == [] {
      NoFrames(u);
      assert u + Flatten(chunks) == u;
      assert s.shown + [] == s.shown;
    } else {
      var rest := Flatten(chunks[1..]);
      var s1 := s.(buf := s.buf + chunks[0]);
      var fs1 := FramesOf(u + chunks[0]);
      BufferGrows(s, chunks[0]);
      Associative(u, chunks[0], rest);
      DecodeAppend(u + chunks[0], rest);
      EncodeInvertsDecode(u + chunks[0]);
      if Oversized(RestOf(u + chunks[0])) {
        OversizedStays(RestOf(u + chunks[0]), rest);
        assert false;
      }
      DispatchSimulates(s1);
      var d1 := Dispatch(s1);
      var fs2 := FramesOf(RestOf(u + chunks[0]) + rest);
      UpToFinalAppend(fs1, fs2);
      if d1.running {
        ShimAgreesFrom(d1, chunks[1..]);
        ShownAppend(fs1, UpToFinal(fs2));
        Associative(s.shown, Shown(fs1), Shown(UpToFinal(fs2)));
      } else {
        StoppedShimIgnores(d1, chunks[1..]);
      }
    }
  }

  lemma NoFrames(u: seq<byte>)
    requires !StartsWithFrame(u)
    ensures FramesOf(u) == [] && RestOf(u) == u && Shown([]) == []
  {
  }

  lemma BufferGrows(s: Shim, chunk: seq<byte>)
    requires Valid(s)
    ensures Undispatched(s.(buf := s.buf + chunk)) == Undispatched(s) + chunk
  {
  }

  lemma {:induction false} StoppedShimIgnores(s: Shim, chunks: seq<seq<byte>>)
    requires Valid(s) && !s.running
    ensures ReceiveAll(s, chunks) == s
    decreases chunks
  {
    if chunks != [] {
      StoppedShimIgnores(s, chunks[1..]);
    }
  }

  /** For every stream without an oversized header and every chunking, the shim shows exactly the STDOUT payloads of
      the decoder's frames up to the first EXIT or ERROR, ends on that frame, and otherwise holds the decoder's
      remainder. */
  lemma ShimAgreesWithDecoder(chunks: seq<seq<byte>>)
    requires !Oversized(RestOf(Flatten(chunks)))
    ensures var d, fs := ReceiveAll(FRESH_SHIM, chunks), FramesOf(Flatten(chunks));
            && Valid(d) && d.shown == Shown(UpToFinal(fs))
            && d.ending == FirstFinal(fs) && d.running == (FirstFinal(fs) == [])
            && (d.running ==> Undispatched(d) == RestOf(Flatten(chunks)))
  {
    assert [] + Flatten(chunks) == Flatten(chunks);
    ShimAgreesFrom(FRESH_SHIM, chunks);
    var fs := FramesOf(Flatten(chunks));
    assert [] + Shown(UpToFinal(fs)) == Shown(UpToFinal(fs));
  }

  /** The payloads of STDOUT frames, written out by code. */
  function Payloads(fs: seq<Frame>): seq<seq<byte>> {
    seq(|fs|, k requires 0 <= k < |fs| => if fs[k].kind == 0x82 then fs[k].payload else [])
  }

  lemma {:induction false} ShownIsFlat(fs: seq<Frame>)
    ensures Shown(fs) == Flatten(Payloads(fs))
  {
    if fs != [] {
      ShownIsFlat(fs[1..]);
      assert Payloads(fs)[1..] == Payloads(fs[1..]);
    }
  }

  lemma {:induction false} EndIsAt(fs: seq<Frame>, n: nat)
    requires n <= |fs| && (forall j :: 0 <= j < n ==> fs[j].kind !in {0x83, 0x84})
    requires n < |fs| ==> fs[n].kind in {0x83, 0x84}
    ensures UpToFinal(fs) == fs[..n] + FirstFinal(fs)
    ensures FirstFinal(fs) == if n < |fs| then [fs[n]] else []
  {
    if n > 0 {
      EndIsAt(fs[1..], n - 1);
      assert fs[..n] == [fs[0]] + fs[1..][..n - 1];
    }
  }

  /** The shim ends exactly with the first frame of kind 0x83 or 0x84 in the stream, if there is one, and shows exactly
      the payloads of the frames of kind 0x82 in front of it. */
  lemma ShimEndsIff(chunks: seq<seq<byte>>, n: nat)
    requires !Oversized(RestOf(Flatten(chunks))) && n <= |FramesOf(Flatten(chunks))|
    requires
      var fs := FramesOf(Flatten(chunks));
      && (forall j :: 0 <= j < n ==> fs[j].kind !in {0x83, 0x84})
      && (n < |fs| ==> fs[n].kind in {0x83, 0x84})
    ensures
      var d, fs := ReceiveAll(FRESH_SHIM, chunks), FramesOf(Flatten(chunks));
      && (d.running <==> n == |fs|)
      && d.ending == (if n < |fs| then [fs[n]] else [])
      && d.shown == Flatten(Payloads(fs[..n]))
  {
    hide FramesOf, RestOf, Oversized, Flatten, Shown, UpToFinal, FirstFinal, ReceiveAll;
    var fs := FramesOf(Flatten(chunks));
    ShimAgreesWithDecoder(chunks);
    EndIsAt(fs, n);
    ShownAppend(fs[..n], FirstFinal(fs));
    ShownIsFlat(fs[..n]);
    NothingShown();
    if n < |fs| {
      ShownOne(fs[n]);
    }
    assert Shown(fs[..n]) + [] == Shown(fs[..n]);
  }

  lemma NothingShown()
    ensures Shown([]) == []
  {
  }

  class ShimReader {
    var buf: seq<byte>
    var header: Header
    var running: bool
    var shown: seq<byte>
    var ending: seq<Frame>

    ghost function State(): Shim
      reads this
    {
      Shim(header, buf, running, shown, ending)
    }

    constructor ()
      ensures State() == FRESH_SHIM
    {
      buf, header, running, shown, ending := [], NoHeader, true, [], [];
    }

    method ReceiveChunk(chunk: seq<byte>)
      requires Valid(State()) && running
      modifies this
      ensures Valid(State()) && State() == Receive(old(State()), chunk)
    {
      buf := buf + chunk;
      while true
        invariant Valid(State()) && running
        invariant Dispatch(State()) == Receive(old(State()), chunk)
        decreases |buf| + (if header.Header? then HEADER_SIZE else 0), header.NoHeader?
      {
        if header.NoHeader? {
          if |buf| < HEADER_SIZE {
            break;
          }
          header := Header(buf[0], UnpackLength(buf[1..HEADER_SIZE]));
          buf := buf[HEADER_SIZE..];
        }
        var kind, length := header.kind, header.length;
        if |buf| < length {
          break;
        }
        var payload := buf[..length];
        buf := buf[length..];
        header := NoHeader;
        if kind == STDOUT {
          shown := shown + payload;
        } else if kind == EXIT || kind == ERROR {
          ending := [Frame(kind, payload)];
          running := false;
          break;
        }
      }
    }
  }
}
