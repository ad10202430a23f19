/** The phone's bounded text buffer of one session (apps/mobile/src/state/terminalBuffer.ts). */
module TerminalBuffer {
  import opened Sequences

  const MAX_TERMINAL_BUFFER_LENGTH := 200_000

  /** A numbered piece of terminal output; the daemon numbers all sessions with one counter. */
  datatype Chunk = Chunk(no: int, data: string)

  datatype Buffer = Buffer(text: string, lastSeq: int)

  const EMPTY := Buffer("", 0)

  function TrimText(text: string): string {
    LastN(MAX_TERMINAL_BUFFER_LENGTH, text)
  }

  function Append(b: Buffer, c: Chunk): Buffer {
    if c.no <= b.lastSeq then b else Buffer(TrimText(b.text + c.data), c.no)
  }

  function AppendAll(b: Buffer, cs: seq<Chunk>): Buffer
    decreases cs
  {
    if cs == [] then b else AppendAll(Append(b, cs[0]), cs[1..])
  }

  function ReplaceSnapshot(text: string, lastSeq: int): Buffer {
    Buffer(TrimText(text), lastSeq)
  }

  function Number(c: Chunk): int {
    c.no
  }

  function Replay(b: Buffer, cs: seq<Chunk>): Buffer {
    AppendAll(b, StableSort(Number, cs))
  }

  function Text(cs: seq<Chunk>): string {
    if cs == [] then "" else cs[0].data + Text(cs[1..])
  }

  predicate Increasing(cs: seq<Chunk>) {
    forall i, j :: 0 <= i < j < |cs| ==> cs[i].no < cs[j].no
  }

  lemma {:induction false} TextAppend(a: seq<Chunk>, b: seq<Chunk>)
    ensures Text(a + b) == Text(a) + Text(b)
  {
    if a == [] {
      assert a + b == b;
    } else {
      TextAppend(a[1..], b);
      assert (a + b)[0] == a[0] && (a + b)[1..] == a[1..] + b;
      Associative(a[0].data, Text(a[1..]), Text(b));
    }
  }

  lemma {:induction false} AppendAllConcat(b: Buffer, x: seq<Chunk>, y: seq<Chunk>)
    ensures AppendAll(b, x + y) == AppendAll(AppendAll(b, x), y)
    decreases x
  {
    if x == [] {
      assert x + y == y;
    } else {
      AppendAllConcat(Append(b, x[0]), x[1..], y);
      assert (x + y)[1..] == x[1..] + y;
    }
  }

  /** Chunks the buffer already counts are no-ops, in any order and number. */
  lemma {:induction false} StaleChunksAreIgnored(b: Buffer, cs: seq<Chunk>)
    requires forall c :: c in cs ==> c.no <= b.lastSeq
    ensures AppendAll(b, cs) == b
  {
    if cs != [] {
      StaleChunksAreIgnored(b, cs[1..]);
    }
  }

  /** Replaying chunks that arrive in order is appending them. */
  lemma ReplayInOrder(b: Buffer, cs: seq<Chunk>)
    requires Increasing(cs)
    ensures Replay(b, cs) == AppendAll(b, cs)
  {
    assert SortedBy(Number, cs);
    SortingSortedIsIdentity(Number, cs);
  }

  /** Newer chunks in order: the text is the tail of everything appended, trimmed once or trimmed every time. */
  lemma {:induction false} FreshChunksAppend(b: Buffer, cs: seq<Chunk>)
    requires Increasing(cs) && cs != [] && b.lastSeq < cs[0].no
    ensures AppendAll(b, cs) == Buffer(TrimText(b.text + Text(cs)), cs[|cs| - 1].no)
    decreases cs
  {
    var b1 := Append(b, cs[0]);
    if |cs| == 1 {
      assert Text(cs[1..]) == "";
      assert b.text + Text(cs) == b.text + cs[0].data;
    } else {
      FreshChunksAppend(b1, cs[1..]);
      LastNAppend(MAX_TERMINAL_BUFFER_LENGTH, b.text + cs[0].data, Text(cs[1..]));
      assert b.text + Text(cs) == b.text + cs[0].data + Text(cs[1..]);
    }
  }
}
