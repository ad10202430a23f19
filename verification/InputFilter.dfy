/** The filter that keeps unsupported terminal queries from the renderer
    (apps/desktop/cucoudle_desktop/render.py, `_RendererInputFilter`).

    The reference is a one-pass reading of the stream into tokens: single bytes, and control sequences ended by a
    final byte 0x40-0x7E (section 5.4 of ECMA-48). */
module InputFilter {
  import opened Options
  import opened Sequences

  const ESC: byte := 0x1b
  const BRACKET: byte := 0x5b

  datatype Token = Text(b: byte) | Sequence(bytes: seq<byte>)

  predicate IsFinal(b: byte) {
    0x40 <= b <= 0x7e
  }

  /** The first final byte at or after `i`, or the end. */
  function FinalAt(src: seq<byte>, i: nat): (f: nat)
    requires i <= |src|
    ensures i <= f <= |src| && (f < |src| ==> IsFinal(src[f]))
    decreases |src| - i
  {
    if i == |src| || IsFinal(src[i]) then i else FinalAt(src, i + 1)
  }

  predicate StartsSequence(src: seq<byte>) {
    |src| >= 2 && src[0] == ESC && src[1] == BRACKET
  }

  predicate StartsWithToken(src: seq<byte>) {
    src != [] && (src[0] == ESC ==> |src| >= 2) && (StartsSequence(src) ==> FinalAt(src, 2) < |src|)
  }

  function FirstToken(src: seq<byte>): Token
    requires StartsWithToken(src)
  {
    if StartsSequence(src) then Sequence(src[..FinalAt(src, 2) + 1]) else Text(src[0])
  }

  function AfterToken(src: seq<byte>): (rest: seq<byte>)
    requires StartsWithToken(src)
    ensures |rest| < |src|
  {
    if StartsSequence(src) then src[FinalAt(src, 2) + 1..] else src[1..]
  }

  /** The complete tokens of a stream and the incomplete one after them. */
  function Tokens(src: seq<byte>): seq<Token>
    decreases |src|
  {
    if StartsWithToken(src) then [FirstToken(src)] + Tokens(AfterToken(src)) else []
  }

  function Tail(src: seq<byte>): seq<byte>
    decreases |src|
  {
    if StartsWithToken(src) then Tail(AfterToken(src)) else src
  }

  /** A private device-status request or a Kitty keyboard request. */
  predicate IsQuery(t: Token) {
    && t.Sequence? && |t.bytes| >= 4
    && var first, last := t.bytes[2], t.bytes[|t.bytes| - 1];
       || (last == 0x6e && first == 0x3f)
       || (last == 0x75 && first in {0x3c, 0x3e, 0x3d, 0x3f})
  }

  function BytesOf(t: Token): seq<byte> {
    if t.Text? then [t.b] else t.bytes
  }

  function Untokenise(ts: seq<Token>): seq<byte> {
    if ts == [] then [] else BytesOf(ts[0]) + Untokenise(ts[1..])
  }

  function Kept(ts: seq<Token>): seq<Token> {
    if ts == [] then [] else (if IsQuery(ts[0]) then [] else [ts[0]]) + Kept(ts[1..])
  }

  function Dropped(ts: seq<Token>): seq<Token> {
    if ts == [] then [] else (if IsQuery(ts[0]) then [ts[0]] else []) + Dropped(ts[1..])
  }

  /** What the filter lets through of a stream. */
  function Filtered(src: seq<byte>): seq<byte> {
    Untokenise(Kept(Tokens(src)))
  }

  predicate WellFormed(t: Token) {
    t.Sequence? ==>
      && |t.bytes| >= 3 && t.bytes[0] == ESC && t.bytes[1] == BRACKET && IsFinal(t.bytes[|t.bytes| - 1])
      && forall i :: 2 <= i < |t.bytes| - 1 ==> !IsFinal(t.bytes[i])
  }

  lemma {:induction false} FinalAtIsFirst(src: seq<byte>, i: nat, f: nat)
    requires i <= f <= |src|
    requires forall j :: i <= j < f ==> !IsFinal(src[j])
    requires f < |src| ==> IsFinal(src[f])
    ensures FinalAt(src, i) == f
    decreases f - i
  {
    if i < f {
      FinalAtIsFirst(src, i + 1, f);
    }
  }

  lemma {:induction false} NoFinalBefore(src: seq<byte>, i: nat)
    requires i <= |src|
    ensures forall j :: i <= j < FinalAt(src, i) ==> !IsFinal(src[j])
    decreases |src| - i
  {
    if i < |src| && !IsFinal(src[i]) {
      NoFinalBefore(src, i + 1);
    }
  }

  lemma FirstIsWellFormed(src: seq<byte>)
    requires StartsWithToken(src)
    ensures WellFormed(FirstToken(src))
    ensures BytesOf(FirstToken(src)) + AfterToken(src) == src
  {
    if StartsSequence(src) {
      NoFinalBefore(src, 2);
    }
  }

  /** What a token is, byte by byte: a control sequence is ESC, a bracket, parameters outside 0x40-0x7E and one final byte
      in that range. The queries among them are the private device-status requests, which ask with `?` and end in `n`,
      and the Kitty keyboard requests, which begin with one of `<`, `=`, `>`, `?` and end in `u`. */
  lemma QueryIff(params: seq<byte>, last: byte)
    requires forall k :: 0 <= k < |params| ==> params[k] < 0x40 || params[k] > 0x7e
    ensures var t := Sequence([0x1b, 0x5b] + params + [last]);
      && (WellFormed(t) <==> 0x40 <= last <= 0x7e)
      && (IsQuery(t) <==>
          (last == 0x6e && [0x3f] <= params) ||
          (last == 0x75 && exists b :: 0x3c <= b <= 0x3f && [b] <= params))
  {
    var bytes := [0x1b, 0x5b] + params + [last];
    assert forall k :: 0 <= k < |params| ==> bytes[k + 2] == params[k];
    assert bytes[|bytes| - 1] == last;
    if params != [] {
      assert bytes[2] == params[0] && [params[0]] <= params;
    }
  }

  /** Reading loses nothing, every control sequence read is one, and the tail holds no complete token. */
  lemma {:induction false} ReadingIsLossless(src: seq<byte>)
    ensures Untokenise(Tokens(src)) + Tail(src) == src
    ensures forall t :: t in Tokens(src) ==> WellFormed(t)
    ensures !StartsWithToken(Tail(src))
    decreases |src|
  {
    hide WellFormed, FirstToken, BytesOf, StartsWithToken, AfterToken;
    if StartsWithToken(src) {
      var first, rest := FirstToken(src), AfterToken(src);
      ShorterAfterToken(src);
      ReadingIsLossless(rest);
      FirstIsWellFormed(src);
      assert ([first] + Tokens(rest))[1..] == Tokens(rest);
      Associative(BytesOf(first), Untokenise(Tokens(rest)), Tail(rest));
    } else {
      assert [] + src == src;
    }
  }

  lemma ShorterAfterToken(src: seq<byte>)
    requires StartsWithToken(src)
    ensures |AfterToken(src)| < |src|
  {
  }

  /** Every byte of the input is let through, dropped in a query, or held back in the tail. */
  lemma BytesAreConserved(src: seq<byte>)
    ensures |src| == |Filtered(src)| + |Untokenise(Dropped(Tokens(src)))| + |Tail(src)|
  {
    ReadingIsLossless(src);
    KeptAndDropped(Tokens(src));
  }

  lemma {:induction false} KeptAndDropped(ts: seq<Token>)
    ensures |Untokenise(ts)| == |Untokenise(Kept(ts))| + |Untokenise(Dropped(ts))|
  {
    if ts != [] {
      KeptAndDropped(ts[1..]);
      var kept, dropped := Kept(ts[1..]), Dropped(ts[1..]);
      assert ([ts[0]] + kept)[1..] == kept && ([ts[0]] + dropped)[1..] == dropped;
      assert [] + kept == kept && [] + dropped == dropped;
    }
  }

  /** Reading a longer stream continues where reading its front stopped. */
  lemma {:induction false} ReadAppend(a: seq<byte>, b: seq<byte>)
    ensures Tokens(a + b) == Tokens(a) + Tokens(Tail(a) + b)
    ensures Tail(a + b) == Tail(Tail(a) + b)
    decreases |a|
  {
    hide FirstToken, StartsWithToken, AfterToken;
    if StartsWithToken(a) {
      ShorterAfterToken(a);
      FirstStaysFirst(a, b);
      ReadAppend(AfterToken(a), b);
    }
  }

  lemma FirstStaysFirst(a: seq<byte>, b: seq<byte>)
    requires StartsWithToken(a)
    ensures StartsWithToken(a + b) && FirstToken(a + b) == FirstToken(a) && AfterToken(a + b) == AfterToken(a) + b
  {
    var ab := a + b;
    assert ab[0] == a[0] && (|a| >= 2 ==> ab[1] == a[1]);
    if StartsSequence(a) {
      var f := FinalAt(a, 2);
      NoFinalBefore(a, 2);
      FinalAtIsFirst(ab, 2, f);
      assert ab[..f + 1] == a[..f + 1];
    }
  }

  lemma {:induction false} KeptAppend(a: seq<Token>, b: seq<Token>)
    ensures Kept(a + b) == Kept(a) + Kept(b)
  {
    if a == [] {
      assert a + b == b;
    } else {
      KeptAppend(a[1..], b);
      assert (a + b)[0] == a[0] && (a + b)[1..] == a[1..] + b;
      Associative(if IsQuery(a[0]) then [] else [a[0]], Kept(a[1..]), Kept(b));
    }
  }

  lemma {:induction false} UntokeniseAppend(a: seq<Token>, b: seq<Token>)
    ensures Untokenise(a + b) == Untokenise(a) + Untokenise(b)
  {
    if a == [] {
      assert a + b == b;
    } else {
      UntokeniseAppend(a[1..], b);
      assert (a + b)[0] == a[0] && (a + b)[1..] == a[1..] + b;
      Associative(BytesOf(a[0]), Untokenise(a[1..]), Untokenise(b));
    }
  }

  lemma FilteredAppend(a: seq<byte>, b: seq<byte>)
    ensures Filtered(a + b) == Filtered(a) + Filtered(Tail(a) + b)
  {
    ReadAppend(a, b);
    KeptAppend(Tokens(a), Tokens(Tail(a) + b));
    UntokeniseAppend(Kept(Tokens(a)), Kept(Tokens(Tail(a) + b)));
  }

  // ---- The filter over a series of reads --------------------------------------------------

  function OutputAll(pending: seq<byte>, chunks: seq<seq<byte>>): seq<byte>
    decreases chunks
  {
    if chunks == [] then []
    else Filtered(pending + chunks[0]) + OutputAll(Tail(pending + chunks[0]), chunks[1..])
  }

  function PendingAfter(pending: seq<byte>, chunks: seq<seq<byte>>): seq<byte>
    decreases chunks
  {
    if chunks == [] then pending else PendingAfter(Tail(pending + chunks[0]), chunks[1..])
  }

  /** The output and what is held back do not depend on how the PTY's bytes are cut into reads. */
  lemma {:induction false} CutsAreIrrelevant(pending: seq<byte>, chunks: seq<seq<byte>>)
    requires !StartsWithToken(pending)
    ensures OutputAll(pending, chunks) == Filtered(pending + Flatten(chunks))
    ensures PendingAfter(pending, chunks) == Tail(pending + Flatten(chunks))
    decreases chunks
  {
    if chunks == [] {
      assert pending + Flatten(chunks) == pending;
    } else {
      var front := pending + chunks[0];
      ReadingIsLossless(front);
      Associative(pending, chunks[0], Flatten(chunks[1..]));
      FilteredAppend(front, Flatten(chunks[1..]));
      ReadAppend(front, Flatten(chunks[1..]));
      CutsAreIrrelevant(Tail(front), chunks[1..]);
    }
  }

  // ---- Is the filter idempotent? ----------------------------------------------------------

  /** Every lone ESC is followed by something other than a bracket. */
  predicate Separated(ts: seq<Token>) {
    ts == [] || ((ts[0] == Text(ESC) ==> |ts| > 1 && ts[1] != Text(BRACKET)) && Separated(ts[1..]))
  }

  lemma SequenceReadsBack(bytes: seq<byte>, rest: seq<byte>)
    requires WellFormed(Sequence(bytes))
    ensures var src := bytes + rest;
            StartsWithToken(src) && FirstToken(src) == Sequence(bytes) && AfterToken(src) == rest
  {
    var src, n := bytes + rest, |bytes| - 1;
    assert forall j :: 0 <= j <= n ==> src[j] == bytes[j];
    FinalAtIsFirst(src, 2, n);
    assert src[..n + 1] == bytes && src[n + 1..] == rest;
  }

  lemma ByteReadsBackIff(b: byte, rest: seq<byte>)
    ensures var src := [b] + rest;
            StartsWithToken(src) && FirstToken(src) == Text(b) <==> b != ESC || (rest != [] && rest[0] != BRACKET)
    ensures var src := [b] + rest;
            StartsWithToken(src) && FirstToken(src) == Text(b) ==> AfterToken(src) == rest
  {
  }

  /** Tokens written out are read back as the same tokens exactly when no lone ESC has come to stand before a bracket
      or at the end. */
  lemma {:induction false} ReadBackIff(ts: seq<Token>)
    requires forall t :: t in ts ==> WellFormed(t)
    ensures Tokens(Untokenise(ts)) == ts && Tail(Untokenise(ts)) == [] <==> Separated(ts)
  {
    if ts != [] {
      hide FirstToken, StartsWithToken, AfterToken;
      var src, rest := Untokenise(ts), Untokenise(ts[1..]);
      assert ts[0] in ts && WellFormed(ts[0]);
      ReadBackIff(ts[1..]);
      assert [ts[0]] + ts[1..] == ts;
      if ts[0].Sequence? {
        SequenceReadsBack(ts[0].bytes, rest);
      } else {
        ByteReadsBackIff(ts[0].b, rest);
        if |ts| > 1 {
          assert ts[1] in ts && WellFormed(ts[1]);
          assert rest == BytesOf(ts[1]) + Untokenise(ts[1..][1..]);
        }
      }
    }
  }

  lemma {:induction false} KeptTwice(ts: seq<Token>)
    ensures Kept(Kept(ts)) == Kept(ts)
    ensures forall t :: t in Kept(ts) ==> t in ts
  {
    if ts != [] {
      KeptTwice(ts[1..]);
      if !IsQuery(ts[0]) {
        assert ([ts[0]] + Kept(ts[1..]))[1..] == Kept(ts[1..]);
      } else {
        assert [] + Kept(ts[1..]) == Kept(ts[1..]);
      }
    }
  }

  /** Then filtering the output again changes nothing and holds nothing back. */
  lemma IdempotentWhenSeparated(src: seq<byte>)
    requires Separated(Kept(Tokens(src)))
    ensures Filtered(Filtered(src)) == Filtered(src) && Tail(Filtered(src)) == []
  {
    ReadingIsLossless(src);
    KeptTwice(Tokens(src));
    ReadBackIff(Kept(Tokens(src)));
  }

  // What happens to a lone ESC that has come to stand before a bracket.

  function Texts(bytes: seq<byte>): seq<Token> {
    if bytes == [] then [] else [Text(bytes[0])] + Texts(bytes[1..])
  }

  predicate AllWellFormed(ts: seq<Token>) {
    forall t :: t in ts ==> WellFormed(t)
  }

  /** A sequence that a lone ESC has opened and no final byte has closed yet. */
  predicate Opening(bytes: seq<byte>) {
    && |bytes| >= 2 && bytes[0] == ESC && bytes[1] == BRACKET
    && forall i :: 2 <= i < |bytes| ==> !IsFinal(bytes[i])
  }

  lemma {:induction false} TextsSpell(bytes: seq<byte>)
    ensures Untokenise(Texts(bytes)) == bytes && AllWellFormed(Texts(bytes))
    ensures forall t :: t in Texts(bytes) ==> !IsQuery(t)
  {
    if bytes != [] {
      TextsSpell(bytes[1..]);
      assert ([Text(bytes[0])] + Texts(bytes[1..]))[1..] == Texts(bytes[1..]);
    }
  }

  lemma SizeOfFirst(ts: seq<Token>)
    requires AllWellFormed(ts) && ts != []
    ensures |Untokenise(ts)| == |BytesOf(ts[0])| + |Untokenise(ts[1..])| && |BytesOf(ts[0])| >= 1
    ensures ts[0].Sequence? ==> |ts[0].bytes| >= 3
    ensures AllWellFormed(ts[1..])
  {
    assert ts[0] in ts && WellFormed(ts[0]);
  }

  lemma SizeOfRest(ts: seq<Token>)
    requires AllWellFormed(ts) && ts != [] && ts[0].Sequence?
    ensures |ts[0].bytes| >= 3
    ensures var rest := Texts(ts[0].bytes[2..]) + ts[1..];
      AllWellFormed(rest) && Untokenise(rest) == ts[0].bytes[2..] + Untokenise(ts[1..])
  {
    SizeOfFirst(ts);
    TextsSpell(ts[0].bytes[2..]);
    UntokeniseAppend(Texts(ts[0].bytes[2..]), ts[1..]);
  }

  /** No lone ESC is last, and every sequence that a lone ESC opens by standing before a bracket, if it does not stand
      inside another one, is closed and no query. The bracket of a following control sequence closes it, and the rest of
      that control sequence becomes text. */
  predicate Closes(ts: seq<Token>, begun: Option<seq<byte>>)
    requires AllWellFormed(ts)
    decreases |Untokenise(ts)|
  {
    if ts == [] then begun.None?
    else
      SizeOfFirst(ts);
      match begun
      case Some(bytes) =>
        (match ts[0]
         case Text(b) =>
           if IsFinal(b) then !IsQuery(Sequence(bytes + [b])) && Closes(ts[1..], None)
           else Closes(ts[1..], Some(bytes + [b]))
         case Sequence(_) =>
           SizeOfRest(ts);
           Closes(Texts(ts[0].bytes[2..]) + ts[1..], None))
      case None =>
        if ts[0] != Text(ESC) then Closes(ts[1..], None)
        else if |ts| == 1 then false
        else if ts[1] != Text(BRACKET) then Closes(ts[1..], None)
        else
          SizeOfFirst(ts[1..]);
          Closes(ts[1..][1..], Some([ESC, BRACKET]))
  }

  /** The filter lets all of `src` through and holds nothing back. */
  predicate Passes(src: seq<byte>) {
    Filtered(src) == src && Tail(src) == []
  }

  lemma PassesIff(src: seq<byte>)
    ensures StartsWithToken(src) ==> (Passes(src) <==> !IsQuery(FirstToken(src)) && Passes(AfterToken(src)))
    ensures !StartsWithToken(src) ==> (Passes(src) <==> src == [])
  {
    hide FirstToken, StartsWithToken, AfterToken, IsQuery, Filtered;
    if StartsWithToken(src) {
      var first, rest := BytesOf(FirstToken(src)), AfterToken(src);
      FirstPasses(src);
      FirstIsWellFormed(src);
      BytesAreConserved(rest);
      ShorterAfterToken(src);
      assert src == first + rest;
      if !IsQuery(FirstToken(src)) {
        SameRest(first, Filtered(rest), rest);
      } else {
        assert [] + Filtered(rest) == Filtered(rest);
      }
    } else {
      NothingPasses();
    }
  }

  lemma SameRest(a: seq<byte>, b: seq<byte>, c: seq<byte>)
    ensures a + b == a + c <==> b == c
  {
    if a + b == a + c {
      assert b == (a + b)[|a|..] == (a + c)[|a|..] == c;
    }
  }

  predicate NoQuery(ts: seq<Token>) {
    forall t :: t in ts ==> !IsQuery(t)
  }

  /** Writing tokens out and filtering them again, behind the beginning of a sequence if there is one. */
  lemma {:induction false} ClosesIff(ts: seq<Token>, begun: Option<seq<byte>>)
    requires AllWellFormed(ts) && NoQuery(ts) && (begun.Some? ==> Opening(begun.value))
    ensures Passes((if begun.Some? then begun.value else []) + Untokenise(ts)) <==> Closes(ts, begun)
    decreases |Untokenise(ts)|, 2
  {
    hide Passes, FirstToken, StartsWithToken, AfterToken, IsQuery;
    var front := if begun.Some? then begun.value else [];
    if ts == [] {
      assert front + Untokenise(ts) == front;
      PassesIff(front);
      OpeningStartsNothing(begun);
      EmptyStartsNothing();
    } else if begun.Some? {
      BegunCloses(ts, begun.value);
    } else {
      assert front + Untokenise(ts) == Untokenise(ts);
      FreshCloses(ts);
    }
  }

  lemma EmptyStartsNothing()
    ensures !StartsWithToken([])
  {
  }

  lemma OpeningStartsNothing(begun: Option<seq<byte>>)
    ensures begun.Some? && Opening(begun.value) ==> !StartsWithToken(begun.value)
  {
    if begun.Some? && Opening(begun.value) {
      FinalAtIsFirst(begun.value, 2, |begun.value|);
    }
  }

  lemma BegunCloses(ts: seq<Token>, bytes: seq<byte>)
    requires AllWellFormed(ts) && NoQuery(ts) && Opening(bytes) && ts != []
    ensures Passes(bytes + Untokenise(ts)) <==> Closes(ts, Some(bytes))
    decreases |Untokenise(ts)|, 1
  {
    hide Passes, IsQuery;
    SizeOfFirst(ts);
    var rest := Untokenise(ts[1..]);
    match ts[0]
    case Text(b) =>
      Associative(bytes, [b], rest);
      if IsFinal(b) {
        SequencePassesIff(bytes + [b], rest);
        ClosesIff(ts[1..], None);
        assert [] + rest == rest;
      } else {
        ClosesIff(ts[1..], Some(bytes + [b]));
      }
    case Sequence(t) => BegunClosesBySequence(ts, bytes);
  }

  lemma BegunClosesBySequence(ts: seq<Token>, bytes: seq<byte>)
    requires AllWellFormed(ts) && NoQuery(ts) && Opening(bytes) && ts != [] && ts[0].Sequence?
    ensures Passes(bytes + Untokenise(ts)) <==> Closes(ts, Some(bytes))
    decreases |Untokenise(ts)|, 0
  {
    hide Passes, IsQuery, Opening, WellFormed;
    SizeOfFirst(ts);
    SizeOfRest(ts);
    var t, rest := ts[0].bytes, Untokenise(ts[1..]);
    var more := Texts(t[2..]) + ts[1..];
    assert ts[0] in ts;
    BracketCloses(bytes, t, rest);
    TextsSpell(t[2..]);
    ClosesIff(more, None);
    assert [] + Untokenise(more) == Untokenise(more);
  }

  lemma SequencePassesIff(bytes: seq<byte>, rest: seq<byte>)
    requires WellFormed(Sequence(bytes))
    ensures Passes(bytes + rest) <==> !IsQuery(Sequence(bytes)) && Passes(rest)
  {
    hide Passes, FirstToken, StartsWithToken, AfterToken, IsQuery, WellFormed;
    SequenceReadsBack(bytes, rest);
    PassesIff(bytes + rest);
  }

  /** A control sequence behind the beginning of another one closes that with its bracket, and its rest is text. */
  lemma BracketCloses(bytes: seq<byte>, t: seq<byte>, rest: seq<byte>)
    requires Opening(bytes) && WellFormed(Sequence(t)) && |t| >= 3
    ensures Passes(bytes + (t + rest)) <==> Passes(t[2..] + rest)
  {
    hide Passes, IsQuery;
    assert t == [ESC, BRACKET] + t[2..];
    Associative(bytes, [ESC, BRACKET], t[2..] + rest);
    Associative([ESC, BRACKET], t[2..], rest);
    SequencePassesIff(bytes + [ESC, BRACKET], t[2..] + rest);
    BracketEndsNoQuery(bytes);
  }

  lemma BracketEndsNoQuery(bytes: seq<byte>)
    ensures !IsQuery(Sequence(bytes + [ESC, BRACKET]))
  {
  }

  lemma TextIsNoQuery(b: byte)
    ensures !IsQuery(Text(b))
  {
  }

  lemma FreshCloses(ts: seq<Token>)
    requires AllWellFormed(ts) && NoQuery(ts) && ts != []
    ensures Passes(Untokenise(ts)) <==> Closes(ts, None)
    decreases |Untokenise(ts)|, 0
  {
    hide Passes, StartsWithToken, IsQuery, WellFormed, Untokenise;
    SizeOfFirst(ts);
    var rest := Untokenise(ts[1..]);
    if ts[0] == Text(ESC) && |ts| > 1 && ts[1] == Text(BRACKET) {
      SizeOfFirst(ts[1..]);
      BracketSpelled(ts);
      ClosesIff(ts[1..][1..], Some([ESC, BRACKET]));
    } else if ts[0] == Text(ESC) && |ts| == 1 {
      assert ts == [Text(ESC)];
      LoneEscFails();
    } else {
      FirstPassesIff(ts);
      ClosesIff(ts[1..], None);
      assert [] + rest == rest;
    }
  }

  /** A token that does not run into the next one passes on its own. */
  lemma FirstPassesIff(ts: seq<Token>)
    requires AllWellFormed(ts) && NoQuery(ts) && ts != []
    requires ts[0] == Text(ESC) ==> |ts| > 1 && ts[1] != Text(BRACKET)
    ensures Passes(Untokenise(ts)) <==> Passes(Untokenise(ts[1..]))
  {
    hide Passes, IsQuery;
    var rest := Untokenise(ts[1..]);
    assert ts[0] in ts;
    if ts[0].Sequence? {
      SequencePassesIff(ts[0].bytes, rest);
    } else {
      if |ts| > 1 {
        assert ts[1] in ts;
        assert rest == BytesOf(ts[1]) + Untokenise(ts[1..][1..]);
      }
      BytePassesIff(ts[0].b, rest);
    }
  }

  lemma BytePassesIff(b: byte, rest: seq<byte>)
    requires b != ESC || (rest != [] && rest[0] != BRACKET)
    ensures Passes([b] + rest) <==> Passes(rest)
  {
    hide Passes, FirstToken, StartsWithToken, AfterToken, IsQuery;
    ByteReadsBackIff(b, rest);
    TextIsNoQuery(b);
    PassesIff([b] + rest);
  }

  lemma BracketSpelled(ts: seq<Token>)
    requires |ts| > 1 && ts[0] == Text(ESC) && ts[1] == Text(BRACKET)
    ensures Untokenise(ts) == [ESC, BRACKET] + Untokenise(ts[1..][1..])
  {
  }

  lemma LoneEscFails()
    ensures !Passes(Untokenise([Text(ESC)]))
  {
    assert Untokenise([Text(ESC)]) == [ESC] by { assert [Text(ESC)][1..] == []; }
    PassesIff([ESC]);
  }

  /** Exactly when filtering the output again changes nothing and holds nothing back. */
  lemma IdempotentIff(src: seq<byte>)
    ensures AllWellFormed(Kept(Tokens(src)))
    ensures Filtered(Filtered(src)) == Filtered(src) && Tail(Filtered(src)) == [] <==> Closes(Kept(Tokens(src)), None)
    ensures Filtered(Filtered(src)) == Filtered(src) ==> Tail(Filtered(src)) == []
  {
    BytesAreConserved(Filtered(src));
    var kept := Kept(Tokens(src));
    ReadingIsLossless(src);
    KeptTwice(Tokens(src));
    KeptAreNoQueries(Tokens(src));
    ClosesIff(kept, None);
    assert [] + Untokenise(kept) == Untokenise(kept);
  }

  lemma {:induction false} KeptAreNoQueries(ts: seq<Token>)
    ensures NoQuery(Kept(ts))
  {
    if ts != [] {
      KeptAreNoQueries(ts[1..]);
    }
  }

  /** It is not idempotent in general: dropping a query can bring a lone ESC in front of what follows, and the output
      of ESC ESC[?5n [?5n is itself a query. */
  lemma NotIdempotent()
    ensures var query: seq<byte> := [ESC, BRACKET, 0x3f, 0x35, 0x6e];
            Filtered([ESC] + query + query[1..]) == query && Filtered(query) == []
  {
    hide Filtered, FirstToken, StartsWithToken, AfterToken;
    var query: seq<byte> := [ESC, BRACKET, 0x3f, 0x35, 0x6e];
    var tail := query[1..];
    SequenceReadsBack(query, []);
    SequenceReadsBack(query, tail);
    assert query + [] == query && query + (tail + []) == query + tail;
    FirstPasses(query);
    FirstPasses(query + tail);
    ByteReadsBackIff(ESC, query + tail);
    assert [ESC] + query + tail == [ESC] + (query + tail);
    FirstPasses([ESC] + (query + tail));
    TextPasses(tail, []);
    assert tail + [] == tail && [ESC] + tail == query;
    NothingPasses();
  }

  lemma NothingPasses()
    ensures Filtered([]) == [] && Tail([]) == []
  {
  }

  lemma BytePasses(b: byte, rest: seq<byte>)
    requires b != ESC
    ensures Filtered([b] + rest) == [b] + Filtered(rest) && Tail([b] + rest) == Tail(rest)
  {
    hide Filtered;
    ByteReadsBackIff(b, rest);
    FirstPasses([b] + rest);
  }

  /** A run without ESC passes unchanged. */
  lemma {:induction false} TextPasses(text: seq<byte>, rest: seq<byte>)
    requires ESC !in text
    ensures Filtered(text + rest) == text + Filtered(rest) && Tail(text + rest) == Tail(rest)
  {
    hide Filtered, Tail;
    if text == [] {
      assert text + rest == rest && text + Filtered(rest) == Filtered(rest);
    } else {
      TextPasses(text[1..], rest);
      assert text == [text[0]] + text[1..];
      Associative([text[0]], text[1..], rest);
      Associative([text[0]], text[1..], Filtered(rest));
      BytePasses(text[0], text[1..] + rest);
    }
  }

  lemma FirstPasses(src: seq<byte>)
    requires StartsWithToken(src)
    ensures Filtered(src) ==
            (if IsQuery(FirstToken(src)) then [] else BytesOf(FirstToken(src))) + Filtered(AfterToken(src))
    ensures Tail(src) == Tail(AfterToken(src))
  {
    hide FirstToken, AfterToken, StartsWithToken, IsQuery;
    var ts, rest := Tokens(src), Tokens(AfterToken(src));
    assert ts[1..] == rest;
    assert ([ts[0]] + Kept(rest))[1..] == Kept(rest) && [] + Kept(rest) == Kept(rest);
  }

  // ---- The loop ---------------------------------------------------------------------------

  /** Python's `source.find(b"\x1b", offset)`. */
  method FindEscape(source: seq<byte>, offset: nat) returns (at: int)
    requires offset <= |source|
    ensures at < 0 ==> ESC !in source[offset..]
    ensures at >= 0 ==> offset <= at < |source| && source[at] == ESC && ESC !in source[offset..at]
  {
    at := offset;
    while at < |source|
      invariant offset <= at <= |source| && ESC !in source[offset..at]
    {
      if source[at] == ESC {
        return;
      }
      at := at + 1;
    }
    at := -1;
  }

  /** The first final byte at or after `start`, or the end. */
  method FindFinal(source: seq<byte>, start: nat) returns (final: nat)
    requires start <= |source|
    ensures start <= final <= |source| && (final < |source| ==> IsFinal(source[final]))
    ensures forall j :: start <= j < final ==> !IsFinal(source[j])
  {
    final := start;
    while final < |source| && !IsFinal(source[final])
      invariant start <= final <= |source|
      invariant forall j :: start <= j < final ==> !IsFinal(source[j])
    {
      final := final + 1;
    }
  }

  class RendererInputFilter {
    var pending: seq<byte>

    constructor ()
      ensures pending == []
    {
      pending := [];
    }

    method Process(data: seq<byte>) returns (output: seq<byte>)
      modifies this
      ensures output == Filtered(old(pending) + data)
      ensures pending == Tail(old(pending) + data)
    {
      hide Filtered, Tail, FirstToken, AfterToken, StartsWithToken, FinalAt, IsFinal;
      var source := pending + data;
      NothingPasses();
      pending := [];
      output := [];
      var offset := 0;
      assert source[|source|..] == [] && source[0..] == source;
      while offset < |source|
        invariant 0 <= offset <= |source| && pending == []
        invariant Filtered(source) == output + Filtered(source[offset..])
        invariant Tail(source) == Tail(source[offset..])
      {
        var escape := FindEscape(source, offset);
        if escape < 0 {
          SkipText(source, offset, |source|);
          output := output + source[offset..];
          break;
        }
        SkipText(source, offset, escape);
        Associative(output, source[offset..escape], Filtered(source[escape..]));
        output := output + source[offset..escape];
        var rest := source[escape..];
        if escape + 1 >= |source| {
          HoldsBack(rest);
          pending := rest;
          break;
        }
        if source[escape + 1] != BRACKET {
          LoneEscAt(source, escape);
          Associative(output, [ESC], Filtered(source[escape + 1..]));
          output := output + [source[escape]];
          offset := escape + 1;
          continue;
        }
        var final := FindFinal(source, escape + 2);
        if final >= |source| {
          HoldsBack(rest);
          pending := rest;
          break;
        }
        var sequence := source[escape..final + 1];
        var params := source[escape + 2..final];
        var privateDsr := source[final] == 0x6e && |params| > 0 && params[0] == 0x3f;
        var kittyKeyboard := source[final] == 0x75 && |params| > 0 && params[0] in {0x3c, 0x3e, 0x3d, 0x3f};
        SequenceAt(source, escape, final);
        Associative(output, sequence, Filtered(source[final + 1..]));
        if !(privateDsr || kittyKeyboard) {
          output := output + sequence;
        }
        offset := final + 1;
      }
    }
  }

  /** A stream that ends inside its first token is held back whole. */
  lemma HoldsBack(src: seq<byte>)
    requires src != [] && src[0] == ESC
    requires |src| >= 2 ==> src[1] == BRACKET && forall j :: 2 <= j < |src| ==> !IsFinal(src[j])
    ensures Filtered(src) == [] && Tail(src) == src
  {
    if |src| >= 2 {
      FinalAtIsFirst(src, 2, |src|);
    }
  }

  lemma LoneEscAt(source: seq<byte>, escape: nat)
    requires escape + 1 < |source| && source[escape] == ESC && source[escape + 1] != BRACKET
    ensures Filtered(source[escape..]) == [ESC] + Filtered(source[escape + 1..])
    ensures Tail(source[escape..]) == Tail(source[escape + 1..])
  {
    hide Filtered, Tail;
    assert source[escape..] == [ESC] + source[escape + 1..];
    ByteReadsBackIff(ESC, source[escape + 1..]);
    FirstPasses(source[escape..]);
  }

  /** What the loop does with the control sequence at `escape` is what the reference does with that token. */
  lemma SequenceAt(source: seq<byte>, escape: nat, final: nat)
    requires escape + 2 <= final < |source| && source[escape] == ESC && source[escape + 1] == BRACKET
    requires IsFinal(source[final]) && forall j :: escape + 2 <= j < final ==> !IsFinal(source[j])
    ensures var params := source[escape + 2..final];
            var query := |params| > 0 &&
              ((source[final] == 0x6e && params[0] == 0x3f) ||
               (source[final] == 0x75 && params[0] in {0x3c, 0x3e, 0x3d, 0x3f}));
            Filtered(source[escape..]) ==
            (if query then [] else source[escape..final + 1]) + Filtered(source[final + 1..])
    ensures Tail(source[escape..]) == Tail(source[final + 1..])
  {
    hide Filtered, Tail, FirstToken, AfterToken, StartsWithToken;
    var sequence, after := source[escape..final + 1], source[final + 1..];
    assert source[escape..] == sequence + after;
    assert WellFormed(Sequence(sequence));
    SequenceReadsBack(sequence, after);
    FirstPasses(sequence + after);
  }

  lemma SkipText(source: seq<byte>, offset: nat, k: nat)
    requires offset <= k <= |source| && ESC !in source[offset..k]
    ensures Filtered(source[offset..]) == source[offset..k] + Filtered(source[k..])
    ensures Tail(source[offset..]) == Tail(source[k..])
  {
    hide Filtered, Tail;
    TextPasses(source[offset..k], source[k..]);
    assert source[offset..] == source[offset..k] + source[k..];
  }
}
