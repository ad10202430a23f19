/** The block the installer keeps in shell configuration files (apps/desktop/cucoudle_desktop/installer.py). */
module RcBlock {
  import opened Options
  import opened Sequences

  const BLOCK_START := "# >>> cucoudle shell integration >>>"
  const BLOCK_END := "# <<< cucoudle shell integration <<<"

  datatype Kind = Posix | Fish

  // ---- Python's string functions ----------------------------------------------------------

  predicate At(s: string, m: string, i: nat) {
    i + |m| <= |s| && s[i..i + |m|] == m
  }

  /** The first place of `m` in `s` from `i` on. */
  function Find(s: string, m: string, i: nat): Option<nat>
    decreases |s| - i
  {
    if At(s, m, i) then Some(i) else if i >= |s| then None else Find(s, m, i + 1)
  }

  predicate Contains(s: string, m: string) {
    Find(s, m, 0).Some?
  }

  datatype Parts = Parts(pre: string, post: string)

  /** `s.split(m, 1)`, when it has two parts. */
  function Split(s: string, m: string): Option<Parts> {
    match Find(s, m, 0)
    case Some(i) => if i + |m| <= |s| then Some(Parts(s[..i], s[i + |m|..])) else None
    case None => None
  }

  function StripRight(s: string): string {
    if s != "" && s[|s| - 1] == '\n' then StripRight(s[..|s| - 1]) else s
  }

  function StripLeft(s: string): string {
    if s != "" && s[0] == '\n' then StripLeft(s[1..]) else s
  }

  predicate EndsLine(s: string) {
    s != "" && s[|s| - 1] == '\n'
  }

  // ---- The functions ----------------------------------------------------------------------

  function Body(binDir: string, kind: Kind): string {
    if kind.Fish? then "set -gx PATH \"" + binDir + "\" $PATH" else "export PATH=\"" + binDir + ":$PATH\""
  }

  /** What follows the start marker in the block. */
  function BlockRest(binDir: string, kind: Kind): string {
    ("\n" + Body(binDir, kind) + "\n") + BLOCK_END + "\n"
  }

  function PathBlock(binDir: string, kind: Kind): string {
    BLOCK_START + BlockRest(binDir, kind)
  }

  /** What precedes a block that is put after `pre`. */
  function Padded(pre: string): string {
    StripRight(pre) + if AllSpace(pre) then "" else "\n\n"
  }

  /** A new block is appended to `x` after this padding. */
  function Opened(x: string): string {
    x + (if EndsLine(x) || x == "" then "" else "\n") + (if x == "" then "" else "\n")
  }

  /** `None` is the `ValueError` of unpacking a split that finds nothing. */
  function WithBlock(x: string, binDir: string, kind: Kind): Option<string> {
    if Contains(x, BLOCK_START) && Contains(x, BLOCK_END) then
      match Split(x, BLOCK_START)
      case Some(outer) =>
        (match Split(outer.post, BLOCK_END)
         case Some(inner) => Some(Padded(outer.pre) + PathBlock(binDir, kind) + StripLeft(inner.post))
         case None => None)
      case None => None
    else Some(Opened(x) + PathBlock(binDir, kind))
  }

  function WithoutBlock(x: string): Option<string> {
    if !Contains(x, BLOCK_START) || !Contains(x, BLOCK_END) then Some(x)
    else
      match Split(x, BLOCK_START)
      case Some(outer) =>
        (match Split(outer.post, BLOCK_END)
         case Some(inner) =>
           Some(StripRight(StripRight(outer.pre) + "\n" + StripLeft(inner.post)) + if EndsLine(x) then "\n" else "")
         case None => None)
      case None => None
  }

  // ---- Finding markers --------------------------------------------------------------------

  /** A text whose first character occurs only once in it, and without a line end. */
  predicate IsMarker(m: string) {
    m != "" && forall k :: 0 <= k < |m| ==> m[k] != '\n' && (k > 0 ==> m[k] != m[0])
  }

  lemma StartIsMarker()
    ensures IsMarker(BLOCK_START)
  {
  }

  lemma EndIsMarker()
    ensures IsMarker(BLOCK_END)
  {
  }

  lemma {:induction false} FindFirst(s: string, m: string, i: nat, k: nat)
    requires i <= k && At(s, m, k) && forall j: nat :: i <= j < k ==> !At(s, m, j)
    ensures Find(s, m, i) == Some(k)
    decreases k - i
  {
    if i < k {
      FindFirst(s, m, i + 1, k);
    }
  }

  lemma {:induction false} FindMeans(s: string, m: string, i: nat)
    ensures Find(s, m, i).Some? ==>
      var k := Find(s, m, i).value;
      i <= k && At(s, m, k) && forall j: nat :: i <= j < k ==> !At(s, m, j)
    ensures Find(s, m, i).None? ==> m != "" ==> forall j: nat :: i <= j ==> !At(s, m, j)
    decreases |s| - i
  {
    if !At(s, m, i) && i < |s| {
      FindMeans(s, m, i + 1);
    }
  }

  lemma ContainsIff(s: string, m: string)
    requires m != ""
    ensures Contains(s, m) <==> exists i: nat :: At(s, m, i)
  {
    FindMeans(s, m, 0);
  }

  lemma SplitMeans(s: string, m: string)
    requires m != "" && Contains(s, m)
    ensures Split(s, m).Some?
    ensures var parts := Split(s, m).value;
      s == parts.pre + m + parts.post && !Contains(parts.pre, m)
  {
    FindMeans(s, m, 0);
    hide Find, At;
    var k := Find(s, m, 0).value;
    MarkerFits(s, m, k);
    NotBefore(s, m, k);
  }

  lemma MarkerFits(s: string, m: string, k: nat)
    requires At(s, m, k)
    ensures k + |m| <= |s| && s == s[..k] + m + s[k + |m|..]
  {
  }

  lemma NotBefore(s: string, m: string, k: nat)
    requires m != "" && k <= |s| && forall j: nat :: j < k ==> !At(s, m, j)
    ensures !Contains(s[..k], m)
  {
    hide Contains;
    ContainsIff(s[..k], m);
    assert s == s[..k] + s[k..];
    forall i: nat ensures !At(s[..k], m, i) {
      AtInFront(s[..k], s[k..], m, i);
    }
  }

  lemma AtInFront(a: string, b: string, m: string, i: nat)
    ensures At(a, m, i) <==> At(a + b, m, i) && i + |m| <= |a|
  {
    if i + |m| <= |a| {
      assert (a + b)[i..i + |m|] == a[i..i + |m|];
    }
  }

  lemma NotAcross(a: string, m: string, b: string, j: nat)
    requires IsMarker(m) && j < |a| < j + |m|
    ensures !At(a + m + b, m, j)
  {
    var s := a + m + b;
    assert s[|a|] == m[0] && m[|a| - j] != m[0];
    assert j + |m| <= |s| ==> s[j..j + |m|][|a| - j] == s[|a|];
  }

  /** A marker after text without it is the first one. */
  lemma SplitAtMarker(a: string, m: string, b: string)
    requires IsMarker(m) && !Contains(a, m)
    ensures Split(a + m + b, m) == Some(Parts(a, b)) && Contains(a + m + b, m)
  {
    hide IsMarker;
    var s := a + m + b;
    ContainsIff(a, m);
    assert s[|a|..|a| + |m|] == m;
    forall j: nat | j < |a| ensures !At(s, m, j) {
      if j + |m| <= |a| {
        AtInFront(a, m + b, m, j);
        Associative(a, m, b);
      } else {
        NotAcross(a, m, b, j);
      }
    }
    FindFirst(s, m, 0, |a|);
    assert s[..|a|] == a && s[|a| + |m|..] == b;
  }

  /** Line ends around a text make no new marker. */
  lemma LineEndsMakeNoMarker(s: string, m: string)
    requires IsMarker(m) && !Contains(s, m)
    ensures !Contains("\n" + s, m) && !Contains(s + "\n", m)
  {
    ContainsIff(s, m);
    ContainsIff("\n" + s, m);
    ContainsIff(s + "\n", m);
    forall i: nat ensures !At("\n" + s, m, i) && !At(s + "\n", m, i) {
      NotAtLineEnds(s, m, i);
    }
  }

  lemma NotAtLineEnds(s: string, m: string, i: nat)
    requires IsMarker(m) && !At(s, m, i) && (i > 0 ==> !At(s, m, i - 1))
    ensures !At("\n" + s, m, i) && !At(s + "\n", m, i)
  {
    AtInFront(s, "\n", m, i);
    assert m[0] != '\n' && m[|m| - 1] != '\n';
    if i + |m| == |s| + 1 {
      assert (s + "\n")[i..i + |m|][|m| - 1] == '\n';
    }
    if i > 0 && i + |m| <= |s| + 1 {
      assert ("\n" + s)[i..i + |m|] == s[i - 1..i - 1 + |m|];
    }
    if i == 0 && |m| <= |s| + 1 {
      assert ("\n" + s)[0..|m|][0] == '\n';
    }
  }

  // ---- Stripping --------------------------------------------------------------------------

  lemma {:induction false} StrippedRight(s: string)
    ensures !EndsLine(StripRight(s)) && StripRight(s) <= s
    ensures AllSpace(StripRight(s)) <==> AllSpace(s)
    ensures !EndsLine(s) ==> StripRight(s) == s
    ensures EndsLine(s) ==> StripRight(s) == StripRight(s[..|s| - 1])
  {
    if EndsLine(s) {
      StrippedRight(s[..|s| - 1]);
      assert s == s[..|s| - 1] + "\n";
    }
  }

  lemma {:induction false} StrippedLeft(s: string)
    ensures StripLeft(StripLeft(s)) == StripLeft(s)
    ensures StripLeft("\n" + s) == StripLeft(s)
  {
    assert ("\n" + s)[1..] == s;
    if s != "" && s[0] == '\n' {
      StrippedLeft(s[1..]);
    }
  }

  lemma StripAddedLine(s: string)
    ensures StripRight(s + "\n") == StripRight(s)
  {
    assert (s + "\n")[..|s|] == s;
  }

  /** Padding changes neither what is padded nor whether it is blank. */
  lemma PaddingIsStable(pre: string)
    ensures StripRight(Padded(pre)) == StripRight(pre) && Padded(Padded(pre)) == Padded(pre)
  {
    var bare := StripRight(pre);
    StrippedRight(pre);
    StrippedRight(bare);
    StrippedRight(Padded(pre));
    if AllSpace(pre) {
      assert bare + "" == bare;
    } else {
      assert bare + "\n\n" == bare + "\n" + "\n";
      StripAddedLine(bare + "\n");
      StripAddedLine(bare);
    }
  }

  lemma OpeningStrips(x: string)
    ensures StripRight(Opened(x)) == StripRight(x) && (AllSpace(Opened(x)) <==> AllSpace(x))
  {
    assert x + "" == x && x + "" + "\n" == x + "\n";
    StripAddedLine(x);
    StripAddedLine(x + "\n");
    StrippedRight(x);
    StrippedRight(Opened(x));
  }

  // ---- The laws ---------------------------------------------------------------------------

  /** Text around a block: no start marker in front of it, and its directory is no end marker. */
  predicate Plain(pre: string, binDir: string, kind: Kind) {
    !Contains(pre, BLOCK_START) && !Contains(Body(binDir, kind), BLOCK_END)
  }

  /** A text with a block in it splits at its markers. */
  lemma BlockSplits(pre: string, binDir: string, kind: Kind, post: string)
    requires Plain(pre, binDir, kind)
    ensures
      var x := pre + PathBlock(binDir, kind) + post;
      var rest := BlockRest(binDir, kind) + post;
      && Contains(x, BLOCK_START) && Contains(x, BLOCK_END)
      && Split(x, BLOCK_START) == Some(Parts(pre, rest))
      && Split(rest, BLOCK_END).Some? && Split(rest, BLOCK_END).value.post == "\n" + post
  {
    hide Split, Contains, Body, IsMarker;
    StartIsMarker();
    EndIsMarker();
    var body, rest := "\n" + Body(binDir, kind) + "\n", BlockRest(binDir, kind) + post;
    assert pre + PathBlock(binDir, kind) + post == pre + BLOCK_START + rest;
    SplitAtMarker(pre, BLOCK_START, rest);
    LineEndsMakeNoMarker(Body(binDir, kind), BLOCK_END);
    LineEndsMakeNoMarker("\n" + Body(binDir, kind), BLOCK_END);
    assert rest == body + BLOCK_END + ("\n" + post);
    SplitAtMarker(body, BLOCK_END, "\n" + post);
    ContainsInPart(pre + BLOCK_START, rest, BLOCK_END);
  }

  lemma ContainsInPart(a: string, b: string, m: string)
    requires m != "" && Contains(b, m)
    ensures Contains(a + b, m)
  {
    ContainsIff(b, m);
    ContainsIff(a + b, m);
    var i: nat :| At(b, m, i);
    assert (a + b)[|a| + i..|a| + i + |m|] == b[i..i + |m|];
    assert At(a + b, m, |a| + i);
  }

  lemma ContainsInFront(a: string, b: string, m: string)
    requires m != "" && Contains(a, m)
    ensures Contains(a + b, m)
  {
    ContainsIff(a, m);
    ContainsIff(a + b, m);
    var i: nat :| At(a, m, i);
    AtInFront(a, b, m, i);
  }

  /** Text that has no marker has none after its line ends are stripped or added. */
  lemma PaddedHasNoStart(pre: string)
    requires !Contains(pre, BLOCK_START)
    ensures !Contains(Padded(pre), BLOCK_START) && !Contains(Opened(pre), BLOCK_START)
  {
    hide Contains, IsMarker, AllSpace;
    StartIsMarker();
    var bare := StripRight(pre);
    StrippedRight(pre);
    assert !Contains(bare, BLOCK_START) by {
      var rest := pre[|bare|..];
      assert pre == bare + rest;
      if Contains(bare, BLOCK_START) {
        ContainsInFront(bare, rest, BLOCK_START);
      }
    }
    LineEndsMakeNoMarker(bare, BLOCK_START);
    LineEndsMakeNoMarker(bare + "\n", BLOCK_START);
    assert bare + "\n\n" == bare + "\n" + "\n" && bare + "" == bare;
    LineEndsMakeNoMarker(pre, BLOCK_START);
    LineEndsMakeNoMarker(pre + "\n", BLOCK_START);
    assert pre + "" == pre && pre + "" + "\n" == pre + "\n";
  }

  /** Replacing a block keeps what is around it, up to the line ends next to it. */
  lemma ReplacedBlock(pre: string, binDir: string, kind: Kind, post: string)
    requires Plain(pre, binDir, kind)
    ensures WithBlock(pre + PathBlock(binDir, kind) + post, binDir, kind)
         == Some(Padded(pre) + PathBlock(binDir, kind) + StripLeft(post))
  {
    hide Contains, Split, Padded, Body, PathBlock, BlockRest, StripLeft;
    BlockSplits(pre, binDir, kind, post);
    StrippedLeft(post);
  }

  lemma RemovedBlock(pre: string, binDir: string, kind: Kind, post: string)
    requires Plain(pre, binDir, kind)
    ensures
      var x := pre + PathBlock(binDir, kind) + post;
      WithoutBlock(x) ==
        Some(StripRight(StripRight(pre) + "\n" + StripLeft(post)) + if EndsLine(x) then "\n" else "")
  {
    hide Contains, Split, Padded, Body, PathBlock, BlockRest, StripLeft, StripRight;
    BlockSplits(pre, binDir, kind, post);
    StrippedLeft(post);
  }

  /** A file with both markers is cut at its first start marker and the first end marker after it; it is an error when
      there is none, for both functions and for no other file. */
  lemma FailsIff(x: string, binDir: string, kind: Kind)
    ensures WithBlock(x, binDir, kind).None? <==> WithoutBlock(x).None?
    ensures WithoutBlock(x).None? <==>
      && Contains(x, BLOCK_END)
      && exists pre, post ::
           x == pre + BLOCK_START + post && !Contains(pre, BLOCK_START) && !Contains(post, BLOCK_END)
  {
    hide Contains, Split, IsMarker, Padded, PathBlock, StripLeft, StripRight;
    StartIsMarker();
    EndIsMarker();
    if Contains(x, BLOCK_START) {
      SplitMeans(x, BLOCK_START);
      var outer := Split(x, BLOCK_START).value;
      if Contains(outer.post, BLOCK_END) {
        SplitMeans(outer.post, BLOCK_END);
      } else {
        NoSplit(outer.post, BLOCK_END);
      }
    }
    forall pre, post | x == pre + BLOCK_START + post && !Contains(pre, BLOCK_START) && !Contains(post, BLOCK_END)
      ensures Split(x, BLOCK_START) == Some(Parts(pre, post)) && Contains(x, BLOCK_START)
    {
      SplitAtMarker(pre, BLOCK_START, post);
    }
  }

  lemma NoSplit(s: string, m: string)
    requires !Contains(s, m)
    ensures Split(s, m).None?
  {
  }

  /** Such a file: its only end marker comes first. */
  lemma EndBeforeStartFails(binDir: string, kind: Kind)
    ensures WithBlock(BLOCK_END + BLOCK_START, binDir, kind).None?
  {
    hide Contains, Split, IsMarker, Body;
    var x := BLOCK_END + BLOCK_START;
    FailsIff(x, binDir, kind);
    StartIsMarker();
    EndIsMarker();
    NeitherHoldsTheOther();
    assert "" + BLOCK_END + BLOCK_START == x;
    SplitAtMarker("", BLOCK_END, BLOCK_START);
    var pre, post := BLOCK_END, "";
    assert x == pre + BLOCK_START + post && !Contains(pre, BLOCK_START) && !Contains(post, BLOCK_END);
  }

  lemma NeitherHoldsTheOther()
    ensures !Contains(BLOCK_END, BLOCK_START) && !Contains("", BLOCK_END) && !Contains(BLOCK_START, BLOCK_END)
  {
    ContainsIff(BLOCK_START, BLOCK_END);
    forall i: nat ensures !At(BLOCK_START, BLOCK_END, i) {
      if i == 0 {
        assert |BLOCK_END| <= |BLOCK_START| ==> BLOCK_START[0..|BLOCK_END|][2] == BLOCK_START[2];
      }
    }
    ContainsIff(BLOCK_END, BLOCK_START);
    ContainsIff("", BLOCK_END);
    assert BLOCK_END[2] != BLOCK_START[2];
    forall i: nat ensures !At(BLOCK_END, BLOCK_START, i) {
      if i == 0 {
        assert |BLOCK_START| <= |BLOCK_END| ==> BLOCK_END[0..|BLOCK_START|][2] == BLOCK_END[2];
      }
    }
  }

  /** Removing an inserted block gives the file back with exactly one line end at its end. */
  lemma RemovingUndoesInserting(x: string, binDir: string, kind: Kind)
    requires Plain(x, binDir, kind)
    ensures WithBlock(x, binDir, kind).Some?
    ensures WithoutBlock(WithBlock(x, binDir, kind).value) == Some(StripRight(x) + "\n")
    ensures StripRight(x) + "\n" == x <==> EndsLine(x) && !EndsLine(x[..|x| - 1])
  {
    hide *;
    OneLineEndIff(x);
    InsertedBlock(x, binDir, kind);
    PaddedHasNoStart(x);
    OpeningStrips(x);
    RemovedBlock(Opened(x), binDir, kind, "");
    EmptyPost(Opened(x) + PathBlock(binDir, kind));
    BlockEndsLine(Opened(x), binDir, kind);
    RemovedText(StripRight(x));
    StrippedRight(x);
  }

  lemma InsertedBlock(x: string, binDir: string, kind: Kind)
    requires Plain(x, binDir, kind)
    ensures WithBlock(x, binDir, kind) == Some(Opened(x) + PathBlock(binDir, kind))
    ensures !Contains(x, BLOCK_START) && Plain(x, binDir, kind)
    ensures !Contains(Opened(x), BLOCK_START) ==> Plain(Opened(x), binDir, kind)
  {
    hide Contains, Body, PathBlock, Opened;
  }

  lemma EmptyPost(y: string)
    ensures y + "" == y
  {
  }

  lemma RemovedText(bare: string)
    ensures !EndsLine(bare) ==> StripRight(bare + "\n" + StripLeft("")) == bare
  {
    assert bare + "\n" + "" == bare + "\n";
    StrippedRight(bare);
    StripAddedLine(bare);
  }

  lemma NothingToStrip()
    ensures StripLeft("") == ""
  {
  }

  lemma OneLineEndIff(x: string)
    ensures StripRight(x) + "\n" == x <==> EndsLine(x) && !EndsLine(x[..|x| - 1])
  {
    hide StripRight, AllSpace;
    if EndsLine(x) {
      FrontAndLineEnd(x);
      OneLineEnd(x[..|x| - 1]);
    } else {
      StrippedRight(x);
      LongerByLineEnd(x);
    }
  }

  lemma FrontAndLineEnd(x: string)
    requires EndsLine(x)
    ensures x[..|x| - 1] + "\n" == x
  {
  }

  lemma LongerByLineEnd(x: string)
    ensures x + "\n" != x
  {
    assert |x + "\n"| == |x| + 1;
  }

  lemma OneLineEnd(front: string)
    ensures StripRight(front + "\n") + "\n" == front + "\n" <==> !EndsLine(front)
  {
    hide StripRight, AllSpace;
    StripAddedLine(front);
    StrippedRight(front);
    SameFront(StripRight(front), front, "\n");
  }

  lemma BlockEndsLine(pre: string, binDir: string, kind: Kind)
    ensures EndsLine(pre + PathBlock(binDir, kind))
  {
  }

  /** Once a file has a block that can be replaced, replacing it again changes nothing. */
  lemma ReplacingTwice(x: string, binDir: string, kind: Kind)
    requires !Contains(Body(binDir, kind), BLOCK_END)
    requires Contains(x, BLOCK_START) && Contains(x, BLOCK_END) && WithBlock(x, binDir, kind).Some?
    ensures WithBlock(WithBlock(x, binDir, kind).value, binDir, kind) == WithBlock(x, binDir, kind)
  {
    SplitMeans(x, BLOCK_START);
    var outer := Split(x, BLOCK_START).value;
    var inner := Split(outer.post, BLOCK_END).value;
    hide Contains, Split, Padded, Body, PathBlock, BlockRest, StripLeft;
    PaddedHasNoStart(outer.pre);
    ReplacedBlock(Padded(outer.pre), binDir, kind, StripLeft(inner.post));
    PaddingIsStable(outer.pre);
    StrippedLeft(inner.post);
  }

  /** Inserting reaches a fixed point after two applications, for every file that can be written at all. */
  lemma InsertingSettles(x: string, binDir: string, kind: Kind)
    requires !Contains(Body(binDir, kind), BLOCK_END) && WithBlock(x, binDir, kind).Some?
    ensures
      var y := WithBlock(x, binDir, kind).value;
      && WithBlock(y, binDir, kind).Some?
      && WithBlock(WithBlock(y, binDir, kind).value, binDir, kind) == WithBlock(y, binDir, kind)
  {
    if Contains(x, BLOCK_START) && Contains(x, BLOCK_END) {
      ReplacingTwice(x, binDir, kind);
    } else {
      AppendedBlockIsReplaceable(x, binDir, kind);
      ReplacingTwice(WithBlock(x, binDir, kind).value, binDir, kind);
    }
  }

  lemma OpenedPad(x: string) returns (pad: string)
    ensures Opened(x) == x + pad
  {
    pad := Opened(x)[|x|..];
  }

  lemma AppendedBlockIsReplaceable(x: string, binDir: string, kind: Kind)
    requires !Contains(Body(binDir, kind), BLOCK_END) && !(Contains(x, BLOCK_START) && Contains(x, BLOCK_END))
    ensures
      var y := WithBlock(x, binDir, kind).value;
      Contains(y, BLOCK_START) && Contains(y, BLOCK_END) && WithBlock(y, binDir, kind).Some?
  {
    var y := Opened(x) + PathBlock(binDir, kind);
    var block := PathBlock(binDir, kind);
    hide Contains, Split, Body, IsMarker, PathBlock, BlockRest, Opened, Padded, StripLeft;
    StartIsMarker();
    EmptyPost(y);
    if Contains(x, BLOCK_START) {
      SplitMeans(x, BLOCK_START);
      var outer := Split(x, BLOCK_START).value;
      var pad := OpenedPad(x);
      var rest := outer.post + pad + block;
      Associative(outer.pre + BLOCK_START, outer.post, pad);
      Associative(outer.pre + BLOCK_START, outer.post + pad, block);
      SplitAtMarker(outer.pre, BLOCK_START, rest);
      NeitherHoldsTheOther();
      BlockHasEnd(binDir, kind);
      ContainsInPart(outer.post + pad, block, BLOCK_END);
      ContainsInPart(Opened(x), block, BLOCK_END);
      SplitMeans(rest, BLOCK_END);
    } else {
      PaddedHasNoStart(x);
      ReplacedBlock(Opened(x), binDir, kind, "");
      BlockSplits(Opened(x), binDir, kind, "");
    }
  }

  lemma BlockHasEnd(binDir: string, kind: Kind)
    requires !Contains(Body(binDir, kind), BLOCK_END)
    ensures Contains(PathBlock(binDir, kind), BLOCK_END)
  {
    hide Contains, Body, Split, PathBlock, BlockRest;
    assert !Contains("", BLOCK_START) by {
      ContainsIff("", BLOCK_START);
    }
    BlockSplits("", binDir, kind, "");
    assert "" + PathBlock(binDir, kind) + "" == PathBlock(binDir, kind);
  }

  /** The first insertion is already the fixed point exactly for an empty file and for a file that shows something and
      does not end in a blank line. */
  lemma InsertingIsIdempotentIff(x: string, binDir: string, kind: Kind)
    requires Plain(x, binDir, kind)
    ensures
      var y := WithBlock(x, binDir, kind).value;
      WithBlock(y, binDir, kind) == Some(y) <==>
        x == "" || (!AllSpace(x) && !(EndsLine(x) && EndsLine(x[..|x| - 1])))
  {
    var y := Opened(x) + PathBlock(binDir, kind);
    InsertedBlock(x, binDir, kind);
    hide Contains, Split, Body, PathBlock, BlockRest, WithBlock;
    assert y + "" == y;
    PaddedHasNoStart(x);
    ReplacedBlock(Opened(x), binDir, kind, "");
    assert Padded(Opened(x)) + PathBlock(binDir, kind) + "" == Padded(Opened(x)) + PathBlock(binDir, kind);
    SameFront(Padded(Opened(x)), Opened(x), PathBlock(binDir, kind));
    PaddedIsOpenedIff(x);
  }

  lemma SameFront(a: string, b: string, c: string)
    ensures a + c == b + c <==> a == b
  {
    if a + c == b + c {
      assert |a| == |b|;
      assert a == (a + c)[..|a|] == (b + c)[..|a|] == b;
    }
  }

  lemma PaddedIsOpenedIff(x: string)
    ensures Padded(Opened(x)) == Opened(x) <==>
      x == "" || (!AllSpace(x) && !(EndsLine(x) && EndsLine(x[..|x| - 1])))
  {
    hide StripRight;
    OpeningStrips(x);
    StrippedRight(x);
    var bare := StripRight(x);
    assert bare + "" == bare && bare + "\n\n" == bare + "\n" + "\n";
    if x == "" {
      assert Opened(x) == "";
      StrippedRight("");
    } else if EndsLine(x) {
      var front := x[..|x| - 1];
      assert x == front + "\n" && Opened(x) == front + "\n\n" by {
        assert x + "" + "\n" == front + "\n\n";
      }
      StrippedRight(front);
      SameFront(bare, front, "\n\n");
    } else {
      assert Opened(x) == x + "\n\n";
    }
  }

  lemma {:induction false} StripLeftKeepsEnd(s: string)
    ensures StripLeft(s) != "" ==> (EndsLine(StripLeft(s)) <==> EndsLine(s))
    ensures StripLeft(s) == "" && s != "" ==> EndsLine(s)
  {
    if s != "" && s[0] == '\n' {
      StripLeftKeepsEnd(s[1..]);
    }
  }

  /** Replacing a block does not change what removing it leaves, unless the file ends right at its end marker. */
  lemma RemovingAfterReplacingIff(x: string, binDir: string, kind: Kind, pre: string, within: string, post: string)
    requires Plain(pre, binDir, kind) && !Contains(within, BLOCK_END)
    requires x == pre + BLOCK_START + within + BLOCK_END + post
    ensures WithBlock(x, binDir, kind).Some?
    ensures WithoutBlock(WithBlock(x, binDir, kind).value) == WithoutBlock(x) <==> post != ""
  {
    hide Contains, Split, Body, BlockRest, IsMarker, AllSpace, StripRight, StripLeft;
    StartIsMarker();
    EndIsMarker();
    var rest := within + BLOCK_END + post;
    assert x == pre + BLOCK_START + rest;
    SplitAtMarker(pre, BLOCK_START, rest);
    SplitAtMarker(within, BLOCK_END, post);
    ContainsInPart(pre + BLOCK_START, rest, BLOCK_END);
    var block, left := PathBlock(binDir, kind), StripLeft(post);
    var y := Padded(pre) + block + left;
    assert WithBlock(x, binDir, kind) == Some(y);
    PaddedHasNoStart(pre);
    RemovedBlock(Padded(pre), binDir, kind, left);
    PaddingIsStable(pre);
    StrippedLeft(post);
    StripLeftKeepsEnd(post);
    NothingToStrip();
    BlockEndsLine(Padded(pre), binDir, kind);
    EndsOfBoth(x, pre + BLOCK_START + within, post, Padded(pre) + block, left);
    var core := StripRight(StripRight(pre) + "\n" + left);
    assert WithoutBlock(x) == Some(core + if EndsLine(x) then "\n" else "");
    assert WithoutBlock(y) == Some(core + if EndsLine(y) then "\n" else "");
    SameBack(core, if EndsLine(y) then "\n" else "", if EndsLine(x) then "\n" else "");
  }

  lemma EndsOfBoth(x: string, front: string, post: string, block: string, left: string)
    requires x == front + BLOCK_END + post && EndsLine(block)
    ensures EndsLine(x) <==> EndsLine(post)
    ensures EndsLine(block + left) <==> left == "" || EndsLine(left)
  {
    EndIsMarker();
    assert block + "" == block;
    if post == "" {
      assert x[|x| - 1] == BLOCK_END[|BLOCK_END| - 1];
    }
  }

  lemma SameBack(a: string, b: string, c: string)
    ensures a + b == a + c <==> b == c
  {
    if a + b == a + c {
      assert b == (a + b)[|a|..] == (a + c)[|a|..] == c;
    }
  }

  lemma JoinedByLineEnd(a: string, b: string, m: string)
    requires IsMarker(m) && !Contains(a, m) && !Contains(b, m)
    ensures !Contains(a + "\n" + b, m)
  {
    ContainsIff(a, m);
    ContainsIff(b, m);
    var s := a + "\n" + b;
    ContainsIff(s, m);
    forall i: nat ensures !At(s, m, i) {
      if i + |m| <= |a| {
        AtInFront(a, "\n" + b, m, i);
        Associative(a, "\n", b);
      } else if i <= |a| {
        assert i + |m| <= |s| ==> s[i..i + |m|][|a| - i] == '\n';
      } else {
        assert i + |m| <= |s| ==> s[i..i + |m|] == b[i - |a| - 1..i - |a| - 1 + |m|];
        assert !At(b, m, i - |a| - 1);
      }
    }
  }

  lemma {:induction false} StrippingKeepsStart(x: string)
    requires Contains(x, BLOCK_START)
    ensures Contains(StripRight(x), BLOCK_START)
    decreases |x|
  {
    hide Contains, IsMarker;
    if EndsLine(x) {
      var front := x[..|x| - 1];
      assert x == front + "\n";
      StartIsMarker();
      if !Contains(front, BLOCK_START) {
        LineEndsMakeNoMarker(front, BLOCK_START);
      }
      StrippingKeepsStart(front);
    }
  }

  /** Text with a start marker and no end marker: the first insertion appends a block, and the second replaces
      everything from the stray marker on by a block. */
  lemma StrayStartLosesText(x: string, binDir: string, kind: Kind) returns (pre: string)
    requires !Contains(Body(binDir, kind), BLOCK_END) && Contains(x, BLOCK_START) && !Contains(x, BLOCK_END)
    ensures pre + BLOCK_START <= x && !Contains(pre, BLOCK_START)
    ensures
      var y := WithBlock(x, binDir, kind);
      y.Some? && WithBlock(y.value, binDir, kind) == Some(Padded(pre) + PathBlock(binDir, kind))
  {
    hide Contains, Split, Body, IsMarker, Padded;
    StartIsMarker();
    EndIsMarker();
    SplitMeans(x, BLOCK_START);
    var post := Split(x, BLOCK_START).value.post;
    pre := Split(x, BLOCK_START).value.pre;
    var tail := OpenedTail(x, pre + BLOCK_START, post);
    var between := tail + "\n" + BLOCK_START + ("\n" + Body(binDir, kind) + "\n");
    var rest := between + BLOCK_END + "\n";
    var y := Opened(x) + PathBlock(binDir, kind);
    Regroup(pre, BLOCK_START, tail, "\n", "\n" + Body(binDir, kind) + "\n", BLOCK_END);
    assert y == pre + BLOCK_START + rest;
    SplitAtMarker(pre, BLOCK_START, rest);
    NoEndBetween(tail, binDir, kind);
    SplitAtMarker(between, BLOCK_END, "\n");
    ContainsInPart(pre + BLOCK_START, rest, BLOCK_END);
    NothingToStrip();
    StrippedLeft("");
    assert "\n" + "" == "\n";
    EmptyPost(Padded(pre) + PathBlock(binDir, kind));
  }

  /** What stands between the stray marker and the block, up to its last line end. */
  lemma OpenedTail(x: string, front: string, post: string) returns (tail: string)
    requires x == front + post && front != "" && !Contains(x, BLOCK_END)
    ensures Opened(x) == front + tail + "\n" && !Contains(tail, BLOCK_END)
  {
    hide Contains, IsMarker;
    EndIsMarker();
    if Contains(post, BLOCK_END) {
      ContainsInPart(front, post, BLOCK_END);
    }
    LineEndsMakeNoMarker(post, BLOCK_END);
    tail := if EndsLine(x) then post else post + "\n";
    assert x + "" == x && x + "\n" == front + (post + "\n");
  }

  /** A second insertion keeps the text, up to the line ends at its end, exactly when it has no start marker of its own.
      This is about every text without a whole block. */
  lemma SecondInsertionKeepsTextIff(x: string, binDir: string, kind: Kind)
    requires !Contains(Body(binDir, kind), BLOCK_END) && !(Contains(x, BLOCK_START) && Contains(x, BLOCK_END))
    ensures WithBlock(x, binDir, kind).Some?
    ensures
      var y := WithBlock(x, binDir, kind).value;
      WithBlock(y, binDir, kind) == Some(Padded(Opened(x)) + PathBlock(binDir, kind)) <==> !Contains(x, BLOCK_START)
  {
    hide Contains, Split, Body, PathBlock, BlockRest, Padded, Opened, StripRight;
    if Contains(x, BLOCK_START) {
      var pre := StrayStartLosesText(x, binDir, kind);
      PaddedHasNoStart(pre);
      StrippingKeepsStart(x);
      OpeningStrips(x);
      PaddingKeepsStart(Opened(x));
      SameFront(Padded(pre), Padded(Opened(x)), PathBlock(binDir, kind));
    } else {
      PaddedHasNoStart(x);
      ReplacedBlock(Opened(x), binDir, kind, "");
      EmptyPost(Opened(x) + PathBlock(binDir, kind));
      NothingToStrip();
      EmptyPost(Padded(Opened(x)) + PathBlock(binDir, kind));
    }
  }

  lemma PaddingKeepsStart(x: string)
    requires Contains(StripRight(x), BLOCK_START)
    ensures Contains(Padded(x), BLOCK_START)
  {
    hide Contains;
    ContainsInFront(StripRight(x), if AllSpace(x) then "" else "\n\n", BLOCK_START);
  }

  lemma NoEndBetween(tail: string, binDir: string, kind: Kind)
    requires !Contains(tail, BLOCK_END) && !Contains(Body(binDir, kind), BLOCK_END)
    ensures !Contains(tail + "\n" + BLOCK_START + ("\n" + Body(binDir, kind) + "\n"), BLOCK_END)
  {
    hide *;
    EndIsMarker();
    NeitherHoldsTheOther();
    var body, front := Body(binDir, kind), tail + "\n" + BLOCK_START;
    JoinedByLineEnd(tail, BLOCK_START, BLOCK_END);
    JoinedByLineEnd(front, body, BLOCK_END);
    LineEndsMakeNoMarker(front + "\n" + body, BLOCK_END);
    Associative(front, "\n", body);
    Associative(front, "\n" + body, "\n");
  }

  lemma Regroup(p: string, s: string, t: string, n: string, i: string, e: string)
    ensures (p + s + t + n) + (s + (i + e + n)) == p + s + ((t + n + s + i) + e + n)
  {
    Associative(p + s, t, n);
    Associative(p + s, t + n, s + (i + e + n));
    Associative(t + n, s, i + e + n);
    Associative(t + n + s, i + e, n);
    Associative(t + n + s, i, e);
  }

  lemma {:induction false} StrippingShortens(s: string)
    ensures |StripRight(s)| <= |s| && |StripLeft(s)| <= |s|
  {
    if s != "" {
      StrippingShortens(s[..|s| - 1]);
      StrippingShortens(s[1..]);
    }
  }

  /** Removing leaves a text as it is exactly when it does not have both markers. */
  lemma RemovingChangesNothingIff(x: string)
    ensures WithoutBlock(x) == Some(x) <==> !Contains(x, BLOCK_START) || !Contains(x, BLOCK_END)
  {
    hide Contains, Split, StripRight, StripLeft;
    if Contains(x, BLOCK_START) && Contains(x, BLOCK_END) {
      SplitMeans(x, BLOCK_START);
      var outer := Split(x, BLOCK_START).value;
      if Contains(outer.post, BLOCK_END) {
        SplitMeans(outer.post, BLOCK_END);
        var inner := Split(outer.post, BLOCK_END).value;
        StrippingShortens(outer.pre);
        StrippingShortens(inner.post);
        StrippingShortens(StripRight(outer.pre) + "\n" + StripLeft(inner.post));
      } else {
        NoSplit(outer.post, BLOCK_END);
      }
    }
  }

  // ---- What the block does in a shell -----------------------------------------------------

  /** The search path as a shell keeps it: one text in the POSIX shells, a list in fish. */
  datatype SearchPath = Text(text: string) | Items(items: seq<string>)

  function SplitColons(text: string): (items: seq<string>)
    ensures items != []
  {
    if text == "" then [""]
    else
      var rest := SplitColons(text[1..]);
      if text[0] == ':' then [""] + rest else [[text[0]] + rest[0]] + rest[1..]
  }

  function JoinColons(items: seq<string>): string {
    if items == [] then "" else if |items| == 1 then items[0] else items[0] + ":" + JoinColons(items[1..])
  }

  /** The directories that are searched, in order. */
  function Entries(path: SearchPath): seq<string> {
    if path.Text? then SplitColons(path.text) else path.items
  }

  /** Reads a double-quoted text up to its closing quote: its value, and what follows the quote. Of the expansions only
      that of `$PATH` is known. */
  function Unquoted(s: string, path: string): Option<Parts> {
    if s == "" then None
    else if s[0] == '"' then Some(Parts("", s[1..]))
    else if s[0] == '$' then
      (if !("$PATH\"" <= s) then None else Some(Parts(path, s[6..])))
    else if s[0] in "`\\" then None
    else
      match Unquoted(s[1..], path)
      case Some(read) => Some(Parts([s[0]] + read.pre, read.post))
      case None => None
  }

  /** One line: a comment, or an assignment of the search path in the language of the shell. */
  function Obeyed(line: string, path: SearchPath): Option<SearchPath> {
    if line == "" || line[0] == '#' then Some(path)
    else
      var lead := if path.Text? then "export PATH=\"" else "set -gx PATH \"";
      if !(lead <= line) then None
      else
        match Unquoted(line[|lead|..], if path.Text? then path.text else JoinColons(path.items))
        case Some(read) =>
          if path.Text? && read.post == "" then Some(Text(read.pre))
          else if path.Items? && read.post == " $PATH" then Some(Items([read.pre] + path.items))
          else None
        case None => None
  }

  /** The lines of a text, one after the other. */
  function Sourced(text: string, path: SearchPath): Option<SearchPath>
    decreases |text|
  {
    if text == "" then Some(path)
    else
      match Find(text, "\n", 0)
      case Some(end) =>
        if end >= |text| then None
        else
          (match Obeyed(text[..end], path)
           case Some(next) => Sourced(text[end + 1..], next)
           case None => None)
      case None => Obeyed(text, path)
  }

  /** A directory that double quotes and lines leave as it is. */
  predicate Quotable(binDir: string) {
    forall k :: 0 <= k < |binDir| ==> binDir[k] !in "\"$`\\\n"
  }

  lemma {:induction false} UnquotedPlain(binDir: string, rest: string, path: string)
    requires Quotable(binDir)
    ensures Unquoted(binDir + rest, path) ==
      match Unquoted(rest, path)
      case Some(read) => Some(Parts(binDir + read.pre, read.post))
      case None => None
  {
    if binDir == "" {
      assert binDir + rest == rest;
      match Unquoted(rest, path)
      case Some(read) => assert binDir + read.pre == read.pre;
      case None =>
    } else {
      assert (binDir + rest)[0] == binDir[0] && (binDir + rest)[1..] == binDir[1..] + rest;
      UnquotedPlain(binDir[1..], rest, path);
      match Unquoted(rest, path)
      case Some(read) => assert [binDir[0]] + (binDir[1..] + read.pre) == binDir + read.pre;
      case None =>
    }
  }

  lemma {:induction false} SplitColonsAppend(a: string, b: string)
    ensures SplitColons(a + ":" + b) == SplitColons(a) + SplitColons(b)
  {
    var s := a + ":" + b;
    if a == "" {
      assert s[0] == ':' && s[1..] == b;
    } else {
      assert s[0] == a[0] && s[1..] == a[1..] + ":" + b;
      SplitColonsAppend(a[1..], b);
    }
  }

  /** What one directory adds to the search path. */
  function Added(binDir: string, kind: Kind): seq<string> {
    if kind.Posix? then SplitColons(binDir) else [binDir]
  }

  predicate Speaks(path: SearchPath, kind: Kind) {
    path.Text? <==> kind.Posix?
  }

  lemma BodyIsObeyed(binDir: string, kind: Kind, path: SearchPath)
    requires Quotable(binDir) && Speaks(path, kind)
    ensures
      var after := Obeyed(Body(binDir, kind), path);
      && after.Some? && Speaks(after.value, kind)
      && Entries(after.value) == Added(binDir, kind) + Entries(path)
  {
    if kind.Posix? {
      var lead, tail := "export PATH=\"", ":$PATH\"";
      assert Body(binDir, kind) == lead + (binDir + tail);
      UnquotedPlain(binDir, tail, path.text);
      UnquotedTail(path.text);
      SplitColonsAppend(binDir, path.text);
      assert binDir + (":" + path.text) == binDir + ":" + path.text;
    } else {
      var lead, tail := "set -gx PATH \"", "\" $PATH";
      assert Body(binDir, kind) == lead + (binDir + tail);
      UnquotedPlain(binDir, tail, JoinColons(path.items));
      assert binDir + "" == binDir && tail[1..] == " $PATH";
    }
  }

  lemma UnquotedTail(path: string)
    ensures Unquoted(":$PATH\"", path) == Some(Parts(":" + path, ""))
  {
    var s := ":$PATH\"";
    assert s[1..] == "$PATH\"" && "$PATH\""[6..] == "";
  }

  lemma FirstLine(line: string, rest: string, path: SearchPath)
    requires forall k :: 0 <= k < |line| ==> line[k] != '\n'
    ensures Sourced(line + "\n" + rest, path) ==
      match Obeyed(line, path)
      case Some(next) => Sourced(rest, next)
      case None => None
  {
    var text := line + "\n" + rest;
    assert text[|line|..|line| + 1] == "\n";
    forall j: nat | j < |line| ensures !At(text, "\n", j) {
      assert text[j..j + 1][0] == line[j];
    }
    FindFirst(text, "\n", 0, |line|);
    assert text[..|line|] == line && text[|line| + 1..] == rest;
  }

  /** Sourcing the block puts the directory in front of the search path and leaves the rest of it as it was. A colon
      in the directory makes it two for a POSIX shell. */
  lemma BlockPutsDirFirst(binDir: string, kind: Kind, path: SearchPath)
    requires Quotable(binDir) && Speaks(path, kind)
    ensures
      var after := Sourced(PathBlock(binDir, kind), path);
      && after.Some? && Speaks(after.value, kind)
      && Entries(after.value) == Added(binDir, kind) + Entries(path)
  {
    hide *;
    var body := Body(binDir, kind);
    BodyIsOneLine(binDir, kind);
    MarkersAreLines();
    Comments(path);
    BodyIsObeyed(binDir, kind, path);
    var after := Obeyed(body, path).value;
    Comments(after);
    BlockLines(binDir, kind);
    FirstLine(BLOCK_START, body + "\n" + (BLOCK_END + "\n" + ""), path);
    FirstLine(body, BLOCK_END + "\n" + "", path);
    FirstLine(BLOCK_END, "", after);
  }

  lemma BlockLines(binDir: string, kind: Kind)
    ensures PathBlock(binDir, kind) ==
            BLOCK_START + "\n" + (Body(binDir, kind) + "\n" + (BLOCK_END + "\n" + ""))
  {
    hide Body;
    ThreeLines(BLOCK_START, Body(binDir, kind), BLOCK_END, "\n");
  }

  lemma ThreeLines(a: string, b: string, c: string, end: string)
    ensures a + ((end + b + end) + c + end) == a + end + (b + end + (c + end + ""))
  {
  }

  lemma MarkersAreLines()
    ensures forall k :: 0 <= k < |BLOCK_START| ==> BLOCK_START[k] != '\n'
    ensures forall k :: 0 <= k < |BLOCK_END| ==> BLOCK_END[k] != '\n'
  {
    StartIsMarker();
    EndIsMarker();
  }

  lemma BodyIsOneLine(binDir: string, kind: Kind)
    requires Quotable(binDir)
    ensures forall k :: 0 <= k < |Body(binDir, kind)| ==> Body(binDir, kind)[k] != '\n'
  {
  }

  lemma Comments(path: SearchPath)
    ensures Obeyed(BLOCK_START, path) == Some(path) && Obeyed(BLOCK_END, path) == Some(path)
    ensures Sourced("", path) == Some(path)
  {
  }

  /** The first entry that has a program. */
  function Lookup(entries: seq<string>, having: set<string>): Option<string> {
    if entries == [] then None else if entries[0] in having then Some(entries[0]) else Lookup(entries[1..], having)
  }

  lemma {:induction false} LookupAppend(a: seq<string>, b: seq<string>, having: set<string>)
    ensures Lookup(a + b, having) == if Lookup(a, having).Some? then Lookup(a, having) else Lookup(b, having)
  {
    if a == [] {
      assert a + b == b;
    } else {
      assert (a + b)[1..] == a[1..] + b;
      LookupAppend(a[1..], b, having);
    }
  }

  /** A shell that reads the block from two files finds every program where reading it once finds it: in the directory
      if that has it, and otherwise where it was found before. */
  lemma BlockTwiceIsHarmless(binDir: string, kind: Kind, path: SearchPath, having: set<string>)
    requires Quotable(binDir) && Speaks(path, kind)
    ensures
      var once := Sourced(PathBlock(binDir, kind), path);
      var twice := if once.Some? then Sourced(PathBlock(binDir, kind), once.value) else None;
      && once.Some? && twice.Some?
      && Lookup(Entries(twice.value), having) == Lookup(Entries(once.value), having)
      && (Lookup(Added(binDir, kind), having).None? ==>
            Lookup(Entries(once.value), having) == Lookup(Entries(path), having))
      && (binDir in having && Added(binDir, kind) == [binDir] ==> Lookup(Entries(once.value), having) == Some(binDir))
  {
    hide Sourced, Entries, Added;
    BlockPutsDirFirst(binDir, kind, path);
    var once := Sourced(PathBlock(binDir, kind), path).value;
    BlockPutsDirFirst(binDir, kind, once);
    var added := Added(binDir, kind);
    LookupAppend(added, Entries(path), having);
    LookupAppend(added, Entries(once), having);
  }
}
