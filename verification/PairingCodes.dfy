/** Single-use pairing codes (apps/relay/src/state.ts, `createPairing` and `consumePairing`).

    The promise is stated over the history of calls alone; random draws and the clock are inputs. */
module PairingCodes {

  datatype Pairing = Pairing(desktopId: string, expiresAt: int)

  datatype Verdict = Paired | NotFound | Expired

  datatype Call =
    | Created(desktopId: string, code: string, expiresAt: int)
    | Tried(desktopId: string, code: string, now: int)

  // ---- The table --------------------------------------------------------------------------

  function WithoutDesktop(t: map<string, Pairing>, desktopId: string): map<string, Pairing> {
    map c | c in t && t[c].desktopId != desktopId :: t[c]
  }

  function AfterCreate(t: map<string, Pairing>, desktopId: string, code: string, expiresAt: int): map<string, Pairing> {
    WithoutDesktop(t, desktopId)[code := Pairing(desktopId, expiresAt)]
  }

  function Judge(t: map<string, Pairing>, desktopId: string, code: string, now: int): Verdict {
    if code !in t || t[code].desktopId != desktopId then NotFound
    else if now > t[code].expiresAt then Expired
    else Paired
  }

  function AfterTry(t: map<string, Pairing>, desktopId: string, code: string, now: int): map<string, Pairing> {
    if Judge(t, desktopId, code, now).NotFound? then t else t - {code}
  }

  function AfterCall(t: map<string, Pairing>, call: Call): map<string, Pairing> {
    match call
    case Created(d, c, e) => AfterCreate(t, d, c, e)
    case Tried(d, c, now) => AfterTry(t, d, c, now)
  }

  function Table(history: seq<Call>): map<string, Pairing> {
    if history == [] then map[]
    else AfterCall(Table(history[..|history| - 1]), history[|history| - 1])
  }

  /** Every code was drawn until it was unused. */
  predicate Drawn(history: seq<Call>) {
    forall i :: 0 <= i < |history| && history[i].Created? ==>
      history[i].code !in WithoutDesktop(Table(history[..i]), history[i].desktopId)
  }

  // ---- The promise, over the history of calls ---------------------------------------------

  /** The code created at `j` is untouched: its desktop has created no other since and nobody has tried it. */
  predicate Untouched(history: seq<Call>, j: nat)
    requires j < |history| && history[j].Created?
  {
    forall k :: j < k < |history| ==>
      && !(history[k].Created? && history[k].desktopId == history[j].desktopId)
      && !(history[k].Tried? && history[k].desktopId == history[j].desktopId && history[k].code == history[j].code)
  }

  ghost predicate Holds(history: seq<Call>, desktopId: string, code: string, expiresAt: int) {
    exists j: nat :: j < |history| && history[j] == Created(desktopId, code, expiresAt) && Untouched(history, j)
  }

  /** The table holds exactly the untouched codes. */
  lemma {:induction false} TableHoldsUntouchedCodes(history: seq<Call>, d: string, c: string, e: int)
    requires Drawn(history)
    ensures c in Table(history) && Table(history)[c] == Pairing(d, e) <==> Holds(history, d, c, e)
  {
    if history != [] {
      var n := |history| - 1;
      var front, last := history[..n], history[n];
      DrawnPrefix(history, n);
      TableHoldsUntouchedCodes(front, d, c, e);
      HoldsAfter(history, d, c, e);
      assert last.Created? ==> last.code !in WithoutDesktop(Table(front), last.desktopId);
    }
  }

  lemma DrawnPrefix(history: seq<Call>, n: nat)
    requires Drawn(history) && n <= |history|
    ensures Drawn(history[..n])
  {
    forall i | 0 <= i < n && history[i].Created?
      ensures history[i].code !in WithoutDesktop(Table(history[..n][..i]), history[i].desktopId)
    {
      assert history[..n][..i] == history[..i];
    }
  }

  /** How the last call changes what the history holds. */
  lemma HoldsAfter(history: seq<Call>, d: string, c: string, e: int)
    requires history != []
    ensures var n := |history| - 1;
            var last := history[n];
            Holds(history, d, c, e) <==>
            last == Created(d, c, e) ||
            (Holds(history[..n], d, c, e) && !(last.Created? && last.desktopId == d) &&
             !(last.Tried? && last.desktopId == d && last.code == c))
  {
    var n := |history| - 1;
    var front, last := history[..n], history[n];
    if last == Created(d, c, e) {
      assert Untouched(history, n);
    }
    if Holds(history, d, c, e) && last != Created(d, c, e) {
      var j: nat :| j < |history| && history[j] == Created(d, c, e) && Untouched(history, j);
      assert front[j] == history[j] && Untouched(front, j);
    }
    if Holds(front, d, c, e) && !(last.Created? && last.desktopId == d)
       && !(last.Tried? && last.desktopId == d && last.code == c) {
      var j: nat :| j < |front| && front[j] == Created(d, c, e) && Untouched(front, j);
      assert forall k :: j < k < n ==> front[k] == history[k];
      assert history[j] == Created(d, c, e) && Untouched(history, j);
    }
  }

  /** A code pairs exactly when it was created for that desktop, is not superseded by a newer one, has not been tried
      before and has not expired; it is reported as expired exactly when only the last is not so. */
  lemma PairsIff(history: seq<Call>, d: string, c: string, now: int)
    requires Drawn(history)
    ensures Judge(Table(history), d, c, now) == Paired <==>
            exists e :: now <= e && Holds(history, d, c, e)
    ensures Judge(Table(history), d, c, now) == Expired <==>
            exists e :: e < now && Holds(history, d, c, e)
  {
    if c in Table(history) {
      var p := Table(history)[c];
      TableHoldsUntouchedCodes(history, p.desktopId, c, p.expiresAt);
    }
    forall e | Holds(history, d, c, e) ensures c in Table(history) && Table(history)[c] == Pairing(d, e) {
      TableHoldsUntouchedCodes(history, d, c, e);
    }
  }

  /** At most one code per desktop is stored. */
  lemma OneCodePerDesktop(history: seq<Call>, c1: string, c2: string)
    requires Drawn(history) && c1 in Table(history) && c2 in Table(history)
    requires Table(history)[c1].desktopId == Table(history)[c2].desktopId
    ensures c1 == c2
  {
    var p1, p2 := Table(history)[c1], Table(history)[c2];
    TableHoldsUntouchedCodes(history, p1.desktopId, c1, p1.expiresAt);
    TableHoldsUntouchedCodes(history, p2.desktopId, c2, p2.expiresAt);
    var i: nat :| i < |history| && history[i] == Created(p1.desktopId, c1, p1.expiresAt) && Untouched(history, i);
    var j: nat :| j < |history| && history[j] == Created(p2.desktopId, c2, p2.expiresAt) && Untouched(history, j);
  }

  predicate Pairs(history: seq<Call>, i: nat)
    requires i < |history|
  {
    history[i].Tried? && Judge(Table(history[..i]), history[i].desktopId, history[i].code, history[i].now) == Paired
  }

  /** A code pairs at most once per creation: between two successful tries it has been created anew. */
  lemma PairsOncePerCreation(history: seq<Call>, i: nat, k: nat) returns (m: nat)
    requires Drawn(history) && i < k < |history| && Pairs(history, i) && Pairs(history, k)
    requires history[i].code == history[k].code
    ensures i < m < k && history[m].Created? && history[m].code == history[k].code
  {
    var d, c := history[k].desktopId, history[k].code;
    DrawnPrefix(history, k);
    PairsIff(history[..k], d, c, history[k].now);
    var e :| history[k].now <= e && Holds(history[..k], d, c, e);
    m :| m < k && history[..k][m] == Created(d, c, e) && Untouched(history[..k], m);
    if m < i {
      assert history[..k][i] == history[i];
      assert history[i].desktopId != d;
      DrawnPrefix(history, i);
      assert forall x :: m < x < i ==> history[..k][x] == history[..i][x];
      assert history[..i][m] == Created(d, c, e) && Untouched(history[..i], m);
      assert Holds(history[..i], d, c, e);
      TableHoldsUntouchedCodes(history[..i], d, c, e);
      assert false;
    }
    assert m != i;
  }

  class Pairings {
    var pairings: map<string, Pairing>
    ghost var history: seq<Call>

    ghost predicate Valid()
      reads this
    {
      Drawn(history) && pairings == Table(history)
    }

    constructor ()
      ensures Valid() && history == []
    {
      pairings, history := map[], [];
    }

    /** `draws` are the random codes in the order they would be drawn; some draw is unused once the desktop's own codes
        are deleted. */
    method CreatePairing(desktopId: string, ttlSeconds: int, now: int, draws: seq<string>) returns (code: string)
      requires Valid() && exists i :: 0 <= i < |draws| && draws[i] !in WithoutDesktop(pairings, desktopId)
      modifies this
      ensures Valid()
      ensures exists i :: 0 <= i < |draws| && code == draws[i] && code !in WithoutDesktop(old(pairings), desktopId) &&
                          forall j :: 0 <= j < i ==> draws[j] in WithoutDesktop(old(pairings), desktopId)
      ensures history == old(history) + [Created(desktopId, code, now + ttlSeconds * 1000)]
    {
      ghost var before := pairings;
      var codes := pairings.Keys;
      while codes != {}
        invariant codes <= before.Keys && history == old(history)
        invariant pairings == map c | c in before && (c in codes || before[c].desktopId != desktopId) :: before[c]
        decreases codes
      {
        var c :| c in codes;
        if pairings[c].desktopId == desktopId {
          pairings := pairings - {c};
        }
        codes := codes - {c};
      }
      assert pairings == WithoutDesktop(before, desktopId);
      var i := 0;
      while draws[i] in pairings
        invariant 0 <= i < |draws| && pairings == WithoutDesktop(before, desktopId)
        invariant forall j :: 0 <= j < i ==> draws[j] in pairings
        invariant history == old(history)
        decreases |draws| - i
      {
        i := i + 1;
      }
      code := draws[i];
      Extended(history, Created(desktopId, code, now + ttlSeconds * 1000));
      pairings := pairings[code := Pairing(desktopId, now + ttlSeconds * 1000)];
      history := history + [Created(desktopId, code, now + ttlSeconds * 1000)];
    }

    method ConsumePairing(desktopId: string, code: string, now: int) returns (verdict: Verdict)
      requires Valid()
      modifies this
      ensures Valid() && history == old(history) + [Tried(desktopId, code, now)]
      ensures verdict == Judge(Table(old(history)), desktopId, code, now)
    {
      Extended(history, Tried(desktopId, code, now));
      history := history + [Tried(desktopId, code, now)];
      if code !in pairings || pairings[code].desktopId != desktopId {
        return NotFound;
      }
      verdict := if now > pairings[code].expiresAt then Expired else Paired;
      pairings := pairings - {code};
    }
  }

  lemma Extended(history: seq<Call>, call: Call)
    requires Drawn(history)
    requires call.Created? ==> call.code !in WithoutDesktop(Table(history), call.desktopId)
    ensures Drawn(history + [call]) && Table(history + [call]) == AfterCall(Table(history), call)
  {
    var h := history + [call];
    assert h[..|history|] == history;
    forall i | 0 <= i < |h| && h[i].Created?
      ensures h[i].code !in WithoutDesktop(Table(h[..i]), h[i].desktopId)
    {
      assert h[..i] == history[..i];
      if i == |history| {
        assert history[..i] == history;
      }
    }
  }
}
