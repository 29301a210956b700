/** Requesting a line together with its direction, alone and for a whole array: all or nothing. */
module GpioArrays {
  import opened GpioTable
  import opened GpioLines
  import opened GpioInvariant
  import opened GpioRuns

  /** An entry of the caller's array. The initial output value only reaches the chip. */
  datatype Pin = Pin(gpio: int, input: bool)

  /** What the module loader and the chip answer for one entry. */
  datatype PinEnv = PinEnv(alive: bool, requestStatus: int, dirStatus: int)

  function RequestOne(s: State, p: Pin, e: PinEnv): (State, int) {
    var (t, err) := Request(s, p.gpio, e.alive, e.requestStatus);
    if err != 0 then (t, err)
    else
      var (u, err') := Direction(t, p.gpio, p.input, e.alive, 0, e.dirStatus);
      if err' != 0 then (Free(u, p.gpio), err') else (u, 0)
  }

  /** gpio_request_array: the first failure frees the entries before it, last one first. */
  function RequestArray(s: State, ps: seq<Pin>, es: seq<PinEnv>): (State, int)
    requires |ps| == |es|
    decreases ps
  {
    if ps == [] then (s, 0)
    else
      var (t, err) := RequestOne(s, ps[0], es[0]);
      if err != 0 then (t, err)
      else
        var (u, err') := RequestArray(t, ps[1..], es[1..]);
        if err' != 0 then (Free(u, ps[0].gpio), err') else (u, 0)
  }

  function FreeArray(s: State, ps: seq<Pin>): State
    decreases ps
  {
    if ps == [] then s else FreeArray(Free(s, ps[0].gpio), ps[1..])
  }

  // ----- restored -----

  /** Equal but for the direction and the polarity, which the driver does not restore. */
  predicate SameLine(a: Desc, b: Desc) {
    a.(flags := a.flags.(isOut := b.flags.isOut, activeLow := b.flags.activeLow)) == b
  }

  predicate SameLines(s: State, t: State) {
    && |t.desc| == |s.desc| && t.base == s.base && t.idr == s.idr
    && forall g | 0 <= g < |s.desc| :: SameLine(s.desc[g], t.desc[g])
  }

  /** Same requested lines, same chips, same ids, same module references. */
  predicate Restored(s: State, t: State) {
    SameLines(s, t) && t.refs == s.refs
  }

  lemma SameLinesSameReferences(s: State, t: State)
    requires Inv(s) && Inv(t) && SameLines(s, t)
    ensures Restored(s, t)
  {
    forall i | 0 <= i < |s.desc| ensures Held(s.desc[i]) == Held(t.desc[i]) {
      assert SameLine(s.desc[i], t.desc[i]);
    }
    OwnersPointwise(s.desc, t.desc);
  }

  // ----- one entry -----

  lemma UnexportTouchesOneLine(v: State, g: nat)
    requires g < |v.desc|
    ensures Unexport(v, g).base == v.base
    ensures forall h | 0 <= h < |v.desc| && h != g :: Unexport(v, g).desc[h] == v.desc[h]
  {
  }

  lemma FreeTouchesOneLine(v: State, g: nat)
    requires g < |v.desc|
    ensures |Free(v, g).desc| == |v.desc| && Free(v, g).base == v.base
    ensures Free(v, g).idr == Unexport(v, g).idr
    ensures forall h | 0 <= h < |v.desc| && h != g :: Free(v, g).desc[h] == v.desc[h]
  {
    UnexportTouchesOneLine(v, g);
  }

  /** Line `g` of `s` is taken, with the given direction, in `t`. */
  predicate Taken(s: State, t: State, p: Pin) {
    && IsGpio(s, p.gpio) && |t.desc| == |s.desc|
    && !s.desc[p.gpio].flags.requested
    && t.desc[p.gpio] == s.desc[p.gpio].(flags := s.desc[p.gpio].flags.(requested := true, isOut := !p.input))
  }

  lemma RequestOneKeepsInv(s: State, p: Pin, e: PinEnv)
    requires Inv(s)
    ensures Inv(RequestOne(s, p, e).0)
  {
    var t := Request(s, p.gpio, e.alive, e.requestStatus).0;
    assert Inv(t) by {
      RequestKeepsInv(s, p.gpio, e.alive, e.requestStatus);
    }
    var u := Direction(t, p.gpio, p.input, e.alive, 0, e.dirStatus).0;
    assert Inv(u) by {
      DirectionKeepsInv(t, p.gpio, p.input, e.alive, 0, e.dirStatus);
    }
    assert Inv(Free(u, p.gpio)) by {
      FreeKeepsInv(u, p.gpio);
    }
  }

  /** A failing gpio_request leaves everything as it was, unless the chip's callback broke its
      contract and returned a positive number. */
  predicate PositiveCallback(s: State, g: int, alive: bool, status: int) {
    && IsGpio(s, g) && s.desc[g].chip.Some? && CanGet(s.desc[g].chip.value, alive)
    && !s.desc[g].flags.requested && s.desc[g].chip.value.hasRequest && status > 0
  }

  lemma UnclaimUndoesClaim(s: State, g: nat, c: Chip)
    requires g < |s.desc| && !s.desc[g].flags.requested
    ensures Unclaim(Claim(s, g, c), g, c) == s
  {
    var t := Unclaim(Claim(s, g, c), g, c);
    assert t.desc == s.desc;
    assert t.refs == s.refs;
  }

  lemma FailedRequestRestoresIff(s: State, g: int, alive: bool, status: int)
    requires Request(s, g, alive, status).1 != 0
    ensures Request(s, g, alive, status).0 == s <==> !PositiveCallback(s, g, alive, status)
  {
    if IsGpio(s, g) && s.desc[g].chip.Some? && !s.desc[g].flags.requested {
      UnclaimUndoesClaim(s, g, s.desc[g].chip.value);
      assert Claim(s, g, s.desc[g].chip.value).desc[g].flags.requested;
    }
  }

  /** Freeing a line that `s` has not requested, in a state that otherwise restores `s`. */
  lemma FreeRestores(s: State, t: State, g: nat)
    requires Inv(s) && Inv(t) && g < |s.desc| && |t.desc| == |s.desc|
    requires t.base == s.base && t.idr == s.idr
    requires !s.desc[g].flags.requested && t.desc[g].flags.requested && !t.desc[g].flags.exported
    requires SameLine(s.desc[g].(flags := s.desc[g].flags.(requested := true)), t.desc[g])
    requires forall h | 0 <= h < |s.desc| && h != g :: SameLine(s.desc[h], t.desc[h])
    ensures Restored(s, Free(t, g))
  {
    FreeKeepsInv(t, g);
    assert LineOk(t, g);
    SameLinesSameReferences(s, Free(t, g));
  }

  lemma SuccessfulRequestClaims(s: State, g: int, alive: bool, status: int)
    requires Request(s, g, alive, status).1 == 0
    ensures IsGpio(s, g) && s.desc[g].chip.Some? && !s.desc[g].flags.requested
    ensures Request(s, g, alive, status).0 == Claim(s, g, s.desc[g].chip.value)
  {
  }

  /** On a line that is requested already, a direction call changes the direction or nothing. */
  lemma DirectionOfRequestedLine(s: State, g: nat, input: bool, alive: bool, rs: int, status: int)
    requires g < |s.desc| && s.desc[g].flags.requested
    ensures var (t, err) := Direction(s, g, input, alive, rs, status);
      t == if err == 0 then SetFlags(s, g, s.desc[g].flags.(isOut := !input)) else s
  {
  }

  /** gpio_request_one either takes exactly its line or restores the table, unless the callback
      answers with a positive number. */
  lemma RequestOneAllOrNothing(s: State, p: Pin, e: PinEnv)
    requires Inv(s) && !PositiveCallback(s, p.gpio, e.alive, e.requestStatus)
    ensures var (t, err) := RequestOne(s, p, e);
      if err == 0
      then Taken(s, t, p) && t.base == s.base && t.idr == s.idr
           && forall h | 0 <= h < |s.desc| && h != p.gpio :: t.desc[h] == s.desc[h]
      else Restored(s, t)
  {
    var (t, err) := Request(s, p.gpio, e.alive, e.requestStatus);
    if err != 0 {
      FailedRequestRestoresIff(s, p.gpio, e.alive, e.requestStatus);
    } else {
      SuccessfulRequestClaims(s, p.gpio, e.alive, e.requestStatus);
      DirectionOfRequestedLine(t, p.gpio, p.input, e.alive, 0, e.dirStatus);
      if Direction(t, p.gpio, p.input, e.alive, 0, e.dirStatus).1 != 0 {
        FreeClaimed(s, p.gpio);
      }
    }
  }

  lemma FreeClaimed(s: State, g: nat)
    requires Inv(s) && g < |s.desc| && s.desc[g].chip.Some? && !s.desc[g].flags.requested
    ensures Restored(s, Free(Claim(s, g, s.desc[g].chip.value), g))
  {
    assert LineOk(s, g);
    ClaimKeepsInv(s, g, s.desc[g].chip.value);
    FreeRestores(s, Claim(s, g, s.desc[g].chip.value), g);
  }

  // ----- the whole array -----

  /** Exactly the entries of `ps` are taken, each with its direction; they are pairwise distinct and
      were free before. */
  predicate AllTaken(s: State, t: State, ps: seq<Pin>) {
    && |t.desc| == |s.desc| && t.base == s.base && t.idr == s.idr
    && (forall i | 0 <= i < |ps| :: Taken(s, t, ps[i]))
    && (forall i, j | 0 <= i < j < |ps| :: ps[i].gpio != ps[j].gpio)
    && (forall g | 0 <= g < |s.desc| && (forall i | 0 <= i < |ps| :: ps[i].gpio != g) ::
          t.desc[g] == s.desc[g])
  }

  lemma {:induction false} RequestArrayKeepsInv(s: State, ps: seq<Pin>, es: seq<PinEnv>)
    requires Inv(s) && |ps| == |es|
    ensures Inv(RequestArray(s, ps, es).0)
    decreases ps
  {
    if ps != [] {
      RequestOneKeepsInv(s, ps[0], es[0]);
      var t := RequestOne(s, ps[0], es[0]).0;
      RequestArrayKeepsInv(t, ps[1..], es[1..]);
      FreeKeepsInv(RequestArray(t, ps[1..], es[1..]).0, ps[0].gpio);
    }
  }

  /** The call reaches an entry whose line it can claim and whose callback answers positively. */
  predicate Leaks(s: State, ps: seq<Pin>, es: seq<PinEnv>)
    requires |ps| == |es|
    decreases ps
  {
    ps != [] &&
    (PositiveCallback(s, ps[0].gpio, es[0].alive, es[0].requestStatus) ||
     (RequestOne(s, ps[0], es[0]).1 == 0 && Leaks(RequestOne(s, ps[0], es[0]).0, ps[1..], es[1..])))
  }

  /** Whether an entry succeeds on its own. */
  predicate Succeeds(s: State, p: Pin, e: PinEnv) {
    IsGpio(s, p.gpio) && s.desc[p.gpio].chip.Some? && !s.desc[p.gpio].flags.requested &&
    var c := s.desc[p.gpio].chip.value;
    CanGet(c, e.alive) && (c.hasRequest ==> e.requestStatus == 0) && CanDirect(c, p.input) && e.dirStatus == 0
  }

  /** Entry `i` leaks, as seen before the call: its callback answers positively for a line that can be
      claimed, and the entries before it succeed, all on different lines. */
  predicate LeaksAt(s: State, ps: seq<Pin>, es: seq<PinEnv>, i: nat)
    requires |ps| == |es|
  {
    && i < |ps| && PositiveCallback(s, ps[i].gpio, es[i].alive, es[i].requestStatus)
    && (forall j | 0 <= j < i :: Succeeds(s, ps[j], es[j]))
    && (forall j, k | 0 <= j < k <= i :: ps[j].gpio != ps[k].gpio)
  }

  lemma SucceedsIff(s: State, p: Pin, e: PinEnv)
    requires TableOk(s)
    ensures RequestOne(s, p, e).1 == 0 <==> Succeeds(s, p, e)
  {
    if IsGpio(s, p.gpio) && s.desc[p.gpio].chip.Some? && !s.desc[p.gpio].flags.requested {
      var c := s.desc[p.gpio].chip.value;
      assert InBlock(s, c, p.gpio);
      if CanGet(c, e.alive) {
        FirstRequest(s, p.gpio, c, e.alive, e.requestStatus);
      }
    }
  }

  /** After one entry was taken the others see the same lines, but for the one taken. */
  lemma SeenAfter(s: State, t: State, q: Pin, p: Pin, e: PinEnv)
    requires Taken(s, t, q)
    requires forall h | 0 <= h < |s.desc| && h != q.gpio :: t.desc[h] == s.desc[h]
    ensures Succeeds(t, p, e) <==> Succeeds(s, p, e) && p.gpio != q.gpio
    ensures PositiveCallback(t, p.gpio, e.alive, e.requestStatus) <==>
      PositiveCallback(s, p.gpio, e.alive, e.requestStatus) && p.gpio != q.gpio
  {
  }

  /** The call leaks exactly if some entry leaks as seen before the call. */
  lemma {:induction false} LeaksIff(s: State, ps: seq<Pin>, es: seq<PinEnv>)
    requires Inv(s) && |ps| == |es|
    ensures Leaks(s, ps, es) <==> exists i :: 0 <= i < |ps| && LeaksAt(s, ps, es, i)
    decreases ps
  {
    if ps != [] {
      if PositiveCallback(s, ps[0].gpio, es[0].alive, es[0].requestStatus) {
        assert LeaksAt(s, ps, es, 0);
      } else {
        SucceedsIff(s, ps[0], es[0]);
        if Succeeds(s, ps[0], es[0]) {
          RequestOneAllOrNothing(s, ps[0], es[0]);
          RequestOneKeepsInv(s, ps[0], es[0]);
          var t := RequestOne(s, ps[0], es[0]).0;
          LeaksIff(t, ps[1..], es[1..]);
          forall i | 0 <= i < |ps| - 1 ensures LeaksAt(t, ps[1..], es[1..], i) <==> LeaksAt(s, ps, es, i + 1) {
            LeaksOneLater(s, t, ps, es, i);
          }
          if i :| 0 <= i < |ps| && LeaksAt(s, ps, es, i) {
            assert i > 0 && LeaksAt(t, ps[1..], es[1..], i - 1);
          }
        }
      }
    }
  }

  lemma LeaksOneLater(s: State, t: State, ps: seq<Pin>, es: seq<PinEnv>, i: nat)
    requires |ps| == |es| && i + 1 < |ps| && Succeeds(s, ps[0], es[0]) && Taken(s, t, ps[0])
    requires forall h | 0 <= h < |s.desc| && h != ps[0].gpio :: t.desc[h] == s.desc[h]
    ensures LeaksAt(t, ps[1..], es[1..], i) <==> LeaksAt(s, ps, es, i + 1)
  {
    var qs, fs := ps[1..], es[1..];
    forall j | 0 <= j < |qs|
      ensures qs[j] == ps[j + 1] && fs[j] == es[j + 1]
      ensures Succeeds(t, qs[j], fs[j]) <==> Succeeds(s, ps[j + 1], es[j + 1]) && ps[j + 1].gpio != ps[0].gpio
      ensures PositiveCallback(t, qs[j].gpio, fs[j].alive, fs[j].requestStatus) <==>
        PositiveCallback(s, ps[j + 1].gpio, es[j + 1].alive, es[j + 1].requestStatus) && ps[j + 1].gpio != ps[0].gpio
    {
      SeenAfter(s, t, ps[0], ps[j + 1], es[j + 1]);
    }
    if LeaksAt(s, ps, es, i + 1) {
      LaterFromHere(s, t, ps, es, i);
    }
    if LeaksAt(t, qs, fs, i) {
      HereFromLater(s, t, ps, es, i);
    }
  }

  lemma LaterFromHere(s: State, t: State, ps: seq<Pin>, es: seq<PinEnv>, i: nat)
    requires |ps| == |es| && i + 1 < |ps| && LeaksAt(s, ps, es, i + 1)
    requires forall j | 0 <= j < |ps| - 1 :: ps[1..][j] == ps[j + 1] && es[1..][j] == es[j + 1]
    requires forall j | 0 <= j < |ps| - 1 && ps[j + 1].gpio != ps[0].gpio ::
      && (Succeeds(s, ps[j + 1], es[j + 1]) ==> Succeeds(t, ps[1..][j], es[1..][j]))
      && (PositiveCallback(s, ps[j + 1].gpio, es[j + 1].alive, es[j + 1].requestStatus) ==>
            PositiveCallback(t, ps[1..][j].gpio, es[1..][j].alive, es[1..][j].requestStatus))
    ensures LeaksAt(t, ps[1..], es[1..], i)
  {
    forall j | 0 <= j <= i ensures ps[1..][j].gpio != ps[0].gpio {
      assert ps[1..][j] == ps[j + 1];
    }
    forall j | 0 <= j < i ensures Succeeds(t, ps[1..][j], es[1..][j]) {
      assert Succeeds(s, ps[j + 1], es[j + 1]);
    }
  }

  lemma HereFromLater(s: State, t: State, ps: seq<Pin>, es: seq<PinEnv>, i: nat)
    requires |ps| == |es| && i + 1 < |ps| && LeaksAt(t, ps[1..], es[1..], i) && Succeeds(s, ps[0], es[0])
    requires forall j | 0 <= j < |ps| - 1 :: ps[1..][j] == ps[j + 1] && es[1..][j] == es[j + 1]
    requires forall j | 0 <= j < |ps| - 1 ::
      && (Succeeds(t, ps[1..][j], es[1..][j]) ==>
            Succeeds(s, ps[j + 1], es[j + 1]) && ps[j + 1].gpio != ps[0].gpio)
      && (PositiveCallback(t, ps[1..][j].gpio, es[1..][j].alive, es[1..][j].requestStatus) ==>
            && PositiveCallback(s, ps[j + 1].gpio, es[j + 1].alive, es[j + 1].requestStatus)
            && ps[j + 1].gpio != ps[0].gpio)
    ensures LeaksAt(s, ps, es, i + 1)
  {
    forall j | 0 <= j < i + 1 ensures Succeeds(s, ps[j], es[j]) {
      if j > 0 {
        assert Succeeds(t, ps[1..][j - 1], es[1..][j - 1]);
      }
    }
    forall j, k | 0 <= j < k <= i + 1 ensures ps[j].gpio != ps[k].gpio {
      assert ps[1..][k - 1] == ps[k];
      if j == 0 {
        if k - 1 < i {
          assert Succeeds(t, ps[1..][k - 1], es[1..][k - 1]);
        }
      } else {
        assert ps[1..][j - 1] == ps[j];
      }
    }
  }

  /** With callbacks that answer 0 or a negative number nothing leaks. */
  lemma {:induction false} ProperCallbacksNeverLeak(s: State, ps: seq<Pin>, es: seq<PinEnv>)
    requires |ps| == |es| && forall i | 0 <= i < |es| :: es[i].requestStatus <= 0
    ensures !Leaks(s, ps, es)
    decreases ps
  {
    if ps != [] {
      ProperCallbacksNeverLeak(RequestOne(s, ps[0], es[0]).0, ps[1..], es[1..]);
    }
  }

  /** All or nothing, for arrays of any length and with any duplicates, when nothing leaks. */
  lemma {:induction false} RequestArrayAllOrNothing(s: State, ps: seq<Pin>, es: seq<PinEnv>)
    requires Inv(s) && |ps| == |es| && !Leaks(s, ps, es)
    ensures var (t, err) := RequestArray(s, ps, es);
      if err == 0 then AllTaken(s, t, ps) else Restored(s, t)
    decreases ps
  {
    if ps != [] {
      RequestOneAllOrNothing(s, ps[0], es[0]);
      var (t, err) := RequestOne(s, ps[0], es[0]);
      if err == 0 {
        RequestOneKeepsInv(s, ps[0], es[0]);
        RequestArrayAllOrNothing(t, ps[1..], es[1..]);
        RequestArrayKeepsInv(t, ps[1..], es[1..]);
        var (u, err') := RequestArray(t, ps[1..], es[1..]);
        if err' != 0 {
          UndoFirst(s, t, u, ps[0]);
        } else {
          TakeFirst(s, t, u, ps);
        }
      }
    }
  }

  /** An array succeeds exactly if each entry would on its own and no line is named twice. */
  lemma {:induction false} ArraySucceedsIff(s: State, ps: seq<Pin>, es: seq<PinEnv>)
    requires Inv(s) && |ps| == |es|
    ensures RequestArray(s, ps, es).1 == 0 <==>
      && (forall i | 0 <= i < |ps| :: RequestOne(s, ps[i], es[i]).1 == 0)
      && (forall i, j | 0 <= i < j < |ps| :: ps[i].gpio != ps[j].gpio)
    decreases ps
  {
    if ps != [] && RequestOne(s, ps[0], es[0]).1 == 0 {
      SucceedsIff(s, ps[0], es[0]);
      RequestOneAllOrNothing(s, ps[0], es[0]);
      RequestOneKeepsInv(s, ps[0], es[0]);
      var t := RequestOne(s, ps[0], es[0]).0;
      ArraySucceedsIff(t, ps[1..], es[1..]);
      forall i | 0 < i < |ps|
        ensures ps[1..][i - 1] == ps[i] && es[1..][i - 1] == es[i]
        ensures RequestOne(t, ps[i], es[i]).1 == 0 <==>
          RequestOne(s, ps[i], es[i]).1 == 0 && ps[i].gpio != ps[0].gpio
      {
        SucceedsIff(s, ps[i], es[i]);
        SucceedsIff(t, ps[i], es[i]);
        SeenAfter(s, t, ps[0], ps[i], es[i]);
      }
      SplitFirst(s, t, ps, es);
    }
  }

  /** The entries after the first, seen from `t` and from `s`. */
  lemma SplitFirst(s: State, t: State, ps: seq<Pin>, es: seq<PinEnv>)
    requires ps != [] && |ps| == |es| && RequestOne(s, ps[0], es[0]).1 == 0
    requires forall i | 0 < i < |ps| :: ps[1..][i - 1] == ps[i] && es[1..][i - 1] == es[i]
    requires forall i | 0 < i < |ps| :: RequestOne(t, ps[i], es[i]).1 == 0 <==>
      RequestOne(s, ps[i], es[i]).1 == 0 && ps[i].gpio != ps[0].gpio
    ensures (forall i | 0 <= i < |ps[1..]| :: RequestOne(t, ps[1..][i], es[1..][i]).1 == 0)
            && (forall i, j | 0 <= i < j < |ps[1..]| :: ps[1..][i].gpio != ps[1..][j].gpio) <==>
            (forall i | 0 <= i < |ps| :: RequestOne(s, ps[i], es[i]).1 == 0)
            && (forall i, j | 0 <= i < j < |ps| :: ps[i].gpio != ps[j].gpio)
  {
    var qs, fs := ps[1..], es[1..];
    assert forall i | 0 <= i < |qs| :: qs[i] == ps[i + 1] && fs[i] == es[i + 1];
    if (forall i | 0 <= i < |qs| :: RequestOne(t, qs[i], fs[i]).1 == 0)
       && (forall i, j | 0 <= i < j < |qs| :: qs[i].gpio != qs[j].gpio)
    {
      forall i | 0 < i < |ps| ensures RequestOne(s, ps[i], es[i]).1 == 0 && ps[i].gpio != ps[0].gpio {
        assert RequestOne(t, qs[i - 1], fs[i - 1]).1 == 0;
      }
      forall i, j | 0 <= i < j < |ps| ensures ps[i].gpio != ps[j].gpio {
        if i > 0 {
          assert qs[i - 1].gpio != qs[j - 1].gpio;
        }
      }
    }
    if (forall i | 0 <= i < |ps| :: RequestOne(s, ps[i], es[i]).1 == 0)
       && (forall i, j | 0 <= i < j < |ps| :: ps[i].gpio != ps[j].gpio)
    {
      forall i | 0 <= i < |qs| ensures RequestOne(t, qs[i], fs[i]).1 == 0 {
        assert RequestOne(s, ps[i + 1], es[i + 1]).1 == 0;
      }
    }
  }

  lemma UndoFirst(s: State, t: State, u: State, p: Pin)
    requires Inv(s) && Inv(t) && Inv(u) && Taken(s, t, p) && Restored(t, u)
    requires t.base == s.base && t.idr == s.idr
    requires forall h | 0 <= h < |s.desc| && h != p.gpio :: t.desc[h] == s.desc[h]
    ensures Restored(s, Free(u, p.gpio))
  {
    assert LineOk(s, p.gpio);
    assert SameLine(t.desc[p.gpio], u.desc[p.gpio]);
    FreeRestores(s, u, p.gpio);
  }

  lemma TakeFirst(s: State, t: State, u: State, ps: seq<Pin>)
    requires ps != [] && Taken(s, t, ps[0]) && AllTaken(t, u, ps[1..])
    requires t.base == s.base && t.idr == s.idr
    requires forall h | 0 <= h < |s.desc| && h != ps[0].gpio :: t.desc[h] == s.desc[h]
    ensures AllTaken(s, u, ps)
  {
    var rest := ps[1..];
    forall i | 1 <= i < |ps| ensures ps[i].gpio != ps[0].gpio && Taken(s, u, ps[i]) {
      assert ps[i] == rest[i - 1];
      assert Taken(t, u, rest[i - 1]);
    }
    forall i, j | 0 <= i < j < |ps| ensures ps[i].gpio != ps[j].gpio {
      if i > 0 {
        assert ps[i] == rest[i - 1] && ps[j] == rest[j - 1];
      }
    }
    forall g | 0 <= g < |s.desc| && (forall i | 0 <= i < |ps| :: ps[i].gpio != g)
      ensures u.desc[g] == s.desc[g]
    {
      assert ps[0].gpio != g;
      assert forall i | 0 <= i < |rest| :: rest[i] == ps[i + 1];
    }
    forall i | 0 <= i < |rest| ensures rest[i].gpio != ps[0].gpio {
      assert rest[i] == ps[i + 1];
    }
    assert u.desc[ps[0].gpio] == t.desc[ps[0].gpio];
  }

  /** A leak makes the call fail, and the leaked line, which was free before, survives the rollback. */
  lemma {:induction false} LeakedLineStays(s: State, ps: seq<Pin>, es: seq<PinEnv>) returns (g: nat)
    requires Inv(s) && |ps| == |es| && Leaks(s, ps, es)
    ensures var (t, err) := RequestArray(s, ps, es);
      && err != 0 && |t.desc| == |s.desc|
      && g < |s.desc| && !s.desc[g].flags.requested && t.desc[g].flags.requested
    decreases ps
  {
    if PositiveCallback(s, ps[0].gpio, es[0].alive, es[0].requestStatus) {
      g := ps[0].gpio;
      assert RequestOne(s, ps[0], es[0]) == (Claim(s, g, s.desc[g].chip.value), es[0].requestStatus);
    } else {
      RequestOneAllOrNothing(s, ps[0], es[0]);
      RequestOneKeepsInv(s, ps[0], es[0]);
      var t := RequestOne(s, ps[0], es[0]).0;
      g := LeakedLineStays(t, ps[1..], es[1..]);
      assert Taken(s, t, ps[0]);
      FreeTouchesOneLine(RequestArray(t, ps[1..], es[1..]).0, ps[0].gpio);
    }
  }

  /** A failing gpio_request_array restores lines, ids and references exactly if no entry leaks: none has a
      callback that answers positively for a line it can claim after entries that succeed. */
  lemma FailedArrayRestoresIff(s: State, ps: seq<Pin>, es: seq<PinEnv>)
    requires Inv(s) && |ps| == |es| && RequestArray(s, ps, es).1 != 0
    ensures Restored(s, RequestArray(s, ps, es).0) <==> !exists i :: 0 <= i < |ps| && LeaksAt(s, ps, es, i)
  {
    LeaksIff(s, ps, es);
    if Leaks(s, ps, es) {
      var g := LeakedLineStays(s, ps, es);
      assert !SameLine(s.desc[g], RequestArray(s, ps, es).0.desc[g]);
    } else {
      RequestArrayAllOrNothing(s, ps, es);
    }
  }

  /** The smallest leak: one entry, whose callback answers with a positive number. */
  lemma PositiveCallbackLeaks(s: State, p: Pin, e: PinEnv)
    requires PositiveCallback(s, p.gpio, e.alive, e.requestStatus)
    ensures var (t, err) := RequestArray(s, [p], [e]);
      err == e.requestStatus && t.desc[p.gpio].flags.requested && !Restored(s, t)
  {
    var t := RequestArray(s, [p], [e]).0;
    assert t == Claim(s, p.gpio, s.desc[p.gpio].chip.value);
    assert !SameLine(s.desc[p.gpio], t.desc[p.gpio]);
  }

  // ----- freeing what was requested -----

  /** Exactly the lines of `ps` are requested in `t` and not in `s`; none of them is exported. */
  predicate Holds(s: State, t: State, ps: seq<Pin>) {
    && |t.desc| == |s.desc| && t.base == s.base && t.idr == s.idr
    && (forall i, j | 0 <= i < j < |ps| :: ps[i].gpio != ps[j].gpio)
    && (forall i | 0 <= i < |ps| :: HoldsLine(s, t, ps[i].gpio))
    && (forall g | 0 <= g < |s.desc| && (forall i | 0 <= i < |ps| :: ps[i].gpio != g) ::
          SameLine(s.desc[g], t.desc[g]))
  }

  predicate HoldsLine(s: State, t: State, g: int) {
    && IsGpio(s, g) && IsGpio(t, g)
    && !s.desc[g].flags.requested && t.desc[g].flags.requested && !t.desc[g].flags.exported
    && SameLine(s.desc[g].(flags := s.desc[g].flags.(requested := true)), t.desc[g])
  }

  /** Freeing in any later state that still holds exactly these lines gives them all back. */
  lemma {:induction false} FreeArrayRestores(s: State, t: State, ps: seq<Pin>)
    requires Inv(s) && Inv(t) && Holds(s, t, ps)
    ensures Restored(s, FreeArray(t, ps))
    decreases ps
  {
    if ps == [] {
      SameLinesSameReferences(s, t);
    } else {
      var u := Free(t, ps[0].gpio);
      FreeKeepsInv(t, ps[0].gpio);
      FreeFirst(s, t, ps);
      FreeArrayRestores(s, u, ps[1..]);
    }
  }

  lemma FreeHeldLine(s: State, t: State, g: nat)
    requires Inv(t) && HoldsLine(s, t, g)
    ensures var u := Free(t, g);
      && |u.desc| == |t.desc| && u.base == t.base && u.idr == t.idr
      && SameLine(s.desc[g], u.desc[g])
      && forall h | 0 <= h < |t.desc| && h != g :: u.desc[h] == t.desc[h]
  {
    assert LineOk(t, g);
  }

  lemma FreeFirst(s: State, t: State, ps: seq<Pin>)
    requires Inv(s) && Inv(t) && ps != [] && Holds(s, t, ps)
    ensures Holds(s, Free(t, ps[0].gpio), ps[1..])
  {
    var g := ps[0].gpio;
    assert HoldsLine(s, t, g);
    FreeHeldLine(s, t, g);
    HoldsRest(s, t, Free(t, g), ps);
  }

  lemma HoldsRest(s: State, t: State, u: State, ps: seq<Pin>)
    requires ps != [] && Holds(s, t, ps) && HoldsLine(s, t, ps[0].gpio)
    requires |u.desc| == |t.desc| && u.base == t.base && u.idr == t.idr
    requires SameLine(s.desc[ps[0].gpio], u.desc[ps[0].gpio])
    requires forall h | 0 <= h < |t.desc| && h != ps[0].gpio :: u.desc[h] == t.desc[h]
    ensures Holds(s, u, ps[1..])
  {
    var rest := ps[1..];
    assert forall i | 0 <= i < |rest| :: rest[i] == ps[i + 1];
    forall i | 0 <= i < |rest| ensures HoldsLine(s, u, rest[i].gpio) {
      assert HoldsLine(s, t, ps[i + 1].gpio) && ps[i + 1].gpio != ps[0].gpio;
    }
    forall h | 0 <= h < |s.desc| && (forall i | 0 <= i < |rest| :: rest[i].gpio != h)
      ensures SameLine(s.desc[h], u.desc[h])
    {
      if h != ps[0].gpio {
        assert forall i | 0 <= i < |ps| :: ps[i].gpio != h;
      }
    }
  }

  /** gpio_free_array undoes a successful gpio_request_array. */
  lemma FreeArrayUndoesRequestArray(s: State, ps: seq<Pin>, es: seq<PinEnv>)
    requires Inv(s) && |ps| == |es| && RequestArray(s, ps, es).1 == 0
    ensures Restored(s, FreeArray(RequestArray(s, ps, es).0, ps))
  {
    var t := RequestArray(s, ps, es).0;
    if Leaks(s, ps, es) {
      var g := LeakedLineStays(s, ps, es);
    }
    RequestArrayAllOrNothing(s, ps, es);
    TakenLinesAreHeld(s, t, ps);
    RequestArrayKeepsInv(s, ps, es);
    FreeArrayRestores(s, t, ps);
  }

  lemma TakenLinesAreHeld(s: State, t: State, ps: seq<Pin>)
    requires Inv(s) && AllTaken(s, t, ps)
    ensures Holds(s, t, ps)
  {
    forall i | 0 <= i < |ps| ensures HoldsLine(s, t, ps[i].gpio) {
      assert Taken(s, t, ps[i]) && LineOk(s, ps[i].gpio);
    }
  }
}
