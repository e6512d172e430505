/** xHCI rings: the transfer ring with its link TRB, and the event ring, in every interleaving of
    driver and controller. */
module XhciRing {
  import Cyclic

  datatype Trb = Trb(param: nat, status: nat, control: nat)

  const RING_SZ: nat := 16
  const SLOTS: nat := 15
  const EVT_SZ: nat := 64
  const TYPE_LINK: nat := 6
  const LINK_TC: nat := 2
  const ZERO: Trb := Trb(0, 0, 0)

  function CycleOf(t: Trb): nat { t.control % 2 }
  predicate IsLink(t: Trb) { t.control / 1024 % 64 == 6 }

  /** The type is in bits 10 to 15. */
  lemma LinkType(t: Trb)
    ensures IsLink(t) <==> t.control % 65536 / 1024 == 6
  {
    var q, r := t.control / 1024, t.control % 1024;
    var a, b := q / 64, q % 64;
    assert t.control == 65536 * a + (1024 * b + r);
    Cyclic.DivUnique(t.control, 65536, a, 1024 * b + r);
    Cyclic.DivUnique(1024 * b + r, 1024, b, r);
  }

  /** A TRB as a caller hands it over: no cycle bit yet, and not a link. */
  predicate Plain(t: Trb) { t.control % 2 == 0 && !IsLink(t) }

  function Stamp(t: Trb, cycle: nat): Trb { t.(control := t.control + cycle) }

  function LinkTrb(cycle: nat): Trb { Trb(0, 0, TYPE_LINK * 1024 + LINK_TC + cycle) }

  // ----- a circle of n slots filled in turn, the cycle bit telling laps apart -----

  /** The cycle bit of item k: 1 in the first lap. */
  function Lap(k: nat, n: nat): nat
    requires n > 0
  {
    if k / n % 2 == 0 then 1 else 0
  }

  /** The last n items are in their slots; slots never filled read as cycle 0. */
  ghost predicate Holds(ring: seq<Trb>, items: seq<Trb>, n: nat)
    requires 0 < n <= |ring|
  {
    && (forall k: nat {:trigger items[k]} :: |items| - n <= k < |items| ==> ring[k % n] == Stamp(items[k], Lap(k, n)))
    && (forall i: nat :: |items| <= i < n ==> ring[i] == ZERO)
  }

  lemma LapBefore(p: nat, n: nat)
    requires 0 < n <= p
    ensures (p - n) % n == p % n && Lap(p - n, n) == 1 - Lap(p, n)
  {
    Cyclic.Back(p, n);
  }

  lemma FirstLap(p: nat, n: nat)
    requires p < n
    ensures p % n == p && Lap(p, n) == 1
  {
    Cyclic.DivUnique(p, n, 0, p);
  }

  lemma Filled(ring: seq<Trb>, items: seq<Trb>, n: nat, t: Trb)
    requires 0 < n <= |ring| && Holds(ring, items, n)
    ensures |items| % n < |ring| && Holds(ring[|items| % n := Stamp(t, Lap(|items|, n))], items + [t], n)
  {
    var p, all := |items|, items + [t];
    var out := ring[p % n := Stamp(t, Lap(p, n))];
    hide Lap, Stamp;
    forall k: nat | p + 1 - n <= k < p + 1 ensures out[k % n] == Stamp(all[k], Lap(k, n)) {
      if k < p {
        Cyclic.Apart(k, p, n);
        assert all[k] == items[k];
      }
    }
    forall i: nat | p + 1 <= i < n ensures out[i] == ZERO { FirstLap(p, n); }
  }

  /** What a reader that has taken c items finds in its slot: its next item, or a wrong cycle bit, even if that
      item has been overwritten once. */
  lemma Peeked(ring: seq<Trb>, items: seq<Trb>, n: nat, c: nat)
    requires 0 < n <= |ring| && Holds(ring, items, n) && c <= |items| <= c + 2 * n
    requires forall t :: t in items ==> Plain(t)
    ensures c % n < |ring| && (CycleOf(ring[c % n]) == Lap(c, n) <==> c < |items| <= c + n) && !IsLink(ring[c % n])
    ensures c < |items| <= c + n ==> ring[c % n] == Stamp(items[c], Lap(c, n))
  {
    assert !IsLink(ZERO);
    hide IsLink, Lap;
    if |items| > c + n {
      LapBefore(c + n, n);
      StampPlain(items[c + n], c + n, n);
    } else if c < |items| {
      StampPlain(items[c], c, n);
    } else if c < n {
      FirstLap(c, n);
    } else {
      LapBefore(c, n);
      StampPlain(items[c - n], c - n, n);
    }
  }

  lemma StampPlain(t: Trb, k: nat, n: nat)
    requires Plain(t) && n > 0
    ensures CycleOf(Stamp(t, Lap(k, n))) == Lap(k, n) && !IsLink(Stamp(t, Lap(k, n)))
  {}

  lemma NextSlot(p: nat, n: nat)
    requires n > 0
    ensures if p % n + 1 == n then (p + 1) % n == 0 && Lap(p + 1, n) == 1 - Lap(p, n)
            else (p + 1) % n == p % n + 1 && Lap(p + 1, n) == Lap(p, n)
  {
    Cyclic.Step(p, n);
  }

  // ----- the transfer ring -----

  /** push_trb and ring_link on the ring in memory. */
  class Ring {
    const trbs: array<Trb>
    var idx: nat
    var cycle: nat

    ghost predicate Valid()
      reads this, trbs
    {
      trbs.Length == RING_SZ && idx < SLOTS && cycle < 2 && trbs[SLOTS].control == LinkTrb(CycleOf(trbs[SLOTS])).control
    }

    ghost function View(): Producer
      reads this, trbs
    {
      Producer(trbs[..], idx, cycle)
    }

    /** A zeroed ring with its link in place. */
    constructor ()
      ensures Valid() && View() == Empty() && fresh(trbs)
    {
      trbs := new Trb[RING_SZ](i => if i == SLOTS then LinkTrb(1) else ZERO);
      idx, cycle := 0, 1;
    }

    method Push(t: Trb)
      requires Valid() && t.control % 2 == 0
      modifies this, trbs
      ensures Valid() && View() == Pushed(old(View()), t)
    {
      trbs[idx] := t.(control := t.control + cycle);
      idx := idx + 1;
      if idx == RING_SZ - 1 {
        var l := trbs[RING_SZ - 1];
        trbs[RING_SZ - 1] := l.(control := l.control - l.control % 2 + cycle);
        idx := 0;
        cycle := 1 - cycle;
      }
    }
  }

  datatype Producer = Producer(ring: seq<Trb>, idx: nat, cycle: nat)

  function Empty(): Producer {
    Producer(seq(RING_SZ, i => if i == SLOTS then LinkTrb(1) else ZERO), 0, 1)
  }

  function Relinked(l: Trb, cycle: nat): Trb { l.(control := l.control - l.control % 2 + cycle) }

  function Pushed(p: Producer, t: Trb): Producer
    requires |p.ring| == RING_SZ && p.idx < SLOTS && p.cycle < 2
  {
    var ring := p.ring[p.idx := Stamp(t, p.cycle)];
    if p.idx + 1 == SLOTS then Producer(ring[SLOTS := Relinked(ring[SLOTS], p.cycle)], 0, 1 - p.cycle)
    else Producer(ring, p.idx + 1, p.cycle)
  }

  /** Driver, controller, and what went in and came out.  `deq` may rest on the link. */
  datatype State = State(driver: Producer, deq: nat, ccs: nat, pushed: seq<Trb>, taken: seq<Trb>)

  function Init(): State { State(Empty(), 0, 1, [], []) }

  /** The controller takes the TRB at its place if it owns it: a link is followed, anything else executed. */
  ghost predicate Take(s: State, s': State) {
    && s.deq < |s.driver.ring| && var t := s.driver.ring[s.deq];
       && CycleOf(t) == s.ccs
       && s' == if IsLink(t) then s.(deq := 0, ccs := if t.control / 2 % 2 == 1 then 1 - s.ccs else s.ccs)
                else s.(deq := s.deq + 1, taken := s.taken + [t])
  }

  /** The driver pushes while fewer than `limit` TRBs are outstanding. */
  ghost predicate Push(s: State, t: Trb, limit: nat, s': State) {
    && |s.pushed| < |s.taken| + limit && Plain(t) && |s.driver.ring| == RING_SZ && s.driver.idx < SLOTS
    && s.driver.cycle < 2
    && s' == s.(driver := Pushed(s.driver, t), pushed := s.pushed + [t])
  }

  ghost predicate Step(limit: nat, s: State, s': State) {
    Take(s, s') || exists t: Trb :: Push(s, t, limit, s')
  }

  ghost predicate IsRun(limit: nat, run: seq<State>) {
    |run| > 0 && run[0] == Init() && forall k :: 0 <= k < |run| - 1 ==> Step(limit, run[k], run[k + 1])
  }

  /** The link carries the cycle of the last finished lap (the first one to begin with). */
  function LinkCycle(p: nat): nat { if p < SLOTS then 1 else 1 - Lap(p, SLOTS) }

  /** At the link the controller has not turned its cycle yet. */
  ghost predicate Placed(s: State) {
    var c := |s.taken|;
    || (s.deq == c % SLOTS && s.ccs == Lap(c, SLOTS))
    || (s.deq == SLOTS && c >= SLOTS && c % SLOTS == 0 && s.ccs == 1 - Lap(c, SLOTS))
  }

  ghost predicate Inv(s: State) {
    && |s.driver.ring| == RING_SZ && Holds(s.driver.ring, s.pushed, SLOTS)
    && s.driver.idx == |s.pushed| % SLOTS && s.driver.cycle == Lap(|s.pushed|, SLOTS)
    && s.driver.ring[SLOTS] == LinkTrb(LinkCycle(|s.pushed|))
    && |s.taken| <= |s.pushed| <= |s.taken| + 2 * SLOTS && (forall t :: t in s.pushed ==> Plain(t))
    && Placed(s) && Delivered(s)
  }

  /** What came out is what went in, once each and in order, as far as it goes. */
  ghost predicate Delivered(s: State) {
    && |s.taken| <= |s.pushed|
    && forall k: nat :: k < |s.taken| ==> s.taken[k] == Stamp(s.pushed[k], Lap(k, SLOTS))
  }

  lemma PushKeeps(s: State, t: Trb, limit: nat, s': State)
    requires Inv(s) && limit <= 2 * SLOTS && Push(s, t, limit, s')
    ensures Inv(s')
  {
    var p := |s.pushed|;
    Filled(s.driver.ring, s.pushed, SLOTS, t);
    NextSlot(p, SLOTS);
    hide Plain, Stamp, Lap;
    var filled := s.driver.ring[p % SLOTS := Stamp(t, Lap(p, SLOTS))];
    assert forall x :: x in s'.pushed ==> x in s.pushed || x == t;
    Relink(s, p);
    if p % SLOTS + 1 == SLOTS {
      assert s'.driver.ring == filled[SLOTS := LinkTrb(LinkCycle(p + 1))];
      SameSlots(filled, s'.driver.ring, s'.pushed);
    } else {
      assert s'.driver.ring == filled;
    }
  }

  lemma Relink(s: State, p: nat)
    requires Inv(s) && p == |s.pushed|
    ensures if p % SLOTS + 1 == SLOTS then Relinked(s.driver.ring[SLOTS], s.driver.cycle) == LinkTrb(LinkCycle(p + 1))
            else LinkCycle(p + 1) == LinkCycle(p)
  {
    NextSlot(p, SLOTS);
  }

  /** The link is no slot of the circle. */
  lemma SameSlots(ring: seq<Trb>, out: seq<Trb>, items: seq<Trb>)
    requires |ring| == |out| == RING_SZ && Holds(ring, items, SLOTS) && forall i :: 0 <= i < SLOTS ==> out[i] == ring[i]
    ensures Holds(out, items, SLOTS)
  {}

  lemma TakeKeeps(s: State, s': State)
    requires Inv(s) && Take(s, s')
    ensures Inv(s')
  {
    var c := |s.taken|;
    hide Stamp, Plain, Holds;
    Peeked(s.driver.ring, s.pushed, SLOTS, c);
    NextSlot(c, SLOTS);
    LinkFacts(LinkCycle(|s.pushed|));
    if s.deq == SLOTS { Cyclic.Step(c, SLOTS); }
  }

  lemma LinkFacts(cycle: nat)
    requires cycle < 2
    ensures IsLink(LinkTrb(cycle)) && CycleOf(LinkTrb(cycle)) == cycle && LinkTrb(cycle).control / 2 % 2 == 1
  {}

  ghost predicate Good(limit: nat, s: State) { Inv(s) && |s.pushed| <= |s.taken| + limit }

  lemma StepKeeps(limit: nat, s: State, s': State)
    requires Good(limit, s) && limit <= 2 * SLOTS && Step(limit, s, s')
    ensures Good(limit, s')
  {
    hide Inv, Pushed;
    if Take(s, s') {
      TakeKeeps(s, s');
      TakenMore(s, s');
    } else {
      var t: Trb :| Push(s, t, limit, s');
      PushKeeps(s, t, limit, s');
    }
  }

  lemma TakenMore(s: State, s': State)
    requires Take(s, s')
    ensures s'.pushed == s.pushed && |s.taken| <= |s'.taken| && s'.driver == s.driver
  {}

  lemma {:induction false} RunGood(limit: nat, run: seq<State>, k: nat)
    requires IsRun(limit, run) && limit <= 2 * SLOTS && k < |run|
    ensures Good(limit, run[k])
  {
    hide Good, Step;
    if k == 0 {
      InitGood(limit);
    } else {
      RunGood(limit, run, k - 1);
      assert Step(limit, run[k - 1], run[k - 1 + 1]);
      StepKeeps(limit, run[k - 1], run[k]);
    }
  }

  lemma InitGood(limit: nat)
    ensures Good(limit, Init())
  {
    FirstLap(0, SLOTS);
  }

  /** In every interleaving, over any number of laps, with at most 30 TRBs outstanding, the controller
      executes exactly what was pushed, once each and in order. */
  lemma InOrder(limit: nat, run: seq<State>, k: nat)
    requires IsRun(limit, run) && limit <= 2 * SLOTS && k < |run|
    ensures Delivered(run[k])
  {
    hide Step, Holds, Placed;
    RunGood(limit, run, k);
  }

  // ----- progress -----

  ghost predicate CanTake(s: State) {
    s.deq < |s.driver.ring| && CycleOf(s.driver.ring[s.deq]) == s.ccs
  }

  /** Work left, but the controller owns nothing. */
  ghost predicate Stuck(s: State) { |s.taken| < |s.pushed| && !CanTake(s) }

  /** On the link, when the link has been rewritten for the next lap; elsewhere, when the next TRB has been. */
  lemma StuckExactly(s: State)
    requires Inv(s)
    ensures var open := |s.pushed| - |s.taken|;
            Stuck(s) <==> if s.deq == SLOTS then SLOTS <= open < 2 * SLOTS else SLOTS < open
  {
    var c, p := |s.taken|, |s.pushed|;
    Peeked(s.driver.ring, s.pushed, SLOTS, c);
    LinkFacts(LinkCycle(p));
    if s.deq == SLOTS {
      if p < c + SLOTS {
        SameLap(c, p);
      } else {
        Cyclic.Back(p, SLOTS);
        if p < c + 2 * SLOTS { SameLap(c, p - SLOTS); } else { Cyclic.Back(p - SLOTS, SLOTS); }
      }
    }
    hide Holds, IsLink, Stamp;
  }

  lemma SameLap(c: nat, p: nat)
    requires c % SLOTS == 0 && c <= p < c + SLOTS
    ensures Lap(p, SLOTS) == Lap(c, SLOTS)
  {
    Cyclic.DivUnique(p, SLOTS, c / SLOTS, p - c);
  }

  /** With fewer than 15 outstanding the controller can always go on. */
  lemma NeverStuck(limit: nat, run: seq<State>, k: nat)
    requires IsRun(limit, run) && limit < SLOTS && k < |run|
    ensures !Stuck(run[k])
  {
    hide Step, Inv, Stuck;
    RunGood(limit, run, k);
    StuckExactly(run[k]);
  }

  const NOOP: Trb := Trb(0, 0, 8192)

  lemma Append(limit: nat, run: seq<State>, s: State)
    requires IsRun(limit, run) && Step(limit, run[|run| - 1], s)
    ensures IsRun(limit, run + [s])
  {
    hide Step;
    var r := run + [s];
    forall k | 0 <= k < |r| - 1 ensures Step(limit, r[k], r[k + 1]) {
      assert k < |run| - 1 ==> r[k] == run[k] && r[k + 1] == run[k + 1];
    }
  }

  lemma {:induction false} Pushes(limit: nat, run: seq<State>, n: nat) returns (out: seq<State>)
    requires IsRun(limit, run) && |run[|run| - 1].pushed| + n <= |run[|run| - 1].taken| + limit && limit <= 2 * SLOTS
    ensures IsRun(limit, out)
    ensures var s, t := run[|run| - 1], out[|out| - 1];
            && |t.pushed| == |s.pushed| + n && t.taken == s.taken && t.deq == s.deq && t.ccs == s.ccs
            && forall x :: x in t.pushed ==> x in s.pushed || x == NOOP
    decreases n
  {
    if n == 0 {
      out := run;
    } else {
      var r := Pushes(limit, run, n - 1);
      var s := r[|r| - 1];
      RunGood(limit, r, |r| - 1);
      var t := s.(driver := Pushed(s.driver, NOOP), pushed := s.pushed + [NOOP]);
      assert Push(s, NOOP, limit, t) by { CircleFacts(s); }
      hide Push, Inv, Pushed;
      Append(limit, r, t);
      out := r + [t];
    }
  }

  lemma CircleFacts(s: State)
    requires Inv(s)
    ensures |s.driver.ring| == RING_SZ && s.driver.idx < SLOTS && s.driver.cycle < 2
  {}

  lemma {:induction false} Takes(run: seq<State>, n: nat) returns (out: seq<State>)
    requires IsRun(SLOTS, run) && |run[|run| - 1].taken| + n <= |run[|run| - 1].pushed|
    requires run[|run| - 1].deq + n <= SLOTS
    ensures IsRun(SLOTS, out)
    ensures var s, t := run[|run| - 1], out[|out| - 1];
            |t.taken| == |s.taken| + n && t.pushed == s.pushed && t.deq == s.deq + n && t.ccs == s.ccs
    decreases n
  {
    if n == 0 {
      out := run;
    } else {
      var r := Takes(run, n - 1);
      var s := r[|r| - 1];
      RunGood(SLOTS, r, |r| - 1);
      OwnedFacts(s);
      var t := s.(deq := s.deq + 1, taken := s.taken + [s.driver.ring[s.deq]]);
      assert Take(s, t);
      hide Take, Inv;
      Append(SLOTS, r, t);
      out := r + [t];
    }
  }

  lemma OwnedFacts(s: State)
    requires Inv(s) && s.deq < SLOTS && |s.taken| < |s.pushed| <= |s.taken| + SLOTS
    ensures CanTake(s) && !IsLink(s.driver.ring[s.deq])
  {
    Peeked(s.driver.ring, s.pushed, SLOTS, |s.taken|);
    hide Holds, IsLink, Stamp, Lap;
  }

  /** With 15 outstanding a controller that rests on the link finds the link rewritten, and stops. */
  lemma FullRingStops() returns (run: seq<State>)
    ensures IsRun(SLOTS, run) && Stuck(run[|run| - 1])
  {
    hide Step, Inv, Stuck;
    var r := Pushes(SLOTS, [Init()], SLOTS);
    r := Takes(r, SLOTS);
    run := Pushes(SLOTS, r, SLOTS);
    RunGood(SLOTS, run, |run| - 1);
    StuckExactly(run[|run| - 1]);
  }

  ghost predicate Live(limit: nat) {
    forall run: seq<State>, k: nat {:trigger IsRun(limit, run), run[k]} :: IsRun(limit, run) && k < |run| ==>
      !Stuck(run[k])
  }

  /** The controller is never stuck if and only if at most 14 TRBs are outstanding. */
  lemma LiveExactly(limit: nat)
    ensures Live(limit) <==> limit <= 14
  {
    hide IsRun, Stuck;
    if limit < SLOTS {
      forall run: seq<State>, k: nat | IsRun(limit, run) && k < |run|
        ensures !Stuck(run[k])
      {
        NeverStuck(limit, run, k);
      }
    } else {
      var run := FullRingStops();
      Loosened(SLOTS, limit, run);
      var k: nat := |run| - 1;
      assert Stuck(run[k]);
    }
  }

  lemma Loosened(limit: nat, more: nat, run: seq<State>)
    requires IsRun(limit, run) && limit <= more
    ensures IsRun(more, run) && |run| > 0
  {
    hide Take, Pushed, Plain;
    forall k | 0 <= k < |run| - 1 ensures Step(more, run[k], run[k + 1]) {
      var s, s' := run[k], run[k + 1];
      assert Step(limit, s, s');
      if !Take(s, s') {
        var t: Trb :| Push(s, t, limit, s');
        assert Push(s, t, more, s');
      }
    }
  }

  // ----- how full is too full -----

  const MARK: Trb := Trb(1, 0, 8192)

  /** With 31 outstanding the first slot has been overwritten twice, and carries the first lap's cycle bit again. */
  lemma TwiceOverwritten() returns (run: seq<State>)
    ensures IsRun(2 * SLOTS + 1, run) && !Delivered(run[|run| - 1])
  {
    var full := 2 * SLOTS;
    var r := Pushes(full, [Init()], full);
    RunGood(full, r, |r| - 1);
    Loosened(full, full + 1, r);
    var s := r[|r| - 1];
    var t := s.(driver := Pushed(s.driver, MARK), pushed := s.pushed + [MARK]);
    assert Push(s, MARK, full + 1, t) by { CircleFacts(s); }
    assert t.driver.ring[0] == Stamp(MARK, 1) by { SecondLap(s); }
    var u := t.(deq := 1, taken := [Stamp(MARK, 1)]);
    assert Take(t, u);
    hide Push, Inv, Pushed, Take;
    Append(full + 1, r, t);
    Append(full + 1, r + [t], u);
    run := r + [t] + [u];
    assert u.pushed[0] in s.pushed && u.taken[0] == Stamp(MARK, 1);
  }

  lemma SecondLap(s: State)
    requires Inv(s) && |s.pushed| == 2 * SLOTS
    ensures |s.driver.ring| == RING_SZ && s.driver.idx == 0 && s.driver.cycle == 1
    ensures Pushed(s.driver, MARK).ring[0] == Stamp(MARK, 1)
  {
    hide Holds, Placed, Delivered;
    Cyclic.DivUnique(2 * SLOTS, SLOTS, 2, 0);
  }

  ghost predicate Safe(limit: nat) {
    forall run: seq<State>, k: nat {:trigger IsRun(limit, run), run[k]} :: IsRun(limit, run) && k < |run| ==>
      Delivered(run[k])
  }

  /** The controller executes what was pushed, once each and in order, in every run, if and only if at most 30
      TRBs are outstanding. */
  lemma SafeExactly(limit: nat)
    ensures Safe(limit) <==> limit <= 30
  {
    hide IsRun, Delivered;
    if limit <= 2 * SLOTS {
      forall run: seq<State>, k: nat | IsRun(limit, run) && k < |run| ensures Delivered(run[k]) {
        InOrder(limit, run, k);
      }
    } else {
      var run := TwiceOverwritten();
      Loosened(2 * SLOTS + 1, limit, run);
      var k: nat := |run| - 1;
      assert !Delivered(run[k]);
    }
  }

  // ----- the event ring -----

  /** poll_event on the ring that the controller fills. */
  class EventRing {
    const ring: array<Trb>
    var idx: nat
    var cycle: nat

    constructor (ring: array<Trb>)
      requires ring.Length == EVT_SZ
      ensures this.ring == ring && idx == 0 && cycle == 1
    {
      this.ring, idx, cycle := ring, 0, 1;
    }

    /** Takes the event at the reader's place if its cycle bit is the reader's. */
    method Poll() returns (ready: bool, event: Trb)
      requires ring.Length == EVT_SZ && idx < EVT_SZ && cycle < 2
      modifies this
      ensures ready <==> CycleOf(ring[old(idx)]) == old(cycle)
      ensures ready ==> event == ring[old(idx)] && (idx, cycle) == Advanced(old(idx), old(cycle))
      ensures !ready ==> idx == old(idx) && cycle == old(cycle)
      ensures idx < EVT_SZ && cycle < 2
    {
      event := ring[idx];
      ready := event.control % 2 == cycle;
      if !ready { return; }
      idx := idx + 1;
      if idx == EVT_SZ {
        idx := 0;
        cycle := 1 - cycle;
      }
    }
  }

  function Advanced(idx: nat, cycle: nat): (nat, nat)
    requires cycle < 2
  {
    if idx + 1 == EVT_SZ then (0, 1 - cycle) else (idx + 1, cycle)
  }

  /** The controller's place and cycle, the driver's, what was posted and what was polled. */
  datatype Events = Events(ring: seq<Trb>, enq: nat, pcs: nat, idx: nat, cycle: nat, posted: seq<Trb>, polled: seq<Trb>)

  function NoEvents(): Events { Events(seq(EVT_SZ, _ => ZERO), 0, 1, 0, 1, [], []) }

  /** The controller posts while it does not run into the dequeue pointer. */
  ghost predicate Post(s: Events, t: Trb, s': Events) {
    && |s.posted| < |s.polled| + EVT_SZ && Plain(t) && s.enq < |s.ring| && s.pcs < 2
    && s' == s.(ring := s.ring[s.enq := Stamp(t, s.pcs)], enq := Advanced(s.enq, s.pcs).0,
       pcs := Advanced(s.enq, s.pcs).1, posted := s.posted + [t])
  }

  ghost predicate Poll(s: Events, s': Events) {
    && s.idx < |s.ring| && s.cycle < 2 && CycleOf(s.ring[s.idx]) == s.cycle
    && s' == s.(idx := Advanced(s.idx, s.cycle).0, cycle := Advanced(s.idx, s.cycle).1,
       polled := s.polled + [s.ring[s.idx]])
  }

  ghost predicate EventStep(s: Events, s': Events) { Poll(s, s') || exists t: Trb :: Post(s, t, s') }

  ghost predicate EventRun(run: seq<Events>) {
    |run| > 0 && run[0] == NoEvents() && forall k :: 0 <= k < |run| - 1 ==> EventStep(run[k], run[k + 1])
  }

  ghost predicate EventInv(s: Events) {
    && |s.ring| == EVT_SZ && Holds(s.ring, s.posted, EVT_SZ) && (forall t :: t in s.posted ==> Plain(t))
    && s.enq == |s.posted| % EVT_SZ && s.pcs == Lap(|s.posted|, EVT_SZ)
    && s.idx == |s.polled| % EVT_SZ && s.cycle == Lap(|s.polled|, EVT_SZ)
    && |s.polled| <= |s.posted| <= |s.polled| + EVT_SZ
    && forall k: nat :: k < |s.polled| ==> s.polled[k] == Stamp(s.posted[k], Lap(k, EVT_SZ))
  }

  lemma EventKeeps(s: Events, s': Events)
    requires EventInv(s) && EventStep(s, s')
    ensures EventInv(s')
  {
    if Poll(s, s') {
      Peeked(s.ring, s.posted, EVT_SZ, |s.polled|);
      NextSlot(|s.polled|, EVT_SZ);
      hide Stamp, Plain, Holds, Lap;
    } else {
      var t: Trb :| Post(s, t, s');
      Filled(s.ring, s.posted, EVT_SZ, t);
      NextSlot(|s.posted|, EVT_SZ);
      hide Stamp, Plain, Holds, Lap;
      assert forall x :: x in s'.posted ==> x in s.posted || x == t;
    }
  }

  /** poll_event yields exactly the posted events, once each and in order, and is ready exactly while
      one is left. */
  lemma {:induction false} EventsInOrder(run: seq<Events>, k: nat)
    requires EventRun(run) && k < |run|
    ensures EventInv(run[k])
    ensures var s := run[k]; (CycleOf(s.ring[s.idx]) == s.cycle <==> |s.polled| < |s.posted|)
  {
    if k == 0 {
      FirstLap(0, EVT_SZ);
    } else {
      EventsInOrder(run, k - 1);
      assert EventStep(run[k - 1], run[k - 1 + 1]);
      hide EventInv;
      EventKeeps(run[k - 1], run[k]);
    }
    EventReady(run[k]);
  }

  lemma EventReady(s: Events)
    requires EventInv(s)
    ensures s.idx < |s.ring| && (CycleOf(s.ring[s.idx]) == s.cycle <==> |s.polled| < |s.posted|)
  {
    Peeked(s.ring, s.posted, EVT_SZ, |s.polled|);
  }
}
