/** The receive pump with the device at work between any two of its steps. */
module VirtioPump {
  import opened Basics
  import opened VirtioRx

  /** The machine goes from s to t. */
  ghost predicate Leads(s: State, t: State) {
    exists run: seq<State> :: Ends(run, s, t) && forall k :: 0 <= k < |run| - 1 ==> Step(run[k], run[k + 1])
  }

  predicate Ends(run: seq<State>, s: State, t: State) { |run| > 0 && run[0] == s && run[|run| - 1] == t }

  lemma LeadsHere(s: State)
    ensures Leads(s, s)
  {
    assert Ends([s], s, s);
  }

  lemma LeadsOn(s: State, t: State, u: State)
    requires Leads(s, t) && Step(t, u)
    ensures Leads(s, u)
  {
    hide Step;
    var run: seq<State> :| Ends(run, s, t) && forall k :: 0 <= k < |run| - 1 ==> Step(run[k], run[k + 1]);
    var r := run + [u];
    assert Ends(r, s, u);
    forall k | 0 <= k < |r| - 1 ensures Step(r[k], r[k + 1]) {
      assert k < |run| - 1 ==> r[k] == run[k] && r[k + 1] == run[k + 1];
    }
  }

  /** A queue in memory and the machine that it is part of. */
  class System {
    const q: Queue
    var s: State

    ghost predicate Valid()
      reads this, q, q.avail, q.used, q.desc
    {
      q.Valid() && q.Shows(s) && Inv(s) && Pointing()
    }

    /** Every descriptor in circulation points at its own buffer. */
    ghost predicate Pointing()
      reads this, q, q.avail, q.used, q.desc
      requires q.Valid()
    {
      forall id: nat :: id < |s.at| && id < q.n ==> q.desc[id] == Writable(q.bufs, id)
    }

    /** The system has come from `was` by steps of the machine. */
    ghost predicate After(was: State)
      reads this, q, q.avail, q.used, q.desc
    {
      Valid() && Leads(was, s)
    }

    constructor (q: Queue, s: State)
      requires q.Valid() && q.Shows(s) && Inv(s)
      requires forall id: nat :: id < |s.at| && id < q.n ==> q.desc[id] == Writable(q.bufs, id)
      ensures this.q == q && this.s == s && Valid()
    {
      this.q, this.s := q, s;
    }

    /** The device does something, or nothing. */
    method DeviceStep(ghost was: State)
      requires After(was)
      modifies this`s, q`usedIdx, q.used
      ensures After(was) && SameDriver(old(s), s)
    {
      hide Inv, Leads, Fetch, Complete, Begin, Dispatch, Publish, End;
      MachineFacts(s);
      var fetch: bool, f: Frame := *, *;
      if fetch {
        if s.devIdx != s.availIdx {
          ghost var t := s;
          var id := s.avail[s.devIdx % s.n];
          s := s.(devIdx := Next(s.devIdx), fetched := s.fetched + 1, at := if id < |s.at| then s.at[id := Place.Device]
                    else s.at);
          FetchIs(t, s);
          StepKeeps(t, s);
          LeadsOn(was, t, s);
        }
      } else if f.id < |s.at| && s.at[f.id] == Place.Device {
        ghost var t := s;
        q.used[q.usedIdx % q.n] := Elem(f.id, f.len);
        q.usedIdx := Next(q.usedIdx);
        s := s.(bufs := s.bufs[f.id := f.data], used := s.used[s.usedIdx % s.n := Elem(f.id, f.len)],
          usedIdx := Next(s.usedIdx), done := s.done + [f], at := s.at[f.id := Place.Used(|s.done|)]);
        CompleteIs(t, f, s);
        StepKeeps(t, s);
        LeadsOn(was, t, s);
      }
    }

    /** Any number of steps of the device. */
    method Meanwhile(ghost was: State)
      requires After(was)
      modifies this`s, q`usedIdx, q.used
      ensures After(was) && SameDriver(old(s), s)
    {
      hide Inv, Leads;
      var n: nat := *;
      while n > 0
        invariant After(was) && SameDriver(old(s), s)
      {
        DeviceStep(was);
        n := n - 1;
      }
    }

    /** One round: the next element is dispatched, and its buffer published again. */
    method Round(ghost was: State) returns (e: Elem)
      requires After(was) && s.pass.Busy? && s.pass.i < s.pass.delta && s.hand == None
      modifies this`s, q`availIdx, q`usedIdx, q.avail, q.used, q.desc
      ensures After(was) && s.pass == Busy(old(s.pass).delta, old(s.pass).i + 1) && s.hand == None
      ensures old(s.seen) <= s.seen
      ensures |s.seen| == |old(s.seen)| + 1 && IsElem(s.seen, |old(s.seen)|, e)
    {
      hide Inv, Leads, Fetch, Complete, Begin, Dispatch, Publish, End, Next, SizeOk;
      Meanwhile(was);
      MachineFacts(s);
      NextUsed(s);
      ghost var t := s;
      e := q.used[(q.last + s.pass.i) % q.n];
      s := s.(hand := Some(e.id), seen := s.seen + [Frame(e.id, e.len, s.bufs[e.id])], at := s.at[e.id := Hand]);
      DispatchIs(t, s);
      StepKeeps(t, s);
      LeadsOn(was, t, s);
      Meanwhile(was);
      MachineFacts(s);
      t := s;
      WritableIs(q.bufs, e.id);
      q.PublishWritable(e.id, q.bufs[e.id % NUM_BUFS], BUF_TOTAL);
      s := s.(hand := None, pass := Busy(s.pass.delta, s.pass.i + 1), avail := s.avail[s.availIdx % s.n := e.id],
        availIdx := Next(s.availIdx), published := s.published + [e.id], at := s.at[e.id := Avail(|s.published|)]);
      PublishIs(t, s);
      StepKeeps(t, s);
      LeadsOn(was, t, s);
      MachineFacts(s);
    }

    /** The used index is read once. */
    method BeginPass(ghost was: State) returns (delta: nat)
      requires After(was) && s.pass == Idle
      modifies this`s
      ensures After(was) && delta == |s.done| - |s.seen| && s.seen == old(s.seen) && s.done == old(s.done)
      ensures if delta == 0 then s == old(s) else s.pass == Busy(delta, 0) && s.hand == None
    {
      hide Inv, Leads, Begin, End, Step, Delta, Word;
      MachineFacts(s);
      IdleCounts(s);
      delta := q.UsedAdvance();
      if delta == 0 { return; }
      ghost var t := s;
      s := s.(pass := Busy(delta, 0));
      BeginIs(t, s);
      StepKeeps(t, s);
      LeadsOn(was, t, s);
    }

    method Rounds(ghost was: State, delta: nat) returns (seen: seq<Elem>)
      requires After(was) && s.pass == Busy(delta, 0) && s.hand == None
      modifies this`s, q`availIdx, q`usedIdx, q.avail, q.used, q.desc
      ensures After(was) && s.pass == Busy(delta, delta) && s.hand == None && |seen| == delta
      ensures |s.seen| == |old(s.seen)| + delta && old(s.seen) <= s.seen
      ensures forall k :: 0 <= k < |seen| ==> IsElem(s.seen, |old(s.seen)| + k, seen[k])
    {
      hide After, IsElem;
      seen := [];
      ghost var before := s.seen;
      while |seen| < delta
        invariant After(was) && s.pass == Busy(delta, |seen|) && s.hand == None && |seen| <= delta
        invariant |s.seen| == |before| + |seen| && before <= s.seen
        invariant forall k :: 0 <= k < |seen| ==> IsElem(s.seen, |before| + k, seen[k])
      {
        ghost var b := s.seen;
        var e := Round(was);
        SeenGrows(b, s.seen, |before|, seen, e);
        seen := seen + [e];
      }
    }

    method EndPass(ghost was: State, delta: nat)
      requires After(was) && s.pass == Busy(delta, delta) && s.hand == None
      modifies this`s, q`last, q`usedIdx, q.used
      ensures After(was) && s.pass == Idle && s.seen == old(s.seen)
    {
      hide Inv, Leads, Begin, End, Step, Delta, Word;
      Meanwhile(was);
      MachineFacts(s);
      ghost var t := s;
      q.last := (q.last + delta) % WORD;
      s := s.(last := (s.last + delta) % WORD, pass := Idle);
      EndIs(t, s);
      StepKeeps(t, s);
      LeadsOn(was, t, s);
    }

    /** The receive half of the pump.  Whatever the device does meanwhile, the pass is a run of the machine; it hands
        over, in order, at least every frame that was complete when it began. */
    method Pump() returns (seen: seq<Elem>)
      requires Valid() && s.pass == Idle
      modifies this`s, q`availIdx, q`usedIdx, q`last, q.avail, q.used, q.desc
      ensures After(old(s)) && s.pass == Idle
      ensures |s.seen| == |old(s.seen)| + |seen| && |old(s.done)| <= |s.seen| && old(s.seen) <= s.seen
      ensures forall k :: 0 <= k < |seen| ==> IsElem(s.seen, |old(s.seen)| + k, seen[k])
    {
      ghost var was := s;
      LeadsHere(s);
      assert After(was);
      MachineFacts(s);
      hide Inv, After, IsElem, Formed, Valid;
      seen := [];
      Meanwhile(was);
      var delta := BeginPass(was);
      if delta == 0 { return; }
      seen := Rounds(was, delta);
      EndPass(was, delta);
    }
  }

  predicate IsElem(frames: seq<Frame>, k: nat, e: Elem) { k < |frames| && Elem(frames[k].id, frames[k].len) == e }

  lemma SeenGrows(b: seq<Frame>, a: seq<Frame>, from: nat, seen: seq<Elem>, e: Elem)
    requires |b| == from + |seen| && |a| == |b| + 1 && b <= a && IsElem(a, |b|, e)
    requires forall k :: 0 <= k < |seen| ==> IsElem(b, from + k, seen[k])
    ensures forall k :: 0 <= k < |seen + [e]| ==> IsElem(a, from + k, (seen + [e])[k])
  {
    forall k | 0 <= k < |seen + [e]| ensures IsElem(a, from + k, (seen + [e])[k]) {
      if k < |seen| { assert IsElem(b, from + k, seen[k]); }
    }
  }

  lemma BeginIs(s: State, t: State)
    requires Formed(s) && s.pass == Idle && Delta(s.usedIdx, s.last) > 0
    requires t == s.(pass := Busy(Delta(s.usedIdx, s.last), 0))
    ensures Step(s, t)
  {}

  lemma EndIs(s: State, t: State)
    requires Formed(s) && s.pass.Busy? && s.pass.i == s.pass.delta && s.hand == None
    requires t == s.(last := (s.last + s.pass.delta) % WORD, pass := Idle)
    ensures Step(s, t)
  {}

  /** What the device leaves alone. */
  ghost predicate SameDriver(s: State, t: State) {
    && t.n == s.n && t.pass == s.pass && t.hand == s.hand && t.seen == s.seen && t.last == s.last
    && t.avail == s.avail && t.availIdx == s.availIdx && t.published == s.published && |t.at| == |s.at|
    && s.done <= t.done
  }

  lemma MachineFacts(s: State)
    requires Inv(s)
    ensures Formed(s) && |s.seen| <= |s.done| && s.seen == s.done[..|s.seen|]
    ensures s.hand.Some? ==> s.hand.value < |s.at|
  {}

  lemma FetchIs(s: State, t: State)
    requires Formed(s) && s.devIdx != s.availIdx
    requires var id := s.avail[s.devIdx % s.n];
             t == s.(devIdx := Next(s.devIdx), fetched := s.fetched + 1,
                     at := if id < |s.at| then s.at[id := Place.Device] else s.at)
    ensures Step(s, t)
  {}

  lemma CompleteIs(s: State, f: Frame, t: State)
    requires Formed(s) && f.id < |s.at| && s.at[f.id] == Place.Device
    requires t == s.(bufs := s.bufs[f.id := f.data], used := s.used[s.usedIdx % s.n := Elem(f.id, f.len)],
                     usedIdx := Next(s.usedIdx), done := s.done + [f], at := s.at[f.id := Place.Used(|s.done|)])
    ensures Step(s, t)
  {
    assert Complete(s, f, t);
  }

  lemma DispatchIs(s: State, t: State)
    requires Formed(s) && s.pass.Busy? && s.pass.i < s.pass.delta && s.hand == None
    requires var e := s.used[(s.last + s.pass.i) % s.n];
             && e.id < |s.at|
             && t == s.(hand := Some(e.id), seen := s.seen + [Frame(e.id, e.len, s.bufs[e.id])],
                        at := s.at[e.id := Hand])
    ensures Step(s, t)
  {}

  lemma PublishIs(s: State, t: State)
    requires Formed(s) && s.pass.Busy? && s.hand.Some? && s.hand.value < |s.at|
    requires var id := s.hand.value;
             t == s.(hand := None, pass := Busy(s.pass.delta, s.pass.i + 1), avail := s.avail[s.availIdx % s.n := id],
                     availIdx := Next(s.availIdx), published := s.published + [id],
                     at := s.at[id := Avail(|s.published|)])
    ensures Step(s, t)
  {}
}
