/** The virtio receive queue: buffers going round between driver and device, in every interleaving. */
module VirtioRx {
  import opened Basics
  import Cyclic

  const WORD: nat := 65536
  const NUM_BUFS: nat := 16

  datatype Elem = Elem(id: nat, len: nat)

  /** One completed receive: descriptor, length, and what the device wrote. */
  datatype Frame = Frame(id: nat, len: nat, data: seq<nat>)

  /** Where a descriptor is: in the available ring, inside the device, in the used ring, or in the driver's
      hands between dispatch and republication.  Ring places are counted from the start. */
  datatype Place = Avail(k: nat) | Device | Used(k: nat) | Hand

  datatype Pass = Idle | Busy(delta: nat, i: nat)

  /** n is the queue size; index words are 16 bits.  `published`, `fetched`, `done` and `seen` count and
      record what ever went through each end; `at` is each descriptor's place. */
  datatype State = State(
    n: nat,
    avail: seq<nat>, availIdx: nat, used: seq<Elem>, usedIdx: nat, last: nat, devIdx: nat,
    bufs: seq<seq<nat>>, pass: Pass, hand: Option<nat>,
    published: seq<nat>, fetched: nat, done: seq<Frame>, seen: seq<Frame>, at: seq<Place>)

  // ----- the steps -----

  function Next(idx: nat): nat { (idx + 1) % WORD }

  ghost predicate Formed(s: State) {
    s.n > 0 && |s.avail| == s.n && |s.used| == s.n && |s.bufs| == |s.at| <= s.n
  }

  /** The device takes the next available descriptor. */
  ghost predicate Fetch(s: State, s': State) {
    && Formed(s) && s.devIdx != s.availIdx && var id := s.avail[s.devIdx % s.n];
       s' == s.(devIdx := Next(s.devIdx), fetched := s.fetched + 1, at := if id < |s.at| then s.at[id := Device]
         else s.at)
  }

  /** The device fills a buffer it holds and returns it, in any order. */
  ghost predicate Complete(s: State, f: Frame, s': State) {
    && Formed(s) && f.id < |s.at| && s.at[f.id] == Device
    && s' == s.(bufs := s.bufs[f.id := f.data], used := s.used[s.usedIdx % s.n := Elem(f.id, f.len)],
       usedIdx := Next(s.usedIdx),
                done := s.done + [f], at := s.at[f.id := Used(|s.done|)])
  }

  function Delta(cur: nat, was: nat): nat { (cur - was) % WORD }

  /** The pump reads the used index once. */
  ghost predicate Begin(s: State, s': State) {
    Formed(s) && s.pass == Idle && Delta(s.usedIdx, s.last) > 0 && s' == s.(pass := Busy(Delta(s.usedIdx, s.last), 0))
  }

  /** dispatch_rx of the next used element. */
  ghost predicate Dispatch(s: State, s': State) {
    && Formed(s) && s.pass.Busy? && s.pass.i < s.pass.delta && s.hand == None
    && var e := s.used[(s.last + s.pass.i) % s.n];
       && e.id < |s.at|
       && s' == s.(hand := Some(e.id), seen := s.seen + [Frame(e.id, e.len, s.bufs[e.id])], at := s.at[e.id := Hand])
  }

  /** The buffer goes back into the available ring. */
  ghost predicate Publish(s: State, s': State) {
    && Formed(s) && s.pass.Busy? && s.hand.Some? && s.hand.value < |s.at|
    && var id := s.hand.value;
       s' == s.(hand := None, pass := Busy(s.pass.delta, s.pass.i + 1), avail := s.avail[s.availIdx % s.n := id],
         availIdx := Next(s.availIdx),
                published := s.published + [id], at := s.at[id := Avail(|s.published|)])
  }

  /** The pump has handled what it counted. */
  ghost predicate End(s: State, s': State) {
    && Formed(s) && s.pass.Busy? && s.pass.i == s.pass.delta && s.hand == None
    && s' == s.(last := (s.last + s.pass.delta) % WORD, pass := Idle)
  }

  ghost predicate Step(s: State, s': State) {
    Fetch(s, s') || (exists f: Frame :: Complete(s, f, s')) || Begin(s, s') || Dispatch(s, s') || Publish(s, s')
      || End(s, s')
  }

  // ----- ownership -----

  /** Descriptor id is where `at` says, and nowhere else. */
  ghost predicate Rightly(s: State, id: nat)
    requires id < |s.at|
  {
    match s.at[id]
    case Avail(k) => s.fetched <= k < |s.published| && s.published[k] == id
    case Device => true
    case Used(k) => |s.seen| <= k < |s.done| && s.done[k].id == id
    case Hand => s.hand == Some(id)
  }

  ghost predicate Owned(s: State) {
    && (forall id: nat :: id < |s.at| ==> Rightly(s, id))
    && (forall k: nat :: s.fetched <= k < |s.published| ==> s.published[k] < |s.at| && s.at[s.published[k]] == Avail(k))
    && (forall k: nat :: |s.seen| <= k < |s.done| ==> s.done[k].id < |s.at| && s.at[s.done[k].id] == Used(k))
    && (s.hand.Some? ==> s.hand.value < |s.at| && s.at[s.hand.value] == Hand)
  }

  // ----- the rings -----

  ghost predicate RingsHold(s: State)
    requires Formed(s)
  {
    && (forall k: nat {:trigger s.published[k]} :: s.fetched <= k < |s.published| ==>
       s.avail[k % s.n] == s.published[k])
    && (forall k: nat {:trigger s.done[k]} :: |s.seen| <= k < |s.done| ==>
       s.used[k % s.n] == Elem(s.done[k].id, s.done[k].len) && s.done[k].id < |s.bufs|
       && s.bufs[s.done[k].id] == s.done[k].data)
  }

  function InHand(s: State): nat { if s.hand.Some? then 1 else 0 }

  /** Index words are the counts modulo 2^16; the pump stays within what it counted. */
  ghost predicate Counted(s: State) {
    && s.fetched <= |s.published| && |s.seen| <= |s.done|
    && s.availIdx == |s.published| % WORD && s.devIdx == s.fetched % WORD && s.usedIdx == |s.done| % WORD
    && match s.pass
       case Idle => s.hand == None && s.last == |s.seen| % WORD
       case Busy(delta, i) =>
         var gone := i + InHand(s);
         gone <= delta && gone <= |s.seen| && s.last == (|s.seen| - gone) % WORD && |s.seen| - gone + delta <= |s.done|
  }

  /** Every frame so far was dispatched once, in used-ring order, with the data the device wrote. */
  ghost predicate InOrder(s: State) {
    |s.seen| <= |s.done| && s.seen == s.done[..|s.seen|]
  }

  /** Queue sizes are powers of two up to 64, so they divide 2^16. */
  predicate SizeOk(n: nat) { 0 < n <= 64 && 65536 % n == 0 }

  ghost predicate Inv(s: State) {
    Formed(s) && SizeOk(s.n) && Owned(s) && RingsHold(s) && Counted(s) && InOrder(s)
  }

  // ----- counting -----

  lemma {:induction false} Pigeons(ids: seq<nat>, m: nat)
    requires (forall k :: 0 <= k < |ids| ==> ids[k] < m) && forall j, k :: 0 <= j < k < |ids| ==> ids[j] != ids[k]
    ensures |ids| <= m
  {
    var some := set k | 0 <= k < |ids| :: ids[k];
    DistinctSize(ids);
    UptoFacts(m);
    Subset(some, Upto(m));
  }

  function Upto(m: nat): set<nat> { if m == 0 then {} else Upto(m - 1) + {m - 1} }

  lemma {:induction false} UptoFacts(m: nat)
    ensures |Upto(m)| == m && forall i: nat :: i in Upto(m) <==> i < m
  {
    if m > 0 { UptoFacts(m - 1); }
  }

  lemma {:induction false} DistinctSize(ids: seq<nat>)
    requires forall j, k :: 0 <= j < k < |ids| ==> ids[j] != ids[k]
    ensures |set k | 0 <= k < |ids| :: ids[k]| == |ids|
  {
    if ids != [] {
      var rest := ids[..|ids| - 1];
      DistinctSize(rest);
      assert (set k | 0 <= k < |ids| :: ids[k]) == (set k | 0 <= k < |rest| :: rest[k]) + {ids[|ids| - 1]};
    }
  }

  lemma Subset(a: set<nat>, b: set<nat>)
    requires a <= b
    ensures |a| <= |b|
  {
    assert b == a + (b - a);
  }

  /** No more descriptors are in a ring than are in circulation. */
  lemma Bounded(s: State)
    requires Owned(s) && s.fetched <= |s.published| && |s.seen| <= |s.done|
    ensures |s.published| - s.fetched <= |s.at| && |s.done| - |s.seen| <= |s.at|
  {
    var a := s.published[s.fetched..];
    assert forall k :: 0 <= k < |a| ==> a[k] == s.published[s.fetched + k] && s.at[a[k]] == Avail(s.fetched + k);
    Pigeons(a, |s.at|);
    var u := seq(|s.done| - |s.seen|, k requires 0 <= k < |s.done| - |s.seen| => s.done[|s.seen| + k].id);
    assert forall k :: 0 <= k < |u| ==> u[k] == s.done[|s.seen| + k].id && s.at[u[k]] == Used(|s.seen| + k);
    Pigeons(u, |s.at|);
  }

  lemma InWord(x: nat, n: nat)
    requires SizeOk(n)
    ensures x % WORD % n == x % n
  {
    var m := WORD / n;
    assert WORD == n * m;
    var q, r := x / WORD, x % WORD;
    assert x == WORD * q + r;
    assert x == n * (m * q + r / n) + r % n by { assert r == n * (r / n) + r % n; assert WORD * q == n * (m * q); }
    Cyclic.DivUnique(x, n, m * q + r / n, r % n);
  }

  lemma AddWord(x: nat, i: nat, n: nat)
    requires SizeOk(n)
    ensures (x % WORD + i) % n == (x + i) % n
  {
    hide SizeOk;
    InWord(x % WORD + i, n);
    InWord(x + i, n);
    WordAdd(x, i);
  }

  lemma WordStep(x: nat)
    ensures Next(x % WORD) == (x + 1) % WORD
  {}

  lemma WordDelta(cur: nat, was: nat)
    requires was <= cur < was + WORD
    ensures Delta(cur % WORD, was % WORD) == cur - was
  {}

  // ----- every step keeps the invariant -----

  lemma FetchKeeps(s: State, s': State)
    requires Inv(s) && Fetch(s, s')
    ensures Inv(s')
  {
    Bounded(s);
    var k := s.fetched;
    assert k < |s.published|;
    InWord(k, s.n);
    WordStep(k);
    var id := s.published[k];
    assert s.avail[s.devIdx % s.n] == id && s.at[id] == Avail(k);
    assert s' == s.(devIdx := Next(s.devIdx), fetched := k + 1, at := s.at[id := Device]);
    hide Fetch, Formed, SizeOk;
    FetchOwned(s, s', id);
  }

  lemma FetchOwned(s: State, s': State, id: nat)
    requires Owned(s) && s.fetched < |s.published| && id == s.published[s.fetched]
    requires s' == s.(devIdx := s'.devIdx, fetched := s.fetched + 1, at := s.at[id := Device])
    ensures Owned(s')
  {
    forall x: nat | x < |s'.at| ensures Rightly(s', x) { assert Rightly(s, x); }
  }

  lemma CompleteKeeps(s: State, f: Frame, s': State)
    requires Inv(s) && Complete(s, f, s')
    ensures Inv(s')
  {
    Bounded(s);
    InWord(|s.done|, s.n);
    WordStep(|s.done|);
    CompleteOwned(s, f, s');
    CompleteRings(s, f, s');
    hide Owned, RingsHold, SizeOk;
  }

  lemma CompleteOwned(s: State, f: Frame, s': State)
    requires Owned(s) && |s.seen| <= |s.done| && Complete(s, f, s')
    ensures Owned(s')
  {
    forall x: nat | x < |s'.at| ensures Rightly(s', x) { assert Rightly(s, x); }
  }

  lemma CompleteRings(s: State, f: Frame, s': State)
    requires Inv(s) && Complete(s, f, s') && s.usedIdx % s.n == |s.done| % s.n && |s.done| - |s.seen| <= |s.at|
    ensures RingsHold(s')
  {
    var u := |s.done|;
    hide SizeOk, Counted, InOrder;
    if |s.done| - |s.seen| == |s.at| { FullUsed(s, f.id); }
    forall k: nat | |s.seen| <= k < |s'.done|
      ensures s'.used[k % s.n] == Elem(s'.done[k].id, s'.done[k].len) && s'.done[k].id < |s'.bufs|
      ensures s'.bufs[s'.done[k].id] == s'.done[k].data
    {
      if k < u {
        Cyclic.Apart(k, u, s.n);
        assert s.at[s.done[k].id] == Used(k);
      }
    }
  }

  /** A device that holds a descriptor cannot find the used ring full. */
  lemma FullUsed(s: State, id: nat)
    requires Owned(s) && |s.seen| <= |s.done| && id < |s.at| && s.at[id] == Device
    ensures |s.done| - |s.seen| < |s.at|
  {
    var u := seq(|s.done| - |s.seen|, k requires 0 <= k < |s.done| - |s.seen| => s.done[|s.seen| + k].id);
    assert forall k :: 0 <= k < |u| ==> u[k] == s.done[|s.seen| + k].id && s.at[u[k]] == Used(|s.seen| + k);
    var v := u + [id];
    Pigeons(v, |s.at|);
  }

  lemma BeginKeeps(s: State, s': State)
    requires Inv(s) && Begin(s, s')
    ensures Inv(s')
  {
    Bounded(s);
    WordDelta(|s.done|, |s.seen|);
    OwnedFrame(s, s');
    hide SizeOk, Owned;
  }

  lemma OwnedFrame(s: State, s': State)
    requires Owned(s) && s'.at == s.at && s'.published == s.published && s'.fetched == s.fetched && s'.done == s.done
    requires s'.seen == s.seen && s'.hand == s.hand
    ensures Owned(s')
  {
    forall x: nat | x < |s'.at| ensures Rightly(s', x) { assert Rightly(s, x); }
  }

  /** The element the pump reads is the next completed frame. */
  lemma NextUsed(s: State)
    requires Inv(s) && s.pass.Busy? && s.pass.i < s.pass.delta && s.hand == None
    ensures |s.seen| < |s.done|
    ensures var f := s.done[|s.seen|];
            s.used[(s.last + s.pass.i) % s.n] == Elem(f.id, f.len) && f.id < |s.at| && s.at[f.id] == Used(|s.seen|)
              && s.bufs[f.id] == f.data
  {
    var r := |s.seen|;
    AddWord(r - s.pass.i, s.pass.i, s.n);
    hide SizeOk;
    assert s.at[s.done[r].id] == Used(r);
  }

  lemma DispatchKeeps(s: State, s': State)
    requires Inv(s) && Dispatch(s, s')
    ensures Inv(s')
  {
    NextUsed(s);
    var f := s.done[|s.seen|];
    assert s' == s.(hand := Some(f.id), seen := s.seen + [f], at := s.at[f.id := Hand]);
    hide Dispatch, SizeOk;
    DispatchOwned(s, s', f);
    assert s'.seen == s.done[..|s.seen| + 1];
    hide Owned;
  }

  lemma DispatchOwned(s: State, s': State, f: Frame)
    requires Owned(s) && |s.seen| < |s.done| && f == s.done[|s.seen|] && s.hand == None
    requires s' == s.(hand := Some(f.id), seen := s.seen + [f], at := s.at[f.id := Hand])
    ensures Owned(s')
  {
    forall x: nat | x < |s'.at| ensures Rightly(s', x) { assert Rightly(s, x); }
  }

  lemma PublishKeeps(s: State, s': State)
    requires Inv(s) && Publish(s, s')
    ensures Inv(s')
  {
    Bounded(s);
    InWord(|s.published|, s.n);
    WordStep(|s.published|);
    PublishOwned(s, s', s.hand.value);
    PublishRings(s, s');
    hide Owned, RingsHold, SizeOk;
  }

  lemma PublishOwned(s: State, s': State, id: nat)
    requires Owned(s) && s.fetched <= |s.published| && s.hand == Some(id) && id < |s.at| && s'.hand == None
    requires s'.at == s.at[id := Avail(|s.published|)]
    requires s'.published == s.published + [id] && s'.fetched == s.fetched && s'.done == s.done && s'.seen == s.seen
    ensures Owned(s')
  {
    forall x: nat | x < |s'.at| ensures Rightly(s', x) { assert Rightly(s, x); }
  }

  lemma PublishRings(s: State, s': State)
    requires Inv(s) && Publish(s, s') && s.availIdx % s.n == |s.published| % s.n && s.fetched <= |s.published|
    ensures RingsHold(s')
  {
    hide SizeOk, Counted, InOrder;
    var p := |s.published|;
    FullAvail(s);
    forall k: nat | s.fetched <= k < |s'.published| ensures s'.avail[k % s.n] == s'.published[k] {
      if k < p { Cyclic.Apart(k, p, s.n); }
    }
  }

  /** A driver that holds a descriptor cannot find the available ring full. */
  lemma FullAvail(s: State)
    requires Owned(s) && s.fetched <= |s.published| && s.hand.Some? && s.hand.value < |s.at|
    ensures |s.published| - s.fetched < |s.at|
  {
    var a := s.published[s.fetched..];
    assert forall k :: 0 <= k < |a| ==> a[k] == s.published[s.fetched + k] && s.at[a[k]] == Avail(s.fetched + k);
    Pigeons(a + [s.hand.value], |s.at|);
  }

  lemma EndKeeps(s: State, s': State)
    requires Inv(s) && End(s, s')
    ensures Inv(s')
  {
    hide SizeOk, Owned, RingsHold;
    WordAdd(|s.seen| - s.pass.delta, s.pass.delta);
    OwnedFrame(s, s');
    RingsFrame(s, s');
  }

  lemma RingsFrame(s: State, s': State)
    requires Formed(s) && Formed(s') && RingsHold(s) && s' == s.(last := s'.last, pass := s'.pass)
    ensures RingsHold(s')
  {}

  lemma WordAdd(x: nat, d: nat)
    ensures (x % WORD + d) % WORD == (x + d) % WORD
  {}

  lemma StepKeeps(s: State, s': State)
    requires Inv(s) && Step(s, s')
    ensures Inv(s')
  {
    hide Inv, Fetch, Complete, Begin, Dispatch, Publish, End;
    if Fetch(s, s') {
      FetchKeeps(s, s');
    } else if f: Frame :| Complete(s, f, s') {
      CompleteKeeps(s, f, s');
    } else if Begin(s, s') {
      BeginKeeps(s, s');
    } else if Dispatch(s, s') {
      DispatchKeeps(s, s');
    } else if Publish(s, s') {
      PublishKeeps(s, s');
    } else {
      EndKeeps(s, s');
    }
  }

  // ----- runs -----

  function Circulating(n: nat): nat { if NUM_BUFS > n then n else NUM_BUFS }

  /** After queue setup and the first publications. */
  ghost predicate IsInit(s: State) {
    var m := Circulating(s.n);
    && SizeOk(s.n) && |s.avail| == s.n && |s.used| == s.n && |s.bufs| == m
    && |s.published| == m && (forall i: nat :: i < m ==> s.published[i] == i && s.avail[i] == i) && s.availIdx == m
    && s.usedIdx == 0 && s.last == 0 && s.devIdx == 0 && s.fetched == 0 && s.done == [] && s.seen == []
    && s.pass == Idle && s.hand == None && |s.at| == m && forall i: nat :: i < m ==> s.at[i] == Avail(i)
  }

  lemma InitInv(s: State)
    requires IsInit(s)
    ensures Inv(s)
  {
    var m := Circulating(s.n);
    forall x: nat | x < |s.at| ensures Rightly(s, x) {}
    assert Owned(s);
    hide Owned;
    forall k: nat | k < m ensures s.avail[k % s.n] == s.published[k] { Cyclic.DivUnique(k, s.n, 0, k); }
    assert RingsHold(s);
    hide RingsHold, SizeOk;
  }

  ghost predicate IsRun(run: seq<State>) {
    |run| > 0 && IsInit(run[0]) && forall k :: 0 <= k < |run| - 1 ==> Step(run[k], run[k + 1])
  }

  lemma {:induction false} RunInv(run: seq<State>, k: nat)
    requires IsRun(run) && k < |run|
    ensures Inv(run[k]) && |run[k].at| == |run[0].at|
  {
    hide Inv, Step, IsInit;
    if k == 0 {
      InitInv(run[0]);
    } else {
      RunInv(run, k - 1);
      assert Step(run[k - 1], run[k - 1 + 1]);
      StepKeeps(run[k - 1], run[k]);
      SameCount(run[k - 1], run[k]);
    }
  }

  lemma SameCount(s: State, s': State)
    requires Step(s, s')
    ensures |s'.at| == |s.at|
  {}

  /** In every run: each descriptor in exactly one place, their number constant, and every frame dispatched
      once, in used-ring order, with the data the device wrote, before its buffer is published again. */
  lemma FramesInOrder(run: seq<State>, k: nat)
    requires IsRun(run) && k < |run|
    ensures InOrder(run[k]) && Owned(run[k]) && |run[k].at| == if run[0].n < 16 then run[0].n else 16
  {
    RunInv(run, k);
    hide Step, Owned, RingsHold, Counted;
  }

  /** The pump never meets an element that is not a descriptor of its own. */
  lemma PumpGoesOn(s: State)
    requires Inv(s) && s.pass.Busy? && s.pass.i < s.pass.delta && s.hand == None
    ensures exists s': State :: Dispatch(s, s')
  {
    NextUsed(s);
    var e := s.used[(s.last + s.pass.i) % s.n];
    var s' := s.(hand := Some(e.id), seen := s.seen + [Frame(e.id, e.len, s.bufs[e.id])], at := s.at[e.id := Hand]);
    assert Dispatch(s, s');
  }

  // ----- the driver's code -----

  datatype Desc = Desc(addr: nat, len: nat, flags: nat, next: nat)

  const F_WRITE: nat := 2
  const BUF_TOTAL: nat := 1612

  /** The descriptors that go back into the available ring: ids beyond the queue are dropped. */
  function Kept(seen: seq<Elem>, n: nat): seq<nat> {
    if seen == [] then []
    else Kept(seen[..|seen| - 1], n) + (if seen[|seen| - 1].id < n then [seen[|seen| - 1].id] else [])
  }

  lemma KeptSnoc(seen: seq<Elem>, e: Elem, n: nat)
    ensures Kept(seen + [e], n) == if e.id < n then Kept(seen, n) + [e.id] else Kept(seen, n)
  {
    assert (seen + [e])[..|seen|] == seen;
  }

  /** With every id in the queue nothing is dropped. */
  lemma {:induction false} KeptAll(seen: seq<Elem>, n: nat)
    requires forall k :: 0 <= k < |seen| ==> seen[k].id < n
    ensures |Kept(seen, n)| == |seen| && forall k :: 0 <= k < |seen| ==> Kept(seen, n)[k] == seen[k].id
  {
    if seen != [] { KeptAll(seen[..|seen| - 1], n); }
  }

  /** What publishing the ids of `kept` from index `a` on leaves in the available ring: each slot its latest id. */
  ghost predicate Published(ring: seq<nat>, was: seq<nat>, a: nat, kept: seq<nat>) {
    && |ring| == |was| > 0
    && (forall k: nat :: k < |kept| <= k + |ring| ==> ring[Slot(a, k, |ring|)] == kept[k])
    && (forall s: nat :: s < |ring| && (forall k: nat :: k < |kept| ==> Slot(a, k, |ring|) != s) ==> ring[s] == was[s])
  }

  lemma PublishNext(ring: seq<nat>, was: seq<nat>, a: nat, kept: seq<nat>, id: nat)
    requires Published(ring, was, a, kept)
    ensures Published(ring[Slot(a, |kept|, |ring|) := id], was, a, kept + [id])
  {
    hide Slot;
    var m, all := |kept|, kept + [id];
    var next := ring[Slot(a, m, |ring|) := id];
    forall k: nat | k < |all| <= k + |ring| ensures next[Slot(a, k, |ring|)] == all[k] {
      if k < m { SlotsApart(a, k, m, |ring|); }
    }
    forall s: nat | s < |ring| && (forall k: nat :: k < |all| ==> Slot(a, k, |ring|) != s) ensures next[s] == was[s] {
      assert Slot(a, m, |ring|) != s;
    }
  }

  /** Every descriptor of `kept` points at its own buffer, the others are as they were. */
  ghost predicate Pointed(desc: seq<Desc>, was: seq<Desc>, bufs: seq<nat>, kept: seq<nat>)
    requires |bufs| == NUM_BUFS
  {
    && |desc| == |was|
    && forall id: nat :: id < |desc| ==> desc[id] == (if id in kept then Writable(bufs, id) else was[id])
  }

  function Writable(bufs: seq<nat>, id: nat): Desc
    requires |bufs| == NUM_BUFS
  {
    Desc(bufs[id % 16], 1612, 2, 0)
  }

  lemma PointNext(desc: seq<Desc>, was: seq<Desc>, bufs: seq<nat>, kept: seq<nat>, id: nat)
    requires |bufs| == NUM_BUFS && Pointed(desc, was, bufs, kept) && id < |desc|
    ensures Pointed(desc[id := Writable(bufs, id)], was, bufs, kept + [id])
  {}

  // ----- a pass of the pump as steps of the machine -----

  ghost predicate PumpStep(s: State, s': State) { Begin(s, s') || Dispatch(s, s') || Publish(s, s') || End(s, s') }

  ghost predicate PumpRun(run: seq<State>) { forall k :: 0 <= k < |run| - 1 ==> PumpStep(run[k], run[k + 1]) }

  /** The machine goes from s to t by steps of the pump alone, and dispatches the elements of `seen`. */
  ghost predicate Passed(s: State, t: State, seen: seq<Elem>) {
    && (exists run: seq<State> :: |run| > 0 && run[0] == s && run[|run| - 1] == t && PumpRun(run))
    && Inv(t) && t.pass == Idle && |t.seen| == |s.seen| + |seen| && t.seen[..|s.seen|] == s.seen && t.seen == t.done
    && forall k: nat :: k < |seen| ==> Elem(t.seen[|s.seen| + k].id, t.seen[|s.seen| + k].len) == seen[k]
  }

  /** In the middle of a pass, i elements on. */
  ghost predicate Passing(s: State, t: State, seen: seq<Elem>, i: nat)
    requires s.n > 0 && i <= |seen|
  {
    && Inv(t) && t.pass == Busy(|seen|, i) && t.hand == None && t.n == s.n && t.last == s.last
    && t.used == s.used && t.usedIdx == s.usedIdx && t.done == s.done && t.seen == s.done[..|t.seen|]
    && |t.seen| == |s.seen| + i && t.availIdx == Word(s.availIdx + i)
    && Published(t.avail, s.avail, s.availIdx, Kept(seen[..i], s.n)) && |Kept(seen[..i], s.n)| == i
  }

  lemma Longer(run: seq<State>, s: State)
    requires |run| > 0 && PumpRun(run) && PumpStep(run[|run| - 1], s)
    ensures PumpRun(run + [s])
  {
    hide PumpStep;
    var r := run + [s];
    forall k | 0 <= k < |r| - 1 ensures PumpStep(r[k], r[k + 1]) {
      assert k < |run| - 1 ==> r[k] == run[k] && r[k + 1] == run[k + 1];
    }
  }

  /** What the driver finds in the used ring, when it has counted it. */
  ghost predicate Counts(s: State, seen: seq<Elem>) {
    && Inv(s) && s.pass == Idle && |seen| < WORD && Word(s.last + |seen|) == s.usedIdx
    && forall k: nat :: k < |seen| ==> seen[k] == s.used[Slot(s.last, k, s.n)]
  }

  lemma CountIs(s: State, seen: seq<Elem>)
    requires Counts(s, seen)
    ensures |seen| == Delta(s.usedIdx, s.last) == |s.done| - |s.seen| <= s.n == |s.avail|
  {
    hide Inv;
    InvSize(s);
    IdleCounts(s);
    assert Delta(Word(s.last + |seen|), Word(s.last)) == |seen| by { WordDelta(s.last + |seen|, s.last); }
  }

  /** Between passes the counters give the frames completed and not yet seen. */
  lemma IdleCounts(s: State)
    requires Inv(s) && s.pass == Idle
    ensures Word(|s.done|) == s.usedIdx && Word(|s.seen|) == s.last && |s.done| < |s.seen| + WORD && s.hand == None
    ensures s.last < WORD && Delta(s.usedIdx, s.last) == |s.done| - |s.seen| <= s.n
  {
    Bounded(s);
    WordDelta(|s.done|, |s.seen|);
  }

  /** The next element goes through the driver's hands: dispatch, then republication. */
  lemma OneElement(t: State) returns (d: State, t': State)
    requires Inv(t) && t.pass.Busy? && t.pass.i < t.pass.delta && t.hand == None
    ensures PumpStep(t, d) && PumpStep(d, t') && Inv(t')
    ensures var e := t.used[Slot(t.last, t.pass.i, t.n)];
            && e.id < t.n && t'.pass == Busy(t.pass.delta, t.pass.i + 1) && t'.hand == None && t'.n == t.n
            && t'.last == t.last && t'.used == t.used && t'.usedIdx == t.usedIdx && t'.done == t.done
            && |t'.seen| == |t.seen| + 1 <= |t.done| && t'.availIdx == Next(t.availIdx)
            && |t.avail| == t.n && t'.avail == t.avail[t.availIdx % t.n := e.id]
  {
    NextUsed(t);
    var e := t.used[(t.last + t.pass.i) % t.n];
    d := t.(hand := Some(e.id), seen := t.seen + [Frame(e.id, e.len, t.bufs[e.id])], at := t.at[e.id := Hand]);
    t' := d.(hand := None, pass := Busy(d.pass.delta, d.pass.i + 1), avail := d.avail[d.availIdx % d.n := e.id],
      availIdx := Next(d.availIdx), published := d.published + [e.id], at := d.at[e.id := Avail(|d.published|)]);
    assert Dispatch(t, d) && Publish(d, t');
    assert |t.seen| < |t.done| && |t.at| <= t.n && |t.avail| == t.n && t.n > 0;
    hide Inv, Dispatch, Publish, Begin, End, Next;
    DispatchKeeps(t, d);
    PublishKeeps(d, t');
  }

  lemma PassOne(s: State, t: State, seen: seq<Elem>, i: nat) returns (d: State, t': State)
    requires Counts(s, seen) && i < |seen| && Passing(s, t, seen, i)
    ensures PumpStep(t, d) && PumpStep(d, t') && Passing(s, t', seen, i + 1)
  {
    hide Inv, PumpStep, Slot, Word, Next, Published, Kept, SizeOk;
    InvSize(t);
    d, t' := OneElement(t);
    var e := seen[i];
    InvOrder(t');
    assert seen[..i] + [e] == seen[..i + 1];
    KeptSnoc(seen[..i], e, s.n);
    PublishNext(t.avail, s.avail, s.availIdx, Kept(seen[..i], s.n), e.id);
    SlotWord(s.availIdx, i, s.n);
    WordNext(s.availIdx + i);
  }

  lemma InvOrder(s: State)
    requires Inv(s)
    ensures |s.seen| <= |s.done| && s.seen == s.done[..|s.seen|]
  {}

  lemma InvSize(s: State)
    requires Inv(s)
    ensures SizeOk(s.n) && s.n > 0 && |s.avail| == |s.used| == s.n
  {}

  lemma {:induction false} PassSome(s: State, seen: seq<Elem>, i: nat) returns (run: seq<State>)
    requires Counts(s, seen) && i <= |seen| && seen != []
    ensures |run| > 0 && run[0] == s && PumpRun(run) && Passing(s, run[|run| - 1], seen, i)
  {
    if i == 0 {
      var t := s.(pass := Busy(|seen|, 0));
      CountIs(s, seen);
      assert Begin(s, t);
      BeginKeeps(s, t);
      PublishedNothing(s.avail, s.availIdx, s.n);
      assert seen[..0] == [];
      run := [s, t];
    } else {
      run := PassSome(s, seen, i - 1);
      var d, t := PassOne(s, run[|run| - 1], seen, i - 1);
      hide PumpStep, Passing, Counts;
      Longer(run, d);
      Longer(run + [d], t);
      run := run + [d] + [t];
    }
  }

  /** Two rings that hold the same publications are the same. */
  lemma PublishedOnce(x: seq<nat>, y: seq<nat>, was: seq<nat>, a: nat, kept: seq<nat>)
    requires Published(x, was, a, kept) && Published(y, was, a, kept) && |kept| <= |was|
    ensures x == y
  {
    hide Slot;
    forall s: nat | s < |x| ensures x[s] == y[s] {
      if k: nat :| k < |kept| && Slot(a, k, |x|) == s { assert x[Slot(a, k, |x|)] == y[Slot(a, k, |x|)]; }
    }
  }

  /** What the driver's code does in a pass is a run of the machine. */
  lemma PassIsRun(s: State, seen: seq<Elem>, avail: seq<nat>, availIdx: nat) returns (t: State)
    requires Counts(s, seen) && availIdx == Word(s.availIdx + |Kept(seen, s.n)|)
    requires Published(avail, s.avail, s.availIdx, Kept(seen, s.n))
    ensures Passed(s, t, seen) && t.n == s.n && t.used == s.used && t.usedIdx == s.usedIdx && t.last == s.usedIdx
    ensures t.avail == avail && t.availIdx == availIdx
  {
    hide Counts, PumpStep, Published, Inv, Kept;
    CountIs(s, seen);
    if seen == [] {
      t := s;
      EmptyPass(s, avail, availIdx);
    } else {
      var run := PassSome(s, seen, |seen|);
      var u := run[|run| - 1];
      t := u.(last := (u.last + |seen|) % WORD, pass := Idle);
      assert seen[..|seen|] == seen;
      PassEnds(s, u, t, seen);
      PublishedOnce(avail, u.avail, s.avail, s.availIdx, Kept(seen, s.n));
      Longer(run, t);
      var r := run + [t];
      assert r[0] == s && r[|r| - 1] == t;
    }
  }

  lemma PassEnds(s: State, u: State, t: State, seen: seq<Elem>)
    requires Counts(s, seen) && Passing(s, u, seen, |seen|) && |seen| == |s.done| - |s.seen|
    requires t == u.(last := (u.last + |seen|) % WORD, pass := Idle)
    ensures PumpStep(u, t) && Inv(t) && t.last == s.usedIdx && t.seen == t.done == s.done
    ensures |s.seen| <= |t.seen| && t.seen[..|s.seen|] == s.seen
    ensures forall k: nat :: k < |seen| ==> Elem(t.seen[|s.seen| + k].id, t.seen[|s.seen| + k].len) == seen[k]
  {
    SeenMatch(s, seen);
    InvOrder(s);
    assert Formed(u);
    assert End(u, t);
    EndKeeps(u, t);
    hide Inv, Published, Kept, Begin, Dispatch, Publish;
  }

  lemma EmptyPass(s: State, avail: seq<nat>, availIdx: nat)
    requires Counts(s, []) && |s.done| == |s.seen| && availIdx == Word(s.availIdx + |Kept([], s.n)|)
    requires Published(avail, s.avail, s.availIdx, Kept([], s.n))
    ensures Passed(s, s, []) && s.last == s.usedIdx && avail == s.avail && availIdx == s.availIdx
  {
    var run := [s];
    assert run[0] == s && run[|run| - 1] == s && PumpRun(run);
    InvOrder(s);
    InvSize(s);
    WordSmall(s.last);
    assert s.availIdx < WORD;
    hide Inv, Slot;
    PublishedNothing(s.avail, s.availIdx, s.n);
    PublishedOnce(avail, s.avail, s.avail, s.availIdx, []);
  }

  /** The elements counted are the frames completed. */
  lemma SeenMatch(s: State, seen: seq<Elem>)
    requires Counts(s, seen) && |seen| == |s.done| - |s.seen|
    ensures forall k: nat :: k < |seen| ==> Elem(s.done[|s.seen| + k].id, s.done[|s.seen| + k].len) == seen[k]
  {
    forall k: nat | k < |seen| ensures Elem(s.done[|s.seen| + k].id, s.done[|s.seen| + k].len) == seen[k] {
      AddWord(|s.seen|, k, s.n);
      assert s.used[(|s.seen| + k) % s.n] == Elem(s.done[|s.seen| + k].id, s.done[|s.seen| + k].len);
    }
  }

  class Queue {
    const n: nat
    const bufs: seq<nat>
    const desc: array<Desc>
    const avail: array<nat>
    const used: array<Elem>
    var availIdx: nat
    var usedIdx: nat
    var last: nat

    ghost predicate Valid()
      reads this, avail, used, desc
    {
      && SizeOk(n) && |bufs| == NUM_BUFS && desc.Length == n && avail.Length == n && used.Length == n
      && availIdx < WORD && usedIdx < WORD && last < WORD
    }

    constructor (n: nat, bufs: seq<nat>)
      requires SizeOk(n) && |bufs| == NUM_BUFS
      ensures Valid() && this.n == n && this.bufs == bufs && availIdx == 0 && usedIdx == 0 && last == 0
      ensures fresh(avail) && fresh(used) && fresh(desc)
    {
      this.n, this.bufs := n, bufs;
      desc, avail, used := new Desc[n](_ => Desc(0, 0, 0, 0)), new nat[n], new Elem[n](_ => Elem(0, 0));
      availIdx, usedIdx, last := 0, 0, 0;
    }

    /** canboot_virtq_publish_writable: the descriptor points at the buffer, the id enters the ring, then the
        index moves. */
    method PublishWritable(id: nat, addr: nat, len: nat)
      requires Valid()
      modifies this`availIdx, avail, desc
      ensures Valid()
      ensures id >= n ==> availIdx == old(availIdx) && avail[..] == old(avail[..]) && desc[..] == old(desc[..])
      ensures id < n ==> availIdx == Next(old(availIdx)) && avail[..] == old(avail[..])[old(availIdx) % n := id]
      ensures id < n ==> desc[..] == old(desc[..])[id := Desc(addr, len, 2, 0)]
    {
      if id >= n { return; }
      desc[id] := Desc(addr, len, F_WRITE, 0);
      avail[availIdx % n] := id;
      availIdx := (availIdx + 1) % WORD;
    }

    /** canboot_virtq_used_advance: when the index words stand for `done` elements completed and `seen` handled,
        less than 2^16 apart, exactly the difference. */
    method UsedAdvance() returns (delta: nat)
      requires Valid()
      ensures delta < 65536 && Word(last + delta) == usedIdx == (last + delta) % 65536
      ensures forall done: nat, seen: nat ::
                Word(done) == usedIdx && Word(seen) == last && seen <= done < seen + 65536 ==> delta == done - seen
    {
      delta := (usedIdx + WORD - last) % WORD;
      forall done: nat, seen: nat | Word(done) == usedIdx && Word(seen) == last && seen <= done < seen + WORD
        ensures delta == done - seen
      {
        WordDelta(done, seen);
      }
    }

    /** The rings and counters are those of the machine. */
    ghost predicate Shows(s: State)
      reads this, avail, used
    {
      && s.n == n && s.avail == avail[..] && s.availIdx == availIdx
      && s.used == used[..] && s.usedIdx == usedIdx && s.last == last
    }

    /** What the pump has done with the elements seen so far. */
    ghost predicate Pumped(seen: seq<Elem>, a: nat, ring: seq<nat>, descs: seq<Desc>)
      reads this, avail, used, desc
    {
      && Valid() && (forall k: nat :: k < |seen| ==> seen[k] == used[Slot(last, k, n)])
      && availIdx == Word(a + |Kept(seen, n)|) && Published(avail[..], ring, a, Kept(seen, n))
      && Pointed(desc[..], descs, bufs, Kept(seen, n))
    }

    /** One round of the pump: the next element is seen, and its descriptor republished if it is one. */
    method PumpOne(seen: seq<Elem>, ghost a: nat, ghost ring: seq<nat>,
            ghost descs: seq<Desc>) returns (more: seq<Elem>)
      requires Pumped(seen, a, ring, descs)
      modifies this`availIdx, avail, desc
      ensures Pumped(more, a, ring, descs) && |more| == |seen| + 1
    {
      hide SizeOk, Slot, Word, Next, Published, Kept, Pointed, Writable;
      assert n > 0 by { SizePositive(n); }
      var e := used[Slot(last, |seen|, n)];
      KeptSnoc(seen, e, n);
      SlotWord(a, |Kept(seen, n)|, n);
      ghost var was, ds := avail[..], desc[..];
      more := seen + [e];
      if e.id < n {
        PublishWritable(e.id, bufs[e.id % NUM_BUFS], BUF_TOTAL);
        PublishNext(was, ring, a, Kept(seen, n), e.id);
        PointNext(ds, descs, bufs, Kept(seen, n), e.id);
        assert Writable(bufs, e.id) == Desc(bufs[e.id % NUM_BUFS], BUF_TOTAL, F_WRITE, 0) by { WritableIs(bufs, e.id); }
        WordNext(a + |Kept(seen, n)|);
      }
    }

    /** The receive half of the pump, while the device is quiet: every new element in order, and each of its
        descriptors back in the available ring with its own buffer; an id beyond the queue is dropped.  Whatever
        state of the machine the queue shows before, the pass is a run of the machine's pump steps. */
    method Pump() returns (seen: seq<Elem>)
      requires Valid()
      modifies this`availIdx, this`last, avail, desc
      ensures Valid() && last == usedIdx
      ensures |seen| < WORD && Word(old(last) + |seen|) == usedIdx
      ensures forall i: nat :: i < |seen| ==> seen[i] == used[Slot(old(last), i, n)]
      ensures availIdx == Word(old(availIdx) + |Kept(seen, n)|)
      ensures Published(avail[..], old(avail[..]), old(availIdx), Kept(seen, n))
      ensures Pointed(desc[..], old(desc[..]), bufs, Kept(seen, n))
      ensures forall s: State :: old(Shows(s)) && Inv(s) && s.pass == Idle ==>
                exists t: State :: Passed(s, t, seen) && Shows(t)
    {
      hide SizeOk, Slot, Word, Next, Published, Kept, Pointed, Inv, Passed;
      assert n > 0 by { SizePositive(n); }
      var delta := UsedAdvance();
      seen := [];
      PublishedNothing(avail[..], availIdx, n);
      PointedNothing(desc[..], bufs);
      while |seen| < delta
        invariant |seen| <= delta && last == old(last)
        invariant Pumped(seen, old(availIdx), old(avail[..]), old(desc[..]))
      {
        seen := PumpOne(seen, old(availIdx), old(avail[..]), old(desc[..]));
      }
      assert |seen| == delta;
      if delta > 0 {
        last := Word(last + delta);
      } else {
        WordSmall(last);
        assert last + delta == last;
      }
      forall s: State | old(Shows(s)) && Inv(s) && s.pass == Idle
        ensures exists t: State :: Passed(s, t, seen) && Shows(t)
      {
        var t := PassIsRun(s, seen, avail[..], availIdx);
      }
    }
  }

  lemma WritableIs(bufs: seq<nat>, id: nat)
    requires |bufs| == NUM_BUFS
    ensures Writable(bufs, id) == Desc(bufs[id % NUM_BUFS], BUF_TOTAL, F_WRITE, 0)
  {}

  lemma PointedNothing(descs: seq<Desc>, bufs: seq<nat>)
    requires |bufs| == NUM_BUFS
    ensures Pointed(descs, descs, bufs, [])
  {}

  lemma PublishedNothing(was: seq<nat>, a: nat, n: nat)
    requires |was| == n > 0 && a < WORD
    ensures Published(was, was, a, Kept([], n)) && Word(a + |Kept([], n)|) == a && Kept([], n) == []
  {
    hide Slot;
  }

  function Word(x: nat): (w: nat)
    ensures w < WORD
  {
    x % WORD
  }

  lemma WordNext(x: nat)
    ensures Next(Word(x)) == Word(x + 1)
  {}

  lemma WordSmall(x: nat)
    requires x < WORD
    ensures Word(x) == x
  {}

  lemma SizePositive(n: nat)
    requires SizeOk(n)
    ensures n > 0
  {}

  function Slot(base: nat, i: nat, n: nat): (k: nat)
    requires n > 0
    ensures k < n
  {
    (base + i) % n
  }

  lemma SlotsApart(a: nat, k: nat, i: nat, n: nat)
    requires n > 0 && k < i < k + n
    ensures Slot(a, k, n) != Slot(a, i, n)
  {
    Cyclic.Apart(a + k, a + i, n);
  }

  lemma SlotWord(a: nat, i: nat, n: nat)
    requires SizeOk(n)
    ensures Word(a + i) % n == Slot(a, i, n)
  {
    InWord(a + i, n);
  }

}
