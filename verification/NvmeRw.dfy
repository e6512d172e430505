/** NVMe transfers: a request of any length equals one uninterrupted copy. */
module NvmeRw {
  import opened Basics
  import opened Blocks
  import opened NvmeQueue

  const PAGE: nat := 4096
  const BOUNCE: nat := 65536

  const DEPTH: nat := 16

  function Lba(c: Cmd): nat { c.cdw11 * 0x1_0000_0000 + c.cdw10 }
  function Count(c: Cmd): nat { c.cdw12 % 0x1_0000 + 1 }

  function PagesFor(bytes: nat): nat { (bytes + 4095) / 4096 }

  /** The pages a command names, as section 4.3 of the NVM Express base specification lays PRPs out: the
      first entry, then nothing, one more entry, or the list in memory that the second entry points to.  The
      only list there is lies at `listAddr`; any other address names no pages. */
  function PrpPages(c: Cmd, listAddr: nat, list: seq<nat>, bytes: nat): seq<nat> {
    var pages := PagesFor(bytes);
    if pages <= 1 then [c.prp1]
    else if pages == 2 then [c.prp1, c.prp2]
    else if c.prp2 == listAddr && pages - 1 <= |list| then [c.prp1] + list[..pages - 1]
    else []
  }

  // ----- the device -----

  /** One I/O queue pair with both its sides, the bounce buffer, the PRP list and the media. */
  class Drive {
    const lbaBytes: nat
    const base: nat
    const listAddr: nat
    var media: seq<Octets>
    var bounce: Octets
    var list: seq<nat>
    var queue: State

    ghost predicate Valid()
      reads this
    {
      Memory() && Inv(queue, DEPTH) && !queue.waiting
    }

    constructor (lbaBytes: nat, base: nat, listAddr: nat, media: seq<Octets>)
      requires 0 < lbaBytes <= BOUNCE && Uniform(media, lbaBytes)
      ensures Valid() && this.media == media && this.lbaBytes == lbaBytes && this.base == base
      ensures |queue.sq| == 16 && |queue.cq| == 16
    {
      this.lbaBytes, this.base, this.listAddr, this.media := lbaBytes, base, listAddr, media;
      bounce, list, queue := seq(BOUNCE, _ => 0), seq(PAGE / 8, _ => 0), Init(DEPTH);
      InitInv(DEPTH);
    }

    /** The memory side, which the controller works on while a command is under way. */
    ghost predicate Memory()
      reads this
    {
      0 < lbaBytes <= BOUNCE && |bounce| == BOUNCE && |list| == PAGE / 8 && Uniform(media, lbaBytes)
    }

    /** Every page of the bounce buffer in turn. */
    ghost predicate Consecutive(pages: seq<nat>) {
      forall k :: 0 <= k < |pages| ==> pages[k] == base + k * 4096
    }

    /** build_prp: the entries name exactly the pages of the first `bytes` bytes of the bounce buffer. */
    method BuildPrp(bytes: nat) returns (prp1: nat, prp2: nat)
      requires Valid() && 0 < bytes <= BOUNCE
      modifies this`list
      ensures Valid()
      ensures forall c: Cmd :: c.prp1 == prp1 && c.prp2 == prp2 ==>
                |PrpPages(c, listAddr, list, bytes)| == PagesFor(bytes)
                  && Consecutive(PrpPages(c, listAddr, list, bytes))
    {
      prp1 := base;
      var pages := (bytes + PAGE - 1) / PAGE;
      if pages <= 1 {
        prp2 := 0;
      } else if pages == 2 {
        prp2 := base + PAGE;
      } else {
        var i := 1;
        while i < pages
          invariant 1 <= i <= pages && |list| == PAGE / 8
          invariant forall k :: 1 <= k < i ==> list[k - 1] == base + k * PAGE
        {
          list := list[i - 1 := base + i * PAGE];
          i := i + 1;
        }
        prp2 := listAddr;
        assert forall k :: 0 <= k < pages - 1 ==> list[k] == base + (k + 1) * PAGE;
      }
    }

    /** The device's copy to memory, page by page. */
    method DmaIn(pages: seq<nat>, data: Octets)
      requires Memory() && 0 < |data| <= BOUNCE && |pages| == PagesFor(|data|) && Consecutive(pages)
      modifies this`bounce
      ensures Memory() && bounce == data + old(bounce)[|data|..]
    {
      hide PagesFor, Uniform;
      var k := 0;
      while k < |pages|
        invariant 0 <= k <= |pages| && |bounce| == BOUNCE
        invariant bounce == data[..Least(k * PAGE, |data|)] + old(bounce)[Least(k * PAGE, |data|)..]
      {
        PageBounds(k, |data|);
        var from, to, at := k * PAGE, Least((k + 1) * PAGE, |data|), pages[k] - base;
        ghost var was := bounce;
        bounce := bounce[..at] + data[from..to] + bounce[at + (to - from)..];
        Spliced(was, data, old(bounce), from, to);
        k := k + 1;
      }
      PageBounds(k, |data|);
      assert data[..|data|] == data;
    }

    /** The device's copy from memory, page by page. */
    method DmaOut(pages: seq<nat>, bytes: nat) returns (data: Octets)
      requires Memory() && 0 < bytes <= BOUNCE && |pages| == PagesFor(bytes) && Consecutive(pages)
      ensures data == bounce[..bytes]
    {
      hide PagesFor, Uniform;
      data := [];
      var k := 0;
      while k < |pages|
        invariant 0 <= k <= |pages| && data == bounce[..Least(k * PAGE, bytes)]
      {
        PageBounds(k, bytes);
        var to, at := Least((k + 1) * PAGE, bytes), pages[k] - base;
        data := data + bounce[at..at + (to - k * PAGE)];
        k := k + 1;
      }
      PageBounds(k, bytes);
    }

    /** One command: out of range fails without effect, otherwise blocks move between media and the pages
        the command names. */
    method Execute(c: Cmd) returns (status: nat)
      requires Memory() && Span(Count(c), lbaBytes) <= BOUNCE
      requires |PrpPages(c, listAddr, list, Span(Count(c), lbaBytes))| == PagesFor(Span(Count(c), lbaBytes))
      requires Consecutive(PrpPages(c, listAddr, list, Span(Count(c), lbaBytes)))
      modifies this`bounce, this`media
      ensures Memory() && (status == 0 <==> Lba(c) + Count(c) <= |old(media)|)
      ensures status != 0 ==> media == old(media) && bounce == old(bounce)
      ensures status == 0 && !c.write ==> media == old(media)
      ensures status == 0 && !c.write ==>
              bounce[..Span(Count(c), lbaBytes)] == Flat(old(media)[Lba(c)..Lba(c) + Count(c)])
      ensures status == 0 && c.write ==>
              media == Stored(old(media), Lba(c), old(bounce), lbaBytes, Count(c)) && bounce == old(bounce)
    {
      hide PrpPages, PagesFor, Span, Lba, Flat, Cut;
      var lba, n := Lba(c), Count(c);
      if lba + n > |media| { return 0x80; }
      var bytes := Span(n, lbaBytes);
      Positive(n, lbaBytes);
      var pages := PrpPages(c, listAddr, list, bytes);
      if c.write {
        var data := DmaOut(pages, bytes);
        FlatCut(data, lbaBytes, n);
        media := media[..lba] + Cut(data, lbaBytes, n) + media[lba + n..];
      } else {
        FlatLen(media[lba..lba + n], lbaBytes);
        DmaIn(pages, Flat(media[lba..lba + n]));
      }
      status := 0;
    }

    /** submit, with the controller's steps where they fall: the command goes into the queue, the controller
        fetches and executes what it finds there, and the driver takes the status from the entry whose phase
        bit it polls.  The status is the command's own, whatever laps the queues have made. */
    method Submit(c: Cmd) returns (status: nat)
      requires Valid() && Span(Count(c), lbaBytes) <= BOUNCE
      requires |PrpPages(c, listAddr, list, Span(Count(c), lbaBytes))| == PagesFor(Span(Count(c), lbaBytes))
      requires Consecutive(PrpPages(c, listAddr, list, Span(Count(c), lbaBytes)))
      modifies this`bounce, this`media, this`queue
      ensures Valid() && (status == 0 <==> Lba(c) + Count(c) <= |old(media)|)
      ensures status != 0 ==> media == old(media) && bounce == old(bounce)
      ensures status == 0 && !c.write ==> media == old(media)
      ensures status == 0 && !c.write ==>
              bounce[..Span(Count(c), lbaBytes)] == Flat(old(media)[Lba(c)..Lba(c) + Count(c)])
      ensures status == 0 && c.write ==>
              media == Stored(old(media), Lba(c), old(bounce), lbaBytes, Count(c)) && bounce == old(bounce)
      ensures queue.cid == (old(queue).cid + 1) % 65536
      ensures queue.submitted == old(queue).submitted + [Sqe(queue.cid, c)] && queue.executed == queue.submitted
      ensures queue.answers == old(queue).answers + [(Sqe(queue.cid, c), Cqe(queue.cid, status, old(queue).phase))]
    {
      hide PrpPages, PagesFor, Span, Lba, Flat, Cut, Stored, Uniform, Inv, Step, Submitted, Fetched, Completed, Polled;
      ghost var s0 := queue;
      SubmitStep(queue, c);
      queue := Submitted(queue, c, DEPTH);
      FetchStep(s0, queue, c);
      queue := Fetched(queue, DEPTH);
      status := Execute(queue.fetched[0].body);
      CompleteStep(s0, queue, c, status);
      queue := Completed(queue, status, DEPTH);
      PollStep(s0, queue, c, status);
      status := queue.cq[queue.head].status;
      queue := Polled(queue, DEPTH);
    }

    /** One chunk of nvme_rw: PRPs, the bounce copy before a write, and the command. */
    method Chunk(write: bool, lba: nat, chunk: nat, data: Octets) returns (ok: bool)
      requires Valid() && 1 <= chunk <= 65536 && Span(chunk, lbaBytes) <= BOUNCE && lba < 0x1_0000_0000_0000_0000
      requires write ==> |data| == Span(chunk, lbaBytes)
      modifies this
      ensures Valid() && (ok <==> lba + chunk <= |old(media)|)
      ensures !ok || !write ==> media == old(media)
      ensures ok && !write ==> bounce[..Span(chunk, lbaBytes)] == Flat(media[lba..lba + chunk])
      ensures ok && write ==> media == Stored(old(media), lba, data, lbaBytes, chunk)
    {
      hide PrpPages, PagesFor, Span, Flat, Cut, Uniform;
      var bytes := Span(chunk, lbaBytes);
      Positive(chunk, lbaBytes);
      var prp1, prp2 := BuildPrp(bytes);
      if write { bounce := data + bounce[bytes..]; }
      var c := Cmd(write, prp1, prp2, lba % 0x1_0000_0000, lba / 0x1_0000_0000, chunk - 1);
      CmdFields(c, lba, chunk);
      var st := Submit(c);
      assert write ==> (data + old(bounce)[bytes..])[..bytes] == data[..bytes];
      ok := st == 0;
    }

    /** nvme_rw: a transfer of any number of blocks is one uninterrupted copy; it succeeds exactly if the
        range is on the media. */
    method Rw(write: bool, lba: nat, nblk: nat, buf: Octets) returns (ok: bool, after: Octets)
      requires Valid() && |buf| == Span(nblk, lbaBytes) && lba + nblk <= 0x1_0000_0000_0000_0000
      modifies this
      ensures Valid() && |after| == |buf| && (ok <==> nblk == 0 || lba + nblk <= |old(media)|)
      ensures !write ==> media == old(media)
      ensures ok && !write && nblk > 0 ==> after == Flat(media[lba..lba + nblk])
      ensures ok && write && nblk > 0 ==> after == buf && media == Stored(old(media), lba, buf, lbaBytes, nblk)
      ensures !ok ==>
                exists done: nat ::
                  done < nblk && Progress(write, old(media), media, lba, done, buf, after, lbaBytes)
    {
      hide Stored, Flat, Progress, Uniform, Span;
      after := buf;
      assert Span(0, lbaBytes) == 0 by { SpanZero(lbaBytes); }
      var per := BOUNCE / lbaBytes;
      PerFits(lbaBytes);
      StartProgress(write, media, lba, nblk, buf, lbaBytes);
      var at, left, p := lba, nblk, 0;
      ghost var done := 0;
      while left > 0
        invariant Valid() && 0 <= left && done + left == nblk && at == lba + done && p == Span(done, lbaBytes)
        invariant |after| == |buf|
        invariant Progress(write, old(media), media, lba, done, buf, after, lbaBytes)
      {
        var chunk := if left < per then left else per;
        ChunkFits(chunk, per, left, done, nblk, lbaBytes);
        var bytes := Span(chunk, lbaBytes);
        ghost var was := media;
        ok := Chunk(write, at, chunk, after[p..p + bytes]);
        ProgressLen(write, old(media), was, lba, done, buf, after, lbaBytes);
        if !ok { return; }
        if !write {
          ReadStep(old(media), media, lba, done, chunk, buf, after, bounce[..bytes], lbaBytes);
          after := after[..p] + bounce[..bytes] + after[p + bytes..];
        } else {
          WriteStep(old(media), was, media, lba, done, chunk, buf, after, lbaBytes);
        }
        at, left, p := at + chunk, left - chunk, p + bytes;
        done := done + chunk;
      }
      assert done == nblk;
      EndProgress(write, old(media), media, lba, nblk, buf, after, lbaBytes);
      ok := true;
    }
  }

  // ----- one trip through the queue pair -----

  /** Submission: the command stands where the controller looks next. */
  lemma SubmitStep(s: State, c: Cmd)
    requires Inv(s, DEPTH) && !s.waiting
    ensures Formed(s, DEPTH) && Step(DEPTH, s, Submit(c), Submitted(s, c, DEPTH)) && Inv(Submitted(s, c, DEPTH), DEPTH)
  {
    assert Formed(s, DEPTH) && Step(DEPTH, s, Submit(c), Submitted(s, c, DEPTH));
    hide Step, Submitted, Inv;
    StepKeeps(DEPTH, s, Submit(c), Submitted(s, c, DEPTH));
  }

  lemma FetchStep(s0: State, s: State, c: Cmd)
    requires Inv(s0, DEPTH) && !s0.waiting && s == Submitted(s0, c, DEPTH) && Inv(s, DEPTH)
    ensures Formed(s, DEPTH) && Inv(Fetched(s, DEPTH), DEPTH)
    ensures Fetched(s, DEPTH).fetched == [Sqe(s.cid, c)]
  {
    AfterFacts(s0.tail, DEPTH);
    assert Step(DEPTH, s, Fetch, Fetched(s, DEPTH));
    hide Step, Inv;
    StepKeeps(DEPTH, s, Fetch, Fetched(s, DEPTH));
  }

  lemma CompleteStep(s0: State, s: State, c: Cmd, status: nat)
    requires Inv(s0, DEPTH) && !s0.waiting && s == Fetched(Submitted(s0, c, DEPTH), DEPTH) && Inv(s, DEPTH)
    ensures Formed(s, DEPTH) && s.fetched != [] && Inv(Completed(s, status, DEPTH), DEPTH)
  {
    AfterFacts(s0.tail, DEPTH);
    assert Step(DEPTH, s, Complete(status), Completed(s, status, DEPTH));
    hide Step, Inv;
    StepKeeps(DEPTH, s, Complete(status), Completed(s, status, DEPTH));
  }

  lemma PollStep(s0: State, s: State, c: Cmd, status: nat)
    requires Inv(s0, DEPTH) && !s0.waiting
    requires s == Completed(Fetched(Submitted(s0, c, DEPTH), DEPTH), status, DEPTH) && Inv(s, DEPTH)
    ensures Formed(s, DEPTH) && s.submitted == s0.submitted + [Sqe(s.cid, c)] && s.head == s0.head
    ensures s.cid == (s0.cid + 1) % 65536
    ensures s.cq[s.head] == Cqe(s.cid, status, s.phase) && s.phase == s0.phase
    ensures var e := Polled(s, DEPTH);
            && Inv(e, DEPTH) && !e.waiting && e.cid == s.cid && e.submitted == s.submitted == e.executed
            && e.answers == s0.answers + [(Sqe(s.cid, c), Cqe(s.cid, status, s0.phase))]
  {
    AfterFacts(s0.tail, DEPTH);
    assert Step(DEPTH, s, Poll, Polled(s, DEPTH));
    hide Step, Inv;
    StepKeeps(DEPTH, s, Poll, Polled(s, DEPTH));
    assert s.submitted[|s.submitted| - 1] == Sqe(s.cid, c);
  }

  /** What `done` blocks of a transfer leave in the buffer and on the media. */
  ghost predicate Progress(write: bool, before: seq<Octets>, media: seq<Octets>, lba: nat, done: nat, buf: Octets,
          after: Octets, b: nat) {
    var p := Span(done, b);
    && p <= |buf| == |after| && (done > 0 ==> lba + done <= |before|) && |media| == |before|
    && if write then after == buf && (if done == 0 then media == before else media == Stored(before, lba, buf, b, done))
       else media == before && after[p..] == buf[p..] && (done > 0 ==> after[..p] == Flat(media[lba..lba + done]))
  }

  lemma StartProgress(write: bool, media: seq<Octets>, lba: nat, nblk: nat, buf: Octets, b: nat)
    requires |buf| == Span(nblk, b)
    ensures Progress(write, media, media, lba, 0, buf, buf, b)
  {}

  lemma ProgressLen(write: bool, before: seq<Octets>, media: seq<Octets>, lba: nat, done: nat, buf: Octets,
          after: Octets, b: nat)
    requires Progress(write, before, media, lba, done, buf, after, b)
    ensures |media| == |before| && (!write ==> media == before)
  {}

  lemma ReadStep(before: seq<Octets>, media: seq<Octets>, lba: nat, done: nat, chunk: nat, buf: Octets, after: Octets,
          data: Octets, b: nat)
    requires Progress(false, before, media, lba, done, buf, after, b) && chunk > 0 && lba + done + chunk <= |media|
    requires Span(done + chunk, b) == Span(done, b) + Span(chunk, b) <= |buf| && |data| == Span(chunk, b)
    requires data == Flat(media[lba + done..lba + done + chunk])
    ensures var next := after[..Span(done, b)] + data + after[Span(done, b) + Span(chunk, b)..];
            Progress(false, before, media, lba, done + chunk, buf, next, b)
  {
    hide Flat;
    ReadOn(media, lba, done, chunk, after, buf, data, Span(done, b));
  }

  lemma WriteStep(before: seq<Octets>, was: seq<Octets>, media: seq<Octets>, lba: nat, done: nat, chunk: nat,
          buf: Octets, after: Octets, b: nat)
    requires Progress(true, before, was, lba, done, buf, after, b) && chunk > 0 && lba + done + chunk <= |was|
    requires Span(done + chunk, b) == Span(done, b) + Span(chunk, b) <= |buf|
    requires media == Stored(was, lba + done, after[Span(done, b)..Span(done, b) + Span(chunk, b)], b, chunk)
    ensures Progress(true, before, media, lba, done + chunk, buf, after, b)
  {
    WriteOn(before, lba, done, chunk, buf, b, Span(done, b));
    hide Cut;
  }

  lemma EndProgress(write: bool, before: seq<Octets>, media: seq<Octets>, lba: nat, nblk: nat, buf: Octets,
          after: Octets, b: nat)
    requires Progress(write, before, media, lba, nblk, buf, after, b) && |buf| == Span(nblk, b)
    ensures nblk > 0 ==> lba + nblk <= |before|
    ensures nblk > 0 && write ==> after == buf && media == Stored(before, lba, buf, b, nblk)
    ensures nblk > 0 && !write ==> media == before && after == Flat(media[lba..lba + nblk])
    ensures !write ==> media == before
  {
    assert after[..|buf|] == after;
  }

  lemma Positive(n: nat, b: nat)
    requires n > 0 && b > 0
    ensures Span(n, b) > 0
  {}

  lemma PageBounds(k: nat, bytes: nat)
    ensures k < PagesFor(bytes) ==> k * PAGE < bytes
    ensures k >= PagesFor(bytes) ==> k * PAGE >= bytes
  {}

  lemma Spliced(was: Octets, data: Octets, before: Octets, from: nat, to: nat)
    requires from <= to <= |data| <= |before| && was == data[..from] + before[from..]
    ensures was[..from] + data[from..to] + was[to..] == data[..to] + before[to..]
  {
    assert data[..from] + data[from..to] == data[..to];
  }

  /** The media after n blocks from the front of `bytes` are written at lba. */
  function Stored(media: seq<Octets>, lba: nat, bytes: Octets, b: nat, n: nat): seq<Octets>
    requires lba + n <= |media| && Span(n, b) <= |bytes|
  {
    media[..lba] + Cut(bytes[..Span(n, b)], b, n) + media[lba + n..]
  }

  lemma CmdFields(c: Cmd, lba: nat, chunk: nat)
    requires c.cdw10 == lba % 0x1_0000_0000 && c.cdw11 == lba / 0x1_0000_0000 && c.cdw12 == chunk - 1
    requires 1 <= chunk <= 65536
    ensures Lba(c) == lba && Count(c) == chunk
  {}

  lemma PerFits(b: nat)
    requires 0 < b <= BOUNCE
    ensures 1 <= BOUNCE / b <= 65536 && Span(BOUNCE / b, b) <= BOUNCE
  {
    assert BOUNCE == b * (BOUNCE / b) + BOUNCE % b;
  }

  lemma ChunkFits(chunk: nat, per: nat, left: nat, done: nat, nblk: nat, b: nat)
    requires chunk == (if left < per then left else per) && Span(per, b) <= BOUNCE && done + left == nblk && left > 0
    ensures Span(chunk, b) <= BOUNCE && Span(done + chunk, b) == Span(done, b) + Span(chunk, b) <= Span(nblk, b)
  {
    Distribute(done, chunk, b);
    Distribute(done + chunk, left - chunk, b);
    Distribute(chunk, per - chunk, b);
  }

  /** A chunk read at its place extends what was read before. */
  lemma ReadOn(media: seq<Octets>, lba: nat, done: nat, chunk: nat, after: Octets, buf: Octets, data: Octets, p: nat)
    requires lba + done + chunk <= |media| && data == Flat(media[lba + done..lba + done + chunk]) && |after| == |buf|
    requires p + |data| <= |buf|
    requires after[p..] == buf[p..] && (if done > 0 then after[..p] == Flat(media[lba..lba + done]) else p == 0)
    ensures var next := after[..p] + data + after[p + |data|..];
            next[..p + |data|] == Flat(media[lba..lba + done + chunk]) && next[p + |data|..] == buf[p + |data|..]
  {
    var x, y := media[lba..lba + done], media[lba + done..lba + done + chunk];
    assert media[lba..lba + done + chunk] == x + y;
    FlatConcat(x, y);
    assert done == 0 ==> x == [] && after[..p] == [];
    assert after[p + |data|..] == after[p..][|data|..] && buf[p + |data|..] == buf[p..][|data|..];
  }

  /** Writing a chunk behind what was written before. */
  lemma WriteOn(media: seq<Octets>, lba: nat, done: nat, chunk: nat, buf: Octets, b: nat, p: nat)
    requires lba + done + chunk <= |media| && p == Span(done, b) && p + Span(chunk, b) <= |buf|
    requires Span(done + chunk, b) == p + Span(chunk, b)
    ensures var before := if done == 0 then media else Stored(media, lba, buf, b, done);
            && |before| == |media|
            && Stored(before, lba + done, buf[p..p + Span(chunk, b)], b, chunk) ==
                 Stored(media, lba, buf, b, done + chunk)
  {
    hide Cut, Span, Uniform;
    var x, y := buf[..p], buf[p..p + Span(chunk, b)];
    assert buf[..Span(done + chunk, b)] == x + y;
    assert y[..Span(chunk, b)] == y;
    CutConcat(x, y, b, done, chunk);
    Overwritten(media, lba, Cut(x, b, done), Cut(y, b, chunk));
  }

  /** Two adjacent pieces written one after the other. */
  lemma Overwritten(media: seq<Octets>, at: nat, x: seq<Octets>, y: seq<Octets>)
    requires at + |x| + |y| <= |media|
    ensures var before := media[..at] + x + media[at + |x|..];
            && |before| == |media| && (x == [] ==> before == media)
            && before[..at + |x|] + y + before[at + |x| + |y|..] == media[..at] + (x + y) + media[at + |x| + |y|..]
  {
    var before := media[..at] + x + media[at + |x|..];
    assert before[..at + |x|] == media[..at] + x;
    assert before[at + |x| + |y|..] == media[at + |x| + |y|..];
  }
}
