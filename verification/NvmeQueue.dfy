/** An NVMe queue pair: submission, the controller's steps, and polling by phase bit. */
module NvmeQueue {

  const CIDS: nat := 65536

  datatype Cmd = Cmd(write: bool, prp1: nat, prp2: nat, cdw10: nat, cdw11: nat, cdw12: nat)

  datatype Sqe = Sqe(cid: nat, body: Cmd)
  datatype Cqe = Cqe(cid: nat, status: nat, phase: nat)

  /** Driver: submission tail, completion head and expected phase; it waits for one command at a time.
      Controller: submission head, completion tail and its phase, and the commands it has fetched.
      `answers` pairs every completion consumed with the command submitted last. */
  datatype State = State(
    sq: seq<Sqe>, tail: nat, cq: seq<Cqe>, head: nat, phase: nat, cid: nat, waiting: bool,
    sqHead: nat, cqTail: nat, cqPhase: nat, fetched: seq<Sqe>,
    submitted: seq<Sqe>, executed: seq<Sqe>, answers: seq<(Sqe, Cqe)>)

  function Init(d: nat): State {
    State(seq(d, _ => Sqe(0, Cmd(false, 0, 0, 0, 0, 0))), 0, seq(d, _ => Cqe(0, 0, 0)), 0, 1, 0, false, 0, 0, 1, [],
      [], [], [])
  }

  function After(i: nat, d: nat): nat
    requires d > 0
  {
    (i + 1) % d
  }

  ghost predicate Formed(s: State, d: nat) {
    d >= 2 && |s.sq| == d && |s.cq| == d && s.tail < d && s.head < d && s.sqHead < d && s.cqTail < d && s.phase < 2
      && s.cqPhase < 2
  }

  datatype Event = Submit(body: Cmd) | Fetch | Complete(status: nat) | Poll | Timeout

  function Submitted(s: State, body: Cmd, d: nat): State
    requires Formed(s, d)
  {
    var c := Sqe((s.cid + 1) % CIDS, body);
    s.(sq := s.sq[s.tail := c], tail := After(s.tail, d), cid := c.cid, waiting := true, submitted := s.submitted + [c])
  }

  function Fetched(s: State, d: nat): State
    requires Formed(s, d)
  {
    s.(sqHead := After(s.sqHead, d), fetched := s.fetched + [s.sq[s.sqHead]])
  }

  function Completed(s: State, status: nat, d: nat): State
    requires Formed(s, d) && s.fetched != []
  {
    var c, next := s.fetched[0], After(s.cqTail, d);
    s.(cq := s.cq[s.cqTail := Cqe(c.cid, status, s.cqPhase)], cqTail := next,
      cqPhase := if next == 0 then 1 - s.cqPhase else s.cqPhase,
       fetched := s.fetched[1..], executed := s.executed + [c])
  }

  function Polled(s: State, d: nat): State
    requires Formed(s, d) && s.submitted != []
  {
    var next := After(s.head, d);
    s.(head := next, phase := if next == 0 then 1 - s.phase else s.phase, waiting := false,
       answers := s.answers + [(s.submitted[|s.submitted| - 1], s.cq[s.head])])
  }

  ghost predicate Step(d: nat, s: State, e: Event, s': State) {
    && Formed(s, d)
    && match e
       case Submit(body) => !s.waiting && s' == Submitted(s, body, d)
       case Fetch => s.sqHead != s.tail && s' == Fetched(s, d)
       case Complete(status) => s.fetched != [] && s' == Completed(s, status, d)
       case Poll => s.waiting && s.submitted != [] && s.cq[s.head].phase == s.phase && s' == Polled(s, d)
       case Timeout => s.waiting && s' == s.(waiting := false)
  }

  /** The phase bits: entries before `end` were posted in this lap, the others in the one before. */
  ghost predicate Phases(cq: seq<Cqe>, end: nat, phase: nat) {
    forall i: nat :: i < |cq| ==> cq[i].phase == if i < end then phase else 1 - phase
  }

  /** The command in hand: not fetched yet, being executed, or answered. */
  ghost predicate InHand(s: State, d: nat)
    requires Formed(s, d) && s.submitted != []
  {
    var c := s.submitted[|s.submitted| - 1];
    || (s.executed + [c] == s.submitted && s.fetched == [] && s.tail == After(s.sqHead, d) && s.sq[s.sqHead] == c
       && Still(s))
    || (s.executed + [c] == s.submitted && s.fetched == [c] && s.tail == s.sqHead && Still(s))
    || (s.executed == s.submitted && s.fetched == [] && s.tail == s.sqHead && Answered(s, c, d))
  }

  ghost predicate Still(s: State) { s.cqTail == s.head && s.cqPhase == s.phase && Phases(s.cq, s.head, s.phase) }

  ghost predicate Answered(s: State, c: Sqe, d: nat)
    requires Formed(s, d)
  {
    && s.cqTail == After(s.head, d) && s.cqPhase == (if s.cqTail == 0 then 1 - s.phase else s.phase)
    && Phases(s.cq, s.head + 1, s.phase) && s.cq[s.head].cid == c.cid
  }

  ghost predicate Inv(s: State, d: nat) {
    && Formed(s, d) && Matched(s)
    && if s.waiting then s.submitted != [] && InHand(s, d)
       else s.executed == s.submitted && s.fetched == [] && s.tail == s.sqHead && Still(s)
  }

  /** Every completion consumed answers the command submitted just before. */
  ghost predicate Matched(s: State) {
    forall k :: 0 <= k < |s.answers| ==> s.answers[k].0.cid == s.answers[k].1.cid
  }

  lemma AfterFacts(i: nat, d: nat)
    requires d >= 2 && i < d
    ensures After(i, d) == (if i + 1 == d then 0 else i + 1) && After(i, d) != i
  {}

  lemma StepKeeps(d: nat, s: State, e: Event, s': State)
    requires Inv(s, d) && Step(d, s, e, s') && !e.Timeout?
    ensures Inv(s', d)
  {
    AfterFacts(s.tail, d);
    AfterFacts(s.head, d);
    AfterFacts(s.sqHead, d);
    AfterFacts(s.cqTail, d);
    hide After;
    match e
    case Submit(body) =>
    case Fetch =>
    case Complete(status) =>
    case Poll =>
    case Timeout =>
  }

  ghost predicate IsRun(d: nat, run: seq<State>, events: seq<Event>) {
    && |run| == |events| + 1 && d >= 2 && run[0] == Init(d)
    && forall k :: 0 <= k < |events| ==> Step(d, run[k], events[k], run[k + 1])
  }

  lemma {:induction false} RunInv(d: nat, run: seq<State>, events: seq<Event>, k: nat)
    requires IsRun(d, run, events) && Timeout !in events && k < |run|
    ensures Inv(run[k], d)
  {
    hide Inv, Step;
    if k == 0 {
      InitInv(d);
    } else {
      RunInv(d, run, events, k - 1);
      assert events[k - 1] in events;
      StepKeeps(d, run[k - 1], events[k - 1], run[k]);
    }
  }

  lemma InitInv(d: nat)
    requires d >= 2
    ensures Inv(Init(d), d)
  {}

  /** While no poll times out: commands are executed once each in order, every completion answers the
      command just submitted, over any number of queue wraps, and while the driver waits there is a step that
      leads to its answer. */
  lemma AnswersMatch(d: nat, run: seq<State>, events: seq<Event>, k: nat)
    requires IsRun(d, run, events) && Timeout !in events && k < |run|
    ensures Matched(run[k]) && run[k].executed <= run[k].submitted
    ensures !run[k].waiting ==> run[k].executed == run[k].submitted
    ensures var s := run[k]; s.waiting && s.head < |s.cq| ==>
            s.sqHead != s.tail || s.fetched != [] || s.cq[s.head].phase == s.phase
  {
    RunInv(d, run, events, k);
    var s := run[k];
    if s.waiting { AfterFacts(s.sqHead, d); }
    hide Step, After;
  }

  /** A first command times out behind its fetch; a second is submitted. */
  lemma TimedOut(d: nat, a: Cmd, b: Cmd) returns (s1: State, s2: State, s3: State, s4: State)
    requires d >= 2
    ensures Step(d, Init(d), Submit(a), s1) && Step(d, s1, Fetch, s2) && Step(d, s2, Timeout, s3)
    ensures Step(d, s3, Submit(b), s4)
    ensures Formed(s4, d) && s4.fetched == [Sqe(1, a)] && s4.waiting && s4.submitted != [] && s4.answers == []
    ensures s4.submitted[|s4.submitted| - 1] == Sqe(2, b) && s4.head == s4.cqTail == 0 && s4.phase == s4.cqPhase == 1
  {
    AfterFacts(0, d);
    hide After;
    s1 := Submitted(Init(d), a, d);
    AfterFacts(s1.tail, d);
    s2 := Fetched(s1, d);
    s3 := s2.(waiting := false);
    s4 := Submitted(s3, b, d);
  }

  /** The completion of the first answers the second. */
  lemma LateTaken(d: nat, s4: State, a: Cmd, b: Cmd) returns (s5: State, s6: State)
    requires Formed(s4, d) && s4.fetched == [Sqe(1, a)] && s4.waiting && s4.submitted != [] && s4.answers == []
    requires s4.submitted[|s4.submitted| - 1] == Sqe(2, b) && s4.head == s4.cqTail == 0 && s4.phase == s4.cqPhase == 1
    ensures Step(d, s4, Complete(0), s5) && Step(d, s5, Poll, s6) && !Matched(s6)
  {
    hide After;
    AfterFacts(0, d);
    s5 := Completed(s4, 0, d);
    s6 := Polled(s5, d);
    assert s6.answers[0] == (Sqe(2, b), Cqe(1, 0, 1));
  }

  /** One timeout is enough to break the match: the next poll takes the late completion. */
  lemma LateAnswer(d: nat, a: Cmd, b: Cmd) returns (run: seq<State>, events: seq<Event>)
    requires d >= 2
    ensures IsRun(d, run, events) && !Matched(run[|run| - 1])
  {
    hide Step, Matched, Init;
    var s1, s2, s3, s4 := TimedOut(d, a, b);
    var s5, s6 := LateTaken(d, s4, a, b);
    run := [Init(d), s1, s2, s3, s4, s5, s6];
    events := [Submit(a), Fetch, Timeout, Submit(b), Complete(0), Poll];
  }

  ghost predicate AlwaysMatched(d: nat, timeouts: bool) {
    forall run: seq<State>, events: seq<Event>, k: nat {:trigger IsRun(d, run, events), run[k]} ::
      IsRun(d, run, events) && (timeouts || Timeout !in events) && k < |run| ==> Matched(run[k])
  }

  /** On a queue of any depth every completion answers the command just submitted, in every run, if and
      only if polls do not time out. */
  lemma MatchExactly(d: nat, timeouts: bool)
    requires d >= 2
    ensures AlwaysMatched(d, timeouts) <==> !timeouts
  {
    hide IsRun, Matched;
    if !timeouts {
      forall run: seq<State>, events: seq<Event>, k: nat | IsRun(d, run, events) && Timeout !in events && k < |run|
        ensures Matched(run[k])
      {
        AnswersMatch(d, run, events, k);
      }
    } else {
      var c := Cmd(false, 0, 0, 0, 0, 0);
      var run, events := LateAnswer(d, c, c);
      assert |run| > 0 by { RunLength(d, run, events); }
      var k: nat := |run| - 1;
      assert !Matched(run[k]);
    }
  }

  lemma RunLength(d: nat, run: seq<State>, events: seq<Event>)
    requires IsRun(d, run, events)
    ensures |run| > 0
  {}
}
