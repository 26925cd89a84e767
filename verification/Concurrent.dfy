/** The tiered store as a concurrent step system. Any number of threads interleave; an apply is a hot store
    followed by a send, a read is a hot load followed, on a miss, by a cold read. One background writer drains
    the queue. A run is one process, started on whatever log it replayed; what crashes leave to the next process is
    in Recovery. */
module Concurrent {
  import opened Base
  import opened Addressing
  import opened ColumnStore
  import opened Tiers

  datatype Phase =
    | Idle
    | Storing(record: SignedRecord)
    | Sending(record: SignedRecord)
    | Loading(hash: Hash32)
    | Missed(hash: Hash32)
    | Answered(hash: Hash32, answer: Option<SignedRecord>)

  /** `base` is the number of log entries replayed at the start. */
  datatype State = State(
    tier: Tier,
    threads: map<nat, Phase>,
    base: nat,
    refused: seq<Command>,
    hits: nat,
    misses: nat)

  datatype Label =
    | BeginApply(t: nat, record: SignedRecord)
    | Store(t: nat, record: SignedRecord)
    | Send(t: nat, record: SignedRecord, accepted: bool)
    | BeginGet(t: nat, hash: Hash32)
    | HotLoad(t: nat, hash: Hash32)
    | ColdRead(t: nat, hash: Hash32)
    | Drain

  function PhaseOf(s: State, t: nat): Phase {
    if t in s.threads then s.threads[t] else Idle
  }

  predicate AtRest(p: Phase) {
    p.Idle? || p.Answered?
  }

  predicate Enabled(cfg: Config, s: State, l: Label) {
    match l
    case BeginApply(t, _) => AtRest(PhaseOf(s, t))
    case Store(t, r) => PhaseOf(s, t) == Storing(r)
    case Send(t, r, accepted) => PhaseOf(s, t) == Sending(r) && (accepted ==> |s.tier.queue| < cfg.bound)
    case BeginGet(t, _) => AtRest(PhaseOf(s, t))
    case HotLoad(t, h) => PhaseOf(s, t) == Loading(h)
    case ColdRead(t, h) => PhaseOf(s, t) == Missed(h)
    case Drain => s.tier.queue != []
  }

  function Next(cfg: Config, s: State, l: Label): State
    requires Shaped(cfg, s.tier) && Enabled(cfg, s, l)
  {
    match l
    case BeginApply(t, r) => s.(threads := s.threads[t := Storing(r)])
    case Store(t, r) => s.(tier := StoreHot(cfg, s.tier, r), threads := s.threads[t := Sending(r)])
    case Send(t, r, accepted) =>
      s.(tier := TrySend(s.tier, CommandOf(cfg, r), accepted),
         threads := s.threads[t := Idle],
         refused := if accepted then s.refused else s.refused + [CommandOf(cfg, r)])
    case BeginGet(t, h) => s.(threads := s.threads[t := Loading(h)])
    case HotLoad(t, h) =>
      var hit := HotLookup(cfg, s.tier.hot, h);
      if hit.Some? then s.(threads := s.threads[t := Answered(h, hit)], hits := s.hits + 1)
      else s.(threads := s.threads[t := Missed(h)], misses := s.misses + 1)
    case ColdRead(t, h) =>
      var answer := ColdRecord(s.tier.rows, EntityId(cfg.hashers, h));
      s.(threads := s.threads[t := Answered(h, answer)])
    case Drain => s.(tier := DrainOne(s.tier))
  }

  /** A process that has just replayed `log`. */
  function Fresh(cfg: Config, log: seq<Command>): State {
    State(Opened(cfg, log), map[], |log|, [], 0, 0)
  }

  /** A finite execution: states[i] steps to states[i + 1] by labels[i]. */
  datatype Run = Run(states: seq<State>, labels: seq<Label>)

  predicate Step(cfg: Config, s: State, l: Label, s': State) {
    Shaped(cfg, s.tier) && Enabled(cfg, s, l) && s' == Next(cfg, s, l)
  }

  ghost predicate IsRun(cfg: Config, run: Run) {
    && |run.states| == |run.labels| + 1
    && run.states[0] == Fresh(cfg, run.states[0].tier.log)
    && forall i :: 0 <= i < |run.labels| ==> StepAt(cfg, run, i)
  }

  predicate StepAt(cfg: Config, run: Run, i: nat)
    requires i < |run.labels| < |run.states|
  {
    Step(cfg, run.states[i], run.labels[i], run.states[i + 1])
  }

  // --- Invariant of every reachable state ---

  ghost predicate Inv(cfg: Config, s: State) {
    && TierInv(cfg, s.tier, s.base)
    && |s.tier.queue| <= cfg.bound
    && (forall t :: t in s.threads && s.threads[t].Sending? ==>
          SlotFilled(cfg, s.tier, IdOf(cfg, s.threads[t].record)))
  }

  lemma StepKeepsInv(cfg: Config, s: State, l: Label, s': State)
    requires Inv(cfg, s) && Step(cfg, s, l, s')
    ensures Inv(cfg, s')
  {
    match l
    case Store(t, r) => StoreKeepsInv(cfg, s.tier, s.base, r);
    case Send(t, r, accepted) => SendKeepsInv(cfg, s.tier, s.base, CommandOf(cfg, r), accepted);
    case Drain => DrainKeepsInv(cfg, s.tier, s.base);
    case _ =>
  }

  /** Every state of every run keeps the invariant: rows are the replay of the log, every command sent by this
      process belongs to a filled slot, and the queue respects its bound. */
  lemma {:induction false} RunKeepsInv(cfg: Config, run: Run, n: nat)
    requires IsRun(cfg, run) && n <= |run.labels|
    ensures Inv(cfg, run.states[n])
  {
    if n == 0 {
      OpenedInv(cfg, run.states[0].tier.log);
    } else {
      RunKeepsInv(cfg, run, n - 1);
      assert StepAt(cfg, run, n - 1);
      StepKeepsInv(cfg, run.states[n - 1], run.labels[n - 1], run.states[n]);
    }
  }

  // --- What the labels alone determine ---

  /** The last record stored into slot `p`. */
  function LastStored(cfg: Config, labels: seq<Label>, p: nat): Option<SignedRecord> {
    if labels == [] then None
    else
      var l := labels[|labels| - 1];
      if l.Store? && SlotOf(cfg, IdOf(cfg, l.record)) == p then Some(l.record)
      else LastStored(cfg, labels[..|labels| - 1], p)
  }

  /** The replayed log followed by the commands the queue accepted, in the order they were accepted. */
  function SentLog(cfg: Config, log0: seq<Command>, labels: seq<Label>): seq<Command> {
    if labels == [] then log0
    else
      var l := labels[|labels| - 1];
      var sent := SentLog(cfg, log0, labels[..|labels| - 1]);
      if l.Send? && l.accepted then sent + [CommandOf(cfg, l.record)]
      else sent
  }

  /** The commands of the completed applies. */
  function Completed(cfg: Config, labels: seq<Label>): seq<Command> {
    if labels == [] then []
    else
      var l := labels[|labels| - 1];
      var done := Completed(cfg, labels[..|labels| - 1]);
      if l.Send? then done + [CommandOf(cfg, l.record)]
      else done
  }

  /** The hot loads, and those among them made before the first store to their slot. */
  function Loads(cfg: Config, labels: seq<Label>): (nat, nat) {
    if labels == [] then (0, 0)
    else
      var front := labels[..|labels| - 1];
      var l := labels[|labels| - 1];
      var (all, early) := Loads(cfg, front);
      if l.HotLoad? then
        (all + 1, if LastStored(cfg, front, SlotOf(cfg, EntityId(cfg.hashers, l.hash))).None? then early + 1 else early)
      else (all, early)
  }

  /** Each slot holds exactly the last record stored into it. */
  lemma {:induction false} HotIsLastStored(cfg: Config, run: Run, n: nat, p: nat)
    requires IsRun(cfg, run) && n <= |run.labels| && p < cfg.capacity
    ensures Shaped(cfg, run.states[n].tier)
    ensures run.states[n].tier.hot[p] ==
            match LastStored(cfg, run.labels[..n], p)
            case None => None
            case Some(r) => Some(Cache(r))
  {
    RunKeepsInv(cfg, run, n);
    if n > 0 {
      HotIsLastStored(cfg, run, n - 1, p);
      var l := run.labels[n - 1];
      assert run.labels[..n][..n - 1] == run.labels[..n - 1];
      assert StepAt(cfg, run, n - 1);
    }
  }

  /** No eviction: a filled slot stays filled. */
  lemma {:induction false} FilledSlotsStayFilled(cfg: Config, run: Run, i: nat, n: nat, p: nat)
    requires IsRun(cfg, run) && i <= n <= |run.labels| && p < cfg.capacity
    requires p < |run.states[i].tier.hot| && run.states[i].tier.hot[p].Some?
    ensures p < |run.states[n].tier.hot| && run.states[n].tier.hot[p].Some?
    decreases n
  {
    RunKeepsInv(cfg, run, n);
    if n > i {
      FilledSlotsStayFilled(cfg, run, i, n - 1, p);
      assert StepAt(cfg, run, n - 1);
    }
  }

  lemma MoveHead<T>(front: seq<T>, back: seq<T>)
    requires back != []
    ensures front + [back[0]] + back[1..] == front + back
  {
  }

  lemma StepSends(cfg: Config, s: State, l: Label, s': State)
    requires Inv(cfg, s) && Step(cfg, s, l, s')
    ensures var sent := s.tier.log + s.tier.queue;
            s'.tier.log + s'.tier.queue ==
            if l.Send? && l.accepted then sent + [CommandOf(cfg, l.record)]
            else sent
  {
    if l.Drain? {
      MoveHead(s.tier.log, s.tier.queue);
    }
  }

  lemma SentLogStep(cfg: Config, log0: seq<Command>, front: seq<Label>, s: State, l: Label, s': State)
    requires Inv(cfg, s) && Step(cfg, s, l, s')
    requires s.tier.log + s.tier.queue == SentLog(cfg, log0, front)
    ensures s'.tier.log + s'.tier.queue == SentLog(cfg, log0, front + [l])
  {
    StepSends(cfg, s, l, s');
    assert (front + [l])[..|front|] == front;
  }

  /** Write-through order: executed plus queued commands are the accepted ones, in acceptance order. */
  lemma {:induction false} LogAndQueueAreSent(cfg: Config, run: Run, n: nat)
    requires IsRun(cfg, run) && n <= |run.labels|
    ensures run.states[n].tier.log + run.states[n].tier.queue ==
            SentLog(cfg, run.states[0].tier.log, run.labels[..n])
  {
    if n > 0 {
      LogAndQueueAreSent(cfg, run, n - 1);
      RunKeepsInv(cfg, run, n - 1);
      assert StepAt(cfg, run, n - 1);
      SentLogStep(cfg, run.states[0].tier.log, run.labels[..n - 1],
                  run.states[n - 1], run.labels[n - 1], run.states[n]);
      assert run.labels[..n] == run.labels[..n - 1] + [run.labels[n - 1]];
    }
  }

  /** The log keeps what was replayed. */
  lemma {:induction false} LogOnlyGrows(cfg: Config, run: Run, n: nat)
    requires IsRun(cfg, run) && n <= |run.labels|
    ensures run.states[0].tier.log <= run.states[n].tier.log
  {
    if n > 0 {
      LogOnlyGrows(cfg, run, n - 1);
      assert StepAt(cfg, run, n - 1);
    }
  }

  /** What a process sent is what it replayed, then the commands of its accepted sends. */
  lemma {:induction false} SentSource(cfg: Config, log0: seq<Command>, labels: seq<Label>, x: nat) returns (k: nat)
    requires x < |SentLog(cfg, log0, labels)|
    ensures var c := SentLog(cfg, log0, labels)[x];
            || (x < |log0| && c == log0[x])
            || (k < |labels| && labels[k].Send? && labels[k].accepted && c == CommandOf(cfg, labels[k].record))
    ensures |log0| <= x ==> k < |labels|
  {
    k := 0;
    if labels != [] {
      var n := |labels| - 1;
      if x < |SentLog(cfg, log0, labels[..n])| {
        k := SentSource(cfg, log0, labels[..n], x);
      } else {
        k := n;
      }
    }
  }

  /** What this process has sent: drained since the start, queued, or refused. */
  ghost function Accounted(log: seq<Command>, base: nat, queue: seq<Command>, refused: seq<Command>): multiset<Command>
    requires base <= |log|
  {
    multiset(log[base..]) + multiset(queue) + multiset(refused)
  }

  ghost function AccountedIn(s: State): multiset<Command>
    requires s.base <= |s.tier.log|
  {
    Accounted(s.tier.log, s.base, s.tier.queue, s.refused)
  }

  lemma AcceptAccounting(log: seq<Command>, base: nat, queue: seq<Command>, refused: seq<Command>, c: Command)
    requires base <= |log|
    ensures Accounted(log, base, queue + [c], refused) == Accounted(log, base, queue, refused) + multiset{c}
  {
    assert multiset(queue + [c]) == multiset(queue) + multiset{c};
  }

  lemma RefuseAccounting(log: seq<Command>, base: nat, queue: seq<Command>, refused: seq<Command>, c: Command)
    requires base <= |log|
    ensures Accounted(log, base, queue, refused + [c]) == Accounted(log, base, queue, refused) + multiset{c}
  {
    assert multiset(refused + [c]) == multiset(refused) + multiset{c};
  }

  lemma DrainAccounting(log: seq<Command>, base: nat, queue: seq<Command>, refused: seq<Command>)
    requires base <= |log| && queue != []
    ensures Accounted(log + [queue[0]], base, queue[1..], refused) == Accounted(log, base, queue, refused)
  {
    var c := queue[0];
    assert (log + [c])[base..] == log[base..] + [c];
    assert queue == [c] + queue[1..];
    assert multiset(queue) == multiset{c} + multiset(queue[1..]);
  }

  lemma SendAccounting(cfg: Config, s: State, l: Label, s': State)
    requires Step(cfg, s, l, s') && l.Send? && s.base <= |s.tier.log|
    ensures s'.base <= |s'.tier.log|
    ensures AccountedIn(s') == AccountedIn(s) + multiset{CommandOf(cfg, l.record)}
  {
    if l.accepted {
      AcceptAccounting(s.tier.log, s.base, s.tier.queue, s.refused, CommandOf(cfg, l.record));
    } else {
      RefuseAccounting(s.tier.log, s.base, s.tier.queue, s.refused, CommandOf(cfg, l.record));
    }
  }

  lemma OtherAccounting(cfg: Config, s: State, l: Label, s': State)
    requires Step(cfg, s, l, s') && !l.Send? && s.base <= |s.tier.log|
    ensures s'.base <= |s'.tier.log|
    ensures AccountedIn(s') == AccountedIn(s)
  {
    if l.Drain? {
      DrainAccounting(s.tier.log, s.base, s.tier.queue, s.refused);
    }
  }

  /** Conservation: every completed apply was drained, is queued, or was refused, and no command is in two places. */
  lemma {:induction false} AppliesAreConserved(cfg: Config, run: Run, n: nat)
    requires IsRun(cfg, run) && n <= |run.labels|
    ensures run.states[n].base <= |run.states[n].tier.log|
    ensures multiset(Completed(cfg, run.labels[..n])) == AccountedIn(run.states[n])
  {
    RunKeepsInv(cfg, run, n);
    if n > 0 {
      AppliesAreConserved(cfg, run, n - 1);
      RunKeepsInv(cfg, run, n - 1);
      assert run.labels[..n][..n - 1] == run.labels[..n - 1];
      assert StepAt(cfg, run, n - 1);
      if run.labels[n - 1].Send? {
        SendAccounting(cfg, run.states[n - 1], run.labels[n - 1], run.states[n]);
      } else {
        OtherAccounting(cfg, run.states[n - 1], run.labels[n - 1], run.states[n]);
      }
    } else {
      assert run.states[0].tier.log[run.states[0].base..] == [];
    }
  }

  lemma LoadsStep(cfg: Config, front: seq<Label>, s: State, l: Label, s': State)
    requires Step(cfg, s, l, s')
    requires Loads(cfg, front) == (s.hits + s.misses, s.misses)
    requires l.HotLoad? ==> var id := EntityId(cfg.hashers, l.hash);
                            LastStored(cfg, front, SlotOf(cfg, id)).None? <==> !SlotFilled(cfg, s.tier, id)
    ensures Loads(cfg, front + [l]) == (s'.hits + s'.misses, s'.misses)
  {
    assert (front + [l])[..|front|] == front;
  }

  /** Accounting: hits and misses add up to the hot loads, and the misses are exactly the loads that preceded the
      first store to their slot. */
  lemma {:induction false} HitsAndMisses(cfg: Config, run: Run, n: nat)
    requires IsRun(cfg, run) && n <= |run.labels|
    ensures Loads(cfg, run.labels[..n]) == (run.states[n].hits + run.states[n].misses, run.states[n].misses)
  {
    if n > 0 {
      HitsAndMisses(cfg, run, n - 1);
      var l := run.labels[n - 1];
      if l.HotLoad? {
        HotIsLastStored(cfg, run, n - 1, SlotOf(cfg, EntityId(cfg.hashers, l.hash)));
      }
      assert StepAt(cfg, run, n - 1);
      LoadsStep(cfg, run.labels[..n - 1], run.states[n - 1], l, run.states[n]);
      assert run.labels[..n] == run.labels[..n - 1] + [l];
    }
  }

  /** Two-tier characterization, for every process and whatever log it replayed: an undisturbed `get_record` returns
      the last record stored in this process into any address sharing the slot, and the cold record of the exact
      entity when the slot was never written; the cold tier is the replay of the log, a prefix of what was accepted. */
  lemma ReadCharacterization(cfg: Config, run: Run, n: nat, h: Hash32)
    requires IsRun(cfg, run) && n <= |run.labels|
    ensures Shaped(cfg, run.states[n].tier)
    ensures var s, id := run.states[n], EntityId(cfg.hashers, h);
            Read(cfg, s.tier, h) ==
            match LastStored(cfg, run.labels[..n], SlotOf(cfg, id))
            case Some(r) => Some(r)
            case None => ColdRecord(Replay(s.tier.log), id)
    ensures run.states[n].tier.log <= SentLog(cfg, run.states[0].tier.log, run.labels[..n])
  {
    RunKeepsInv(cfg, run, n);
    HotIsLastStored(cfg, run, n, SlotOf(cfg, EntityId(cfg.hashers, h)));
    LogAndQueueAreSent(cfg, run, n);
  }

  // --- Building runs ---

  function Last(run: Run): State
    requires run.states != []
  {
    run.states[|run.states| - 1]
  }

  /** The run with one more step. */
  function Grown(cfg: Config, run: Run, l: Label): Run
    requires run.states != [] && Shaped(cfg, Last(run).tier) && Enabled(cfg, Last(run), l)
  {
    Run(run.states + [Next(cfg, Last(run), l)], run.labels + [l])
  }

  lemma GrownIsRun(cfg: Config, run: Run, l: Label)
    requires IsRun(cfg, run) && Shaped(cfg, Last(run).tier) && Enabled(cfg, Last(run), l)
    ensures IsRun(cfg, Grown(cfg, run, l))
  {
    forall i | 0 <= i < |run.labels| + 1
      ensures StepAt(cfg, Grown(cfg, run, l), i)
    {
      assert i < |run.labels| ==> StepAt(cfg, run, i);
    }
  }

  lemma Extend(cfg: Config, run: Run, l: Label) returns (longer: Run)
    requires IsRun(cfg, run) && Shaped(cfg, Last(run).tier) && Enabled(cfg, Last(run), l)
    ensures IsRun(cfg, longer) && Last(longer) == Next(cfg, Last(run), l)
    ensures longer.states == run.states + [Last(longer)] && longer.labels == run.labels + [l]
  {
    longer := Grown(cfg, run, l);
    GrownIsRun(cfg, run, l);
  }
}
