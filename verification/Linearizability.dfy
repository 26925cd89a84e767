/** Every concurrent get of the tiered store answers with a value the store held at some moment between the get's
    invocation and its response, and under distinct slots the store is a last-write-wins map of keys. */
module Linearizability {
  import opened Base
  import opened Addressing
  import opened ColumnStore
  import opened Tiers
  import opened Concurrent

  /** The get that thread `t` has open at time `n` was invoked by labels[i]. */
  predicate OpenGet(labels: seq<Label>, t: nat, h: Hash32, i: nat, n: nat) {
    && i < n <= |labels|
    && labels[i] == BeginGet(t, h)
    && forall k :: i < k < n ==> (labels[k].BeginGet? || labels[k].BeginApply? ==> labels[k].t != t)
  }

  /** A thread waiting to load or to read cold has an open get; if it waits to read cold, its slot was empty at a
      moment `m` inside the get. */
  lemma {:induction false} OpenGetOf(cfg: Config, run: Run, n: nat, t: nat, h: Hash32) returns (i: nat, m: nat)
    requires IsRun(cfg, run) && n <= |run.labels|
    requires PhaseOf(run.states[n], t) == Loading(h) || PhaseOf(run.states[n], t) == Missed(h)
    ensures OpenGet(run.labels, t, h, i, n) && i < m <= n && Shaped(cfg, run.states[m].tier)
    ensures PhaseOf(run.states[n], t) == Missed(h) ==>
              !SlotFilled(cfg, run.states[m].tier, EntityId(cfg.hashers, h))
  {
    var l := run.labels[n - 1];
    RunKeepsInv(cfg, run, n);
    assert StepAt(cfg, run, n - 1);
    WaitingStep(cfg, run.states[n - 1], l, run.states[n], t, h);
    if l == BeginGet(t, h) {
      i, m := n - 1, n;
    } else {
      i, m := OpenGetOf(cfg, run, n - 1, t, h);
      if l == HotLoad(t, h) {
        m := n - 1;
      }
    }
  }

  /** How a thread came to wait: it just began the get, just missed, or was already waiting. */
  lemma WaitingStep(cfg: Config, s: State, l: Label, s': State, t: nat, h: Hash32)
    requires Step(cfg, s, l, s')
    requires PhaseOf(s', t) == Loading(h) || PhaseOf(s', t) == Missed(h)
    ensures || l == BeginGet(t, h)
            || (l == HotLoad(t, h) && PhaseOf(s, t) == Loading(h) && PhaseOf(s', t) == Missed(h) &&
                !SlotFilled(cfg, s.tier, EntityId(cfg.hashers, h)))
            || (PhaseOf(s, t) == PhaseOf(s', t) && l != HotLoad(t, h) &&
                (l.BeginGet? || l.BeginApply? ==> l.t != t))
    ensures PhaseOf(s', t) == Missed(h) ==> l != BeginGet(t, h)
  {
  }

  /** Some store of labels[m..n] produced command `c`. */
  ghost predicate StoredIn(cfg: Config, labels: seq<Label>, m: nat, n: nat, c: Command)
    requires n <= |labels|
  {
    exists k :: m <= k < n && labels[k].Store? && CommandOf(cfg, labels[k].record) == c
  }

  /** Everything about entity `id` that is drained, queued or about to be sent at `n`, and was not yet drained at
      `m`, was stored since `m`. */
  ghost predicate Explained(cfg: Config, run: Run, m: nat, n: nat, id: U64)
    requires m <= n <= |run.labels| < |run.states|
  {
    var s0, s := run.states[m], run.states[n];
    && s0.tier.log <= s.tier.log
    && (forall j :: |s0.tier.log| <= j < |s.tier.log| && s.tier.log[j].entityId == id ==>
          StoredIn(cfg, run.labels, m, n, s.tier.log[j]))
    && (forall j :: 0 <= j < |s.tier.queue| && s.tier.queue[j].entityId == id ==>
          StoredIn(cfg, run.labels, m, n, s.tier.queue[j]))
    && (forall t :: t in s.threads && s.threads[t].Sending? && IdOf(cfg, s.threads[t].record) == id ==>
          StoredIn(cfg, run.labels, m, n, CommandOf(cfg, s.threads[t].record)))
  }

  lemma StoredLater(cfg: Config, labels: seq<Label>, m: nat, n: nat, c: Command)
    requires n < |labels| && StoredIn(cfg, labels, m, n, c)
    ensures StoredIn(cfg, labels, m, n + 1, c)
  {
    var k :| m <= k < n && labels[k].Store? && CommandOf(cfg, labels[k].record) == c;
    assert labels[k].Store?;
  }

  lemma ExplainedStep(cfg: Config, run: Run, m: nat, n: nat, id: U64)
    requires IsRun(cfg, run) && m <= n < |run.labels|
    requires Explained(cfg, run, m, n, id)
    ensures Explained(cfg, run, m, n + 1, id)
  {
    var s, l, s' := run.states[n], run.labels[n], run.states[n + 1];
    assert StepAt(cfg, run, n);
    forall c: Command | StoredIn(cfg, run.labels, m, n, c)
      ensures StoredIn(cfg, run.labels, m, n + 1, c)
    {
      StoredLater(cfg, run.labels, m, n, c);
    }
    if l.Store? {
      assert StoredIn(cfg, run.labels, m, n + 1, CommandOf(cfg, l.record));
    }
  }

  /** Starting from a moment when the slot of `id` is empty, everything later written for `id` was stored later. */
  lemma {:induction false} EmptySlotExplains(cfg: Config, run: Run, m: nat, n: nat, id: U64)
    requires IsRun(cfg, run) && m <= n <= |run.labels|
    requires Shaped(cfg, run.states[m].tier) && !SlotFilled(cfg, run.states[m].tier, id)
    ensures Explained(cfg, run, m, n, id)
    decreases n
  {
    if n == m {
      RunKeepsInv(cfg, run, m);
    } else {
      EmptySlotExplains(cfg, run, m, n - 1, id);
      ExplainedStep(cfg, run, m, n - 1, id);
    }
  }

  /** What a cold read at `n` can see of an entity whose slot was empty at `m`: its row at `m`, or a record stored
      since. */
  lemma ColdReadSources(cfg: Config, run: Run, m: nat, n: nat, id: U64)
    requires IsRun(cfg, run) && m <= n <= |run.labels|
    requires Shaped(cfg, run.states[m].tier) && !SlotFilled(cfg, run.states[m].tier, id)
    ensures var v := ColdRecord(run.states[n].tier.rows, id);
            || v == ColdRecord(run.states[m].tier.rows, id)
            || exists k :: m <= k < n && run.labels[k].Store? && IdOf(cfg, run.labels[k].record) == id &&
                           v == Some(Coldify(run.labels[k].record))
  {
    RunKeepsInv(cfg, run, m);
    RunKeepsInv(cfg, run, n);
    EmptySlotExplains(cfg, run, m, n, id);
    var log0, log := run.states[m].tier.log, run.states[n].tier.log;
    var more := log[|log0|..];
    assert log == log0 + more;
    ReplayExtension(log0, more, id);
    if !Untouched(more, id) {
      var j :| LastOn(more, id, j) && Replay(log)[id] == RowOf(more[j]);
      assert log[|log0| + j] == more[j];
      var k :| m <= k < n && run.labels[k].Store? && CommandOf(cfg, run.labels[k].record) == more[j];
      ExecutedRecord(cfg, run.labels[k].record, map[]);
    }
  }

  /** An answer agrees with the store when it is the stored record, or what the cold tier keeps of it. */
  predicate Agrees(answer: Option<SignedRecord>, stored: Option<SignedRecord>) {
    answer == stored || (stored.Some? && answer == Some(Coldify(stored.value)))
  }

  /** A store to entity `id` of a record the cold tier does not keep unchanged. */
  predicate ChangedByCold(cfg: Config, l: Label, id: U64) {
    l.Store? && IdOf(cfg, l.record) == id && Coldify(l.record) != l.record
  }

  /** The label that makes thread `t` answer `h` at time `j`. */
  predicate Responds(cfg: Config, run: Run, t: nat, h: Hash32, j: nat)
    requires j < |run.labels| < |run.states|
  {
    && (run.labels[j] == HotLoad(t, h) || run.labels[j] == ColdRead(t, h))
    && PhaseOf(run.states[j + 1], t).Answered?
  }

  /** Linearizability. In every run, with any number of writers, readers, drains and refused sends, each
      get answers with the record the store held at a moment between its invocation and its response. This covers
      the race in which the hot load misses and the cold read then sees a concurrent write; only then, and only if
      that write's record changes in the cold tier, the answer is the cold form of the record and not the record. */
  lemma GetIsLinearizable(cfg: Config, run: Run, t: nat, h: Hash32, j: nat) returns (i: nat, k: nat)
    requires IsRun(cfg, run) && j < |run.labels| && Responds(cfg, run, t, h, j)
    ensures OpenGet(run.labels, t, h, i, j) && i < k <= j
    ensures Shaped(cfg, run.states[k].tier)
    ensures Agrees(PhaseOf(run.states[j + 1], t).answer, Read(cfg, run.states[k].tier, h))
    ensures PhaseOf(run.states[j + 1], t).answer != Read(cfg, run.states[k].tier, h) ==>
              && run.labels[j].ColdRead? && i < k - 1 && ChangedByCold(cfg, run.labels[k - 1], EntityId(cfg.hashers, h))
              && PhaseOf(run.states[j + 1], t).answer == Some(Coldify(run.labels[k - 1].record))
  {
    var s, l, id := run.states[j], run.labels[j], EntityId(cfg.hashers, h);
    assert StepAt(cfg, run, j);
    var m;
    i, m := OpenGetOf(cfg, run, j, t, h);
    if l.HotLoad? {
      k := j;
    } else {
      ColdReadSources(cfg, run, m, j, id);
      var v := ColdRecord(s.tier.rows, id);
      if v == ColdRecord(run.states[m].tier.rows, id) {
        k := m;
      } else {
        var k0 :| m <= k0 < j && run.labels[k0].Store? && IdOf(cfg, run.labels[k0].record) == id &&
                  v == Some(Coldify(run.labels[k0].record));
        k := k0 + 1;
        assert StepAt(cfg, run, k0);
      }
    }
  }

  /** A get is exact unless it overlaps a store to its own entity of a record that the cold tier changes (an epoch of
      2^32 or more, or a signature): otherwise it answers with the very record the store held at a moment between
      invocation and response. */
  lemma ColdStableGetIsExact(cfg: Config, run: Run, t: nat, h: Hash32, j: nat) returns (i: nat, k: nat)
    requires IsRun(cfg, run) && j < |run.labels| && Responds(cfg, run, t, h, j)
    ensures OpenGet(run.labels, t, h, i, j) && i < k <= j
    ensures Shaped(cfg, run.states[k].tier)
    ensures (forall x :: i < x < j ==> !ChangedByCold(cfg, run.labels[x], EntityId(cfg.hashers, h))) ==>
              PhaseOf(run.states[j + 1], t).answer == Read(cfg, run.states[k].tier, h)
  {
    i, k := GetIsLinearizable(cfg, run, t, h, j);
  }

  lemma {:induction false} LastStoredIndex(cfg: Config, labels: seq<Label>, p: nat) returns (k: nat)
    requires LastStored(cfg, labels, p).Some?
    ensures k < |labels| && labels[k].Store? && SlotOf(cfg, IdOf(cfg, labels[k].record)) == p
    ensures labels[k].record == LastStored(cfg, labels, p).value
  {
    var n := |labels| - 1;
    if labels[n].Store? && SlotOf(cfg, IdOf(cfg, labels[n].record)) == p {
      k := n;
    } else {
      k := LastStoredIndex(cfg, labels[..n], p);
    }
  }

  /** At no moment of the run would a read of `h` have returned `v`. */
  ghost predicate NeverHeld(cfg: Config, run: Run, h: Hash32, v: Option<SignedRecord>) {
    forall k :: 0 <= k < |run.states| ==>
      Shaped(cfg, run.states[k].tier) && Read(cfg, run.states[k].tier, h) != v
  }

  predicate StoresOnly(labels: seq<Label>, r: SignedRecord) {
    forall x :: 0 <= x < |labels| && labels[x].Store? ==> labels[x].record == r
  }

  /** A get misses, and a record that the cold tier would change is then stored. */
  lemma MissThenStore(cfg: Config, r: SignedRecord) returns (run: Run)
    requires Coldify(r) != r
    ensures IsRun(cfg, run) && StoresOnly(run.labels, r)
    ensures var h, s := AddressOf(cfg.hashers, r.payload), Last(run);
            && NeverHeld(cfg, run, h, Some(Coldify(r)))
            && PhaseOf(s, 0) == Missed(h) && PhaseOf(s, 1) == Sending(r)
            && s.tier == StoreHot(cfg, Opened(cfg, []), r)
  {
    var h := AddressOf(cfg.hashers, r.payload);
    run := Run([Fresh(cfg, [])], []);
    run := Extend(cfg, run, BeginGet(0, h));
    run := Extend(cfg, run, HotLoad(0, h));
    run := Extend(cfg, run, BeginApply(1, r));
    run := Extend(cfg, run, Store(1, r));
  }

  /** Every record that the cold tier changes (an epoch of 2^32 or more, or a signature) breaks exactness: a get that
      misses while it is stored, and then reads cold, answers with a record the store never held. */
  lemma MissedGetAnswersUnheldRecord(cfg: Config, r: SignedRecord) returns (run: Run, j: nat, h: Hash32)
    requires cfg.bound >= 1 && Coldify(r) != r
    ensures IsRun(cfg, run) && StoresOnly(run.labels, r)
    ensures j < |run.labels| && Responds(cfg, run, 0, h, j)
    ensures NeverHeld(cfg, run, h, PhaseOf(run.states[j + 1], 0).answer)
  {
    h := AddressOf(cfg.hashers, r.payload);
    run := MissThenStore(cfg, r);
    run := Extend(cfg, run, Send(1, r, true));
    run := Extend(cfg, run, Drain);
    ExecutedRecord(cfg, r, Replay([]));
    j := |run.labels|;
    run := Extend(cfg, run, ColdRead(0, h));
  }

  /** Thread `t`'s answer at `j` is the very record the store held at a moment inside its get. */
  ghost predicate ExactAt(cfg: Config, run: Run, t: nat, h: Hash32, j: nat)
    requires j < |run.labels| < |run.states| && Responds(cfg, run, t, h, j)
  {
    exists i: nat, k: nat ::
      && OpenGet(run.labels, t, h, i, j) && i < k <= j && Shaped(cfg, run.states[k].tier)
      && PhaseOf(run.states[j + 1], t).answer == Read(cfg, run.states[k].tier, h)
  }

  /** Every get is exact in every run that stores only records of `records`. */
  ghost predicate ExactOver(cfg: Config, records: iset<SignedRecord>) {
    forall run, t, h, j: nat ::
      IsRun(cfg, run) && j < |run.labels| && Responds(cfg, run, t, h, j) && StoresWithin(run.labels, records) ==>
        ExactAt(cfg, run, t, h, j)
  }

  ghost predicate StoresWithin(labels: seq<Label>, records: iset<SignedRecord>) {
    forall x :: 0 <= x < |labels| && labels[x].Store? ==> labels[x].record in records
  }

  /** Gets are exact, whatever the run, if and only if the cold tier keeps every record that may be stored. */
  lemma ExactIff(cfg: Config, records: iset<SignedRecord>)
    requires cfg.bound >= 1
    ensures ExactOver(cfg, records) <==> forall r :: r in records ==> Coldify(r) == r
  {
    if r :| r in records && Coldify(r) != r {
      var run, j, h := MissedGetAnswersUnheldRecord(cfg, r);
      assert StoresWithin(run.labels, records) && !ExactAt(cfg, run, 0, h, j);
    } else {
      forall run, t, h, j: nat |
        IsRun(cfg, run) && j < |run.labels| && Responds(cfg, run, t, h, j) && StoresWithin(run.labels, records)
        ensures ExactAt(cfg, run, t, h, j)
      {
        var i, k := ColdStableGetIsExact(cfg, run, t, h, j);
      }
    }
  }

  /** Without a store between invocation and response the answer is exact: it is what an undisturbed read at
      invocation time returns. */
  lemma UndisturbedGetIsExact(cfg: Config, run: Run, t: nat, h: Hash32, j: nat) returns (i: nat)
    requires IsRun(cfg, run) && j < |run.labels| && Responds(cfg, run, t, h, j)
    ensures OpenGet(run.labels, t, h, i, j) && Shaped(cfg, run.states[i].tier)
    ensures (forall k :: i <= k < j ==> !run.labels[k].Store?) ==>
              PhaseOf(run.states[j + 1], t).answer == Read(cfg, run.states[i].tier, h)
  {
    var s, l, id := run.states[j], run.labels[j], EntityId(cfg.hashers, h);
    assert StepAt(cfg, run, j);
    var m;
    i, m := OpenGetOf(cfg, run, j, t, h);
    RunKeepsInv(cfg, run, i);
    if forall k :: i <= k < j ==> !run.labels[k].Store? {
      ReadIsStable(cfg, run, i, j, h);
      ReadIsStable(cfg, run, i, m, h);
      if l.ColdRead? {
        ColdReadSources(cfg, run, m, j, id);
      }
    }
  }

  /** Only stores change what a read returns. */
  lemma StepKeepsRead(cfg: Config, s: State, l: Label, s': State, h: Hash32)
    requires Inv(cfg, s) && Step(cfg, s, l, s') && !l.Store?
    ensures Shaped(cfg, s'.tier) && Read(cfg, s'.tier, h) == Read(cfg, s.tier, h)
  {
    if l.Drain? {
      DrainIsInvisible(cfg, s.tier, s.base, h);
    }
  }

  lemma {:induction false} ReadIsStable(cfg: Config, run: Run, i: nat, n: nat, h: Hash32)
    requires IsRun(cfg, run) && i <= n <= |run.labels|
    requires forall k :: i <= k < n ==> !run.labels[k].Store?
    ensures Shaped(cfg, run.states[i].tier) && Shaped(cfg, run.states[n].tier)
    ensures Read(cfg, run.states[n].tier, h) == Read(cfg, run.states[i].tier, h)
    decreases n
  {
    RunKeepsInv(cfg, run, i);
    if n > i {
      ReadIsStable(cfg, run, i, n - 1, h);
      RunKeepsInv(cfg, run, n - 1);
      assert StepAt(cfg, run, n - 1);
      StepKeepsRead(cfg, run.states[n - 1], run.labels[n - 1], run.states[n], h);
    }
  }

  /** How a thread came to its answer: it already had it, hit the hot table, or read cold. */
  lemma AnswerStep(cfg: Config, s: State, l: Label, s': State, t: nat)
    requires Step(cfg, s, l, s') && PhaseOf(s', t).Answered?
    ensures || PhaseOf(s, t) == PhaseOf(s', t)
            || (l == HotLoad(t, PhaseOf(s', t).hash) &&
                PhaseOf(s', t).answer == HotLookup(cfg, s.tier.hot, PhaseOf(s', t).hash))
            || (l == ColdRead(t, PhaseOf(s', t).hash) &&
                PhaseOf(s', t).answer == ColdRecord(s.tier.rows, EntityId(cfg.hashers, PhaseOf(s', t).hash)))
  {
  }

  /** Every answer was given by a response of the run. */
  lemma {:induction false} ResponseOf(cfg: Config, run: Run, n: nat, t: nat) returns (j: nat)
    requires IsRun(cfg, run) && n <= |run.labels| && PhaseOf(run.states[n], t).Answered?
    ensures j < n && Responds(cfg, run, t, PhaseOf(run.states[n], t).hash, j)
    ensures PhaseOf(run.states[j + 1], t) == PhaseOf(run.states[n], t)
  {
    assert StepAt(cfg, run, n - 1);
    AnswerStep(cfg, run.states[n - 1], run.labels[n - 1], run.states[n], t);
    if PhaseOf(run.states[n - 1], t) == PhaseOf(run.states[n], t) {
      j := ResponseOf(cfg, run, n - 1, t);
    } else {
      j := n - 1;
    }
  }

  // --- Applies ---

  /** A put takes effect once, at its store, between its invocation and its completion. */
  lemma {:induction false} OpenApplyOf(cfg: Config, run: Run, n: nat, t: nat) returns (i: nat, k: nat)
    requires IsRun(cfg, run) && n <= |run.labels|
    requires var p := PhaseOf(run.states[n], t); p.Storing? || p.Sending?
    ensures i <= k <= n && i < n && run.labels[i] == BeginApply(t, PhaseOf(run.states[n], t).record)
    ensures PhaseOf(run.states[n], t).Storing? ==> k == n
    ensures PhaseOf(run.states[n], t).Sending? ==>
              i < k < n && run.labels[k] == Store(t, PhaseOf(run.states[n], t).record)
    ensures forall x :: i < x < n && run.labels[x].Store? && run.labels[x].t == t ==> x == k
  {
    var l := run.labels[n - 1];
    assert StepAt(cfg, run, n - 1);
    if l.BeginApply? && l.t == t {
      i, k := n - 1, n;
    } else {
      i, k := OpenApplyOf(cfg, run, n - 1, t);
      if l.Store? && l.t == t {
        k := n - 1;
      } else if PhaseOf(run.states[n], t).Storing? {
        k := n;
      }
    }
  }

  /** The completion of an apply was preceded by its own single store. */
  lemma PutTakesEffectOnce(cfg: Config, run: Run, j: nat) returns (i: nat, k: nat)
    requires IsRun(cfg, run) && j < |run.labels| && run.labels[j].Send?
    ensures i < k < j
    ensures run.labels[i] == BeginApply(run.labels[j].t, run.labels[j].record)
    ensures run.labels[k] == Store(run.labels[j].t, run.labels[j].record)
    ensures forall x :: i < x < j && run.labels[x].Store? && run.labels[x].t == run.labels[j].t ==> x == k
  {
    assert StepAt(cfg, run, j);
    i, k := OpenApplyOf(cfg, run, j, run.labels[j].t);
  }

  // --- Key/value register ---

  /** No record stored in these labels merely shares a slot with one of the keys. */
  predicate StoresApart(cfg: Config, keys: set<Bytes>, labels: seq<Label>) {
    forall i :: 0 <= i < |labels| && labels[i].Store? ==> Apart(cfg, keys, labels[i].record)
  }

  lemma ApartBefore(cfg: Config, keys: set<Bytes>, labels: seq<Label>, n: nat)
    requires StoresApart(cfg, keys, labels) && n <= |labels|
    ensures StoresApart(cfg, keys, labels[..n])
  {
  }

  /** All applies of the run are puts of keys in `keys`. What the partition held when it started is arbitrary. */
  ghost predicate IsKvRun(cfg: Config, keys: set<Bytes>, run: Run) {
    && IsRun(cfg, run)
    && forall i {:trigger run.labels[i]} :: 0 <= i < |run.labels| && run.labels[i].BeginApply? ==>
         IsPut(cfg, keys, run.labels[i].record)
  }

  ghost predicate IsPut(cfg: Config, keys: set<Bytes>, r: SignedRecord) {
    exists key, val :: key in keys && r == KvRecord(cfg.hashers, key, val)
  }

  /** Distinct slots keep the stores of a key/value run apart. */
  lemma KvRunStoresApart(cfg: Config, keys: set<Bytes>, run: Run)
    requires IsKvRun(cfg, keys, run) && SlotsDistinct(cfg, keys)
    ensures StoresApart(cfg, keys, run.labels)
  {
    forall i | 0 <= i < |run.labels| && run.labels[i].Store?
      ensures Apart(cfg, keys, run.labels[i].record)
    {
      assert StepAt(cfg, run, i);
      var b, _ := OpenApplyOf(cfg, run, i, run.labels[i].t);
      assert IsPut(cfg, keys, run.labels[b].record);
      var key, val :| key in keys && run.labels[b].record == KvRecord(cfg.hashers, key, val);
      DistinctSlotsKeepApart(cfg, keys, key, val);
    }
  }

  /** Every step changes the plain map of the keys exactly as a last-write-wins register would: a store writes the keys
      its record is addressed to, everything else leaves the map alone. */
  lemma StepRefinesMap(cfg: Config, keys: set<Bytes>, run: Run, n: nat)
    requires IsRun(cfg, run) && n < |run.labels|
    requires run.labels[n].Store? ==> Apart(cfg, keys, run.labels[n].record)
    ensures Shaped(cfg, run.states[n].tier) && Shaped(cfg, run.states[n + 1].tier)
    ensures var kv := KvMap(cfg, keys, run.states[n].tier);
            KvMap(cfg, keys, run.states[n + 1].tier) ==
            if run.labels[n].Store? then RegisterUpdate(cfg, keys, kv, run.labels[n].record) else kv
  {
    var s := run.states[n];
    RunKeepsInv(cfg, run, n);
    RunKeepsInv(cfg, run, n + 1);
    assert StepAt(cfg, run, n);
    match run.labels[n]
    case Store(t, r) => StoreIsRegisterUpdate(cfg, keys, s.tier, r);
    case Send(t, r, accepted) => SendKeepsMap(cfg, keys, s.tier, CommandOf(cfg, r), accepted);
    case Drain => DrainKeepsMap(cfg, keys, s.tier, s.base);
    case _ =>
  }

  /** Linearizable key/value store: in every run each get of a key answers with the value the plain map of that key
      held at some moment between invocation and response, exactly, since decoding drops what the cold tier drops. */
  lemma KvGetIsLinearizable(cfg: Config, keys: set<Bytes>, run: Run, t: nat, key: Bytes, j: nat)
    returns (i: nat, k: nat)
    requires IsRun(cfg, run) && key in keys
    requires j < |run.labels| && Responds(cfg, run, t, cfg.hashers.sha256(key), j)
    ensures OpenGet(run.labels, t, cfg.hashers.sha256(key), i, j) && i < k <= j
    ensures Shaped(cfg, run.states[k].tier)
    ensures var answer := PhaseOf(run.states[j + 1], t).answer;
            var kv := KvMap(cfg, keys, run.states[k].tier);
            if key in kv then answer.Some? && Decode(answer.value) == kv[key] else answer == None
  {
    i, k := GetIsLinearizable(cfg, run, t, cfg.hashers.sha256(key), j);
  }

  // --- An independent register ---

  /** A last-write-wins register: the recovered map, updated by the stores of the run in their order and by nothing
      else. */
  function Register(cfg: Config, keys: set<Bytes>, start: map<Bytes, Bytes>, labels: seq<Label>): map<Bytes, Bytes> {
    if labels == [] then start
    else
      var l := labels[|labels| - 1];
      var reg := Register(cfg, keys, start, labels[..|labels| - 1]);
      if l.Store? then RegisterUpdate(cfg, keys, reg, l.record) else reg
  }

  /** As long as no stored record merely shares a slot with a key, the store is the register: what gets would return is
      the recovered map updated by the stores in their order. */
  lemma {:induction false} StoreIsRegister(cfg: Config, keys: set<Bytes>, run: Run, n: nat)
    requires IsRun(cfg, run) && n <= |run.labels| && StoresApart(cfg, keys, run.labels[..n])
    ensures Shaped(cfg, run.states[n].tier)
    ensures KvMap(cfg, keys, run.states[n].tier) ==
            Register(cfg, keys, Recovered(cfg, keys, run.states[0].tier.log), run.labels[..n])
  {
    if n == 0 {
      OpenedIsRecovered(cfg, keys, run.states[0].tier.log);
    } else {
      assert run.labels[..n][..n - 1] == run.labels[..n - 1];
      assert run.labels[..n][n - 1] == run.labels[n - 1];
      StoreIsRegister(cfg, keys, run, n - 1);
      StepRefinesMap(cfg, keys, run, n - 1);
    }
  }

  /** Linearizability against the independent register: each get of a key answers with the register's value at some
      moment between invocation and response, and with nothing exactly when the register then had none. */
  lemma GetMatchesRegister(cfg: Config, keys: set<Bytes>, run: Run, t: nat, key: Bytes, j: nat)
    returns (i: nat, k: nat)
    requires IsRun(cfg, run) && key in keys
    requires j < |run.labels| && Responds(cfg, run, t, cfg.hashers.sha256(key), j)
    requires StoresApart(cfg, keys, run.labels[..j])
    ensures OpenGet(run.labels, t, cfg.hashers.sha256(key), i, j) && i < k <= j
    ensures var answer := PhaseOf(run.states[j + 1], t).answer;
            var reg := Register(cfg, keys, Recovered(cfg, keys, run.states[0].tier.log), run.labels[..k]);
            if key in reg then answer.Some? && Decode(answer.value) == reg[key] else answer == None
  {
    i, k := KvGetIsLinearizable(cfg, keys, run, t, key, j);
    assert run.labels[..k] == run.labels[..j][..k];
    ApartBefore(cfg, keys, run.labels[..j], k);
    StoreIsRegister(cfg, keys, run, k);
  }
}
