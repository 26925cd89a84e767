/** When the hot and the cold tier agree: after every run without overlapping applies to one entity, once the queue
    is drained. Overlapping applies, and refused sends, break it. */
module Agreement {
  import opened Base
  import opened ColumnStore
  import opened Tiers
  import opened Concurrent

  predicate Applying(p: Phase) {
    p.Storing? || p.Sending?
  }

  /** No two threads are applying records of one entity. */
  ghost predicate NoOverlap(cfg: Config, s: State) {
    forall t1, t2 ::
      t1 in s.threads && t2 in s.threads && t1 != t2 && Applying(s.threads[t1]) && Applying(s.threads[t2]) ==>
        IdOf(cfg, s.threads[t1].record) != IdOf(cfg, s.threads[t2].record)
  }

  ghost predicate SendPending(cfg: Config, s: State, id: U64) {
    exists t :: t in s.threads && s.threads[t].Sending? && IdOf(cfg, s.threads[t].record) == id
  }

  /** The record in slot `p` is the one still to be sent for its entity, or, if no send is pending and none was
      refused, the last one accepted for its entity. */
  ghost predicate Backed(cfg: Config, s: State, p: nat)
    requires p < |s.tier.hot| && s.tier.hot[p].Some?
  {
    var r := Uncache(s.tier.hot[p].value);
    var id := IdOf(cfg, r);
    && (forall t :: t in s.threads && s.threads[t].Sending? && IdOf(cfg, s.threads[t].record) == id ==>
          s.threads[t].record == r)
    && (!SendPending(cfg, s, id) && Untouched(s.refused, id) ==>
          ColdRecord(Replay(s.tier.log + s.tier.queue), id) == Some(Coldify(r)))
  }

  ghost predicate AllBacked(cfg: Config, s: State) {
    forall p :: 0 <= p < |s.tier.hot| && s.tier.hot[p].Some? ==> Backed(cfg, s, p)
  }

  lemma StoreKeepsBacked(cfg: Config, s: State, l: Label, s': State, p: nat)
    requires Inv(cfg, s) && Step(cfg, s, l, s') && l.Store? && NoOverlap(cfg, s) && AllBacked(cfg, s)
    requires p < |s'.tier.hot| && s'.tier.hot[p].Some?
    ensures Backed(cfg, s', p)
  {
    var id := IdOf(cfg, Uncache(s'.tier.hot[p].value));
    if p == SlotOf(cfg, IdOf(cfg, l.record)) {
      assert s'.threads[l.t] == Sending(l.record);
    } else {
      assert Backed(cfg, s, p);
      assert SlotOf(cfg, id) == p;
      if SendPending(cfg, s, id) {
        var t :| t in s.threads && s.threads[t].Sending? && IdOf(cfg, s.threads[t].record) == id;
        assert s'.threads[t] == s.threads[t];
      }
    }
  }

  lemma SendKeepsBacked(cfg: Config, s: State, l: Label, s': State, p: nat)
    requires Inv(cfg, s) && Step(cfg, s, l, s') && l.Send? && NoOverlap(cfg, s) && AllBacked(cfg, s)
    requires p < |s'.tier.hot| && s'.tier.hot[p].Some?
    ensures Backed(cfg, s', p)
  {
    var c, id := CommandOf(cfg, l.record), IdOf(cfg, Uncache(s'.tier.hot[p].value));
    var sent, sent' := s.tier.log + s.tier.queue, s'.tier.log + s'.tier.queue;
    assert Backed(cfg, s, p);
    if l.accepted {
      assert sent' == sent + [c];
      assert sent'[..|sent'| - 1] == sent;
      ExecutedRecord(cfg, l.record, Replay(sent));
    } else {
      assert s'.refused[|s.refused|] == c;
      assert Untouched(s'.refused, id) ==> Untouched(s.refused, id) by {
        assert forall j :: 0 <= j < |s.refused| ==> s'.refused[j] == s.refused[j];
      }
    }
    if id != c.entityId && SendPending(cfg, s, id) {
      var t :| t in s.threads && s.threads[t].Sending? && IdOf(cfg, s.threads[t].record) == id;
      assert s'.threads[t] == s.threads[t];
    }
  }

  /** What `Backed` depends on is the same in both states. */
  ghost predicate SameBacking(s: State, s': State) {
    && s'.tier.hot == s.tier.hot && s'.refused == s.refused
    && s'.tier.log + s'.tier.queue == s.tier.log + s.tier.queue
    && (forall t :: t in s.threads && s.threads[t].Sending? ==> t in s'.threads && s'.threads[t] == s.threads[t])
    && (forall t :: t in s'.threads && s'.threads[t].Sending? ==> t in s.threads && s.threads[t] == s'.threads[t])
  }

  lemma OtherStepKeepsBacking(cfg: Config, s: State, l: Label, s': State)
    requires Inv(cfg, s) && Step(cfg, s, l, s') && !l.Store? && !l.Send?
    ensures SameBacking(s, s')
  {
    StepSends(cfg, s, l, s');
  }

  lemma SameBackingKeepsBacked(cfg: Config, s: State, s': State, p: nat)
    requires SameBacking(s, s')
    requires p < |s.tier.hot| && s.tier.hot[p].Some? && Backed(cfg, s, p)
    ensures Backed(cfg, s', p)
  {
    var id := IdOf(cfg, Uncache(s.tier.hot[p].value));
    if SendPending(cfg, s, id) {
      var t :| t in s.threads && s.threads[t].Sending? && IdOf(cfg, s.threads[t].record) == id;
      assert s'.threads[t] == s.threads[t];
    }
  }

  lemma {:induction false} RunKeepsBacked(cfg: Config, run: Run, n: nat)
    requires IsRun(cfg, run) && n <= |run.labels|
    requires forall i :: 0 <= i < n ==> NoOverlap(cfg, run.states[i])
    ensures AllBacked(cfg, run.states[n])
  {
    if n > 0 {
      RunKeepsBacked(cfg, run, n - 1);
      RunKeepsInv(cfg, run, n - 1);
      var s, l, s' := run.states[n - 1], run.labels[n - 1], run.states[n];
      assert StepAt(cfg, run, n - 1);
      forall p | 0 <= p < |s'.tier.hot| && s'.tier.hot[p].Some?
        ensures Backed(cfg, s', p)
      {
        if l.Store? {
          StoreKeepsBacked(cfg, s, l, s', p);
        } else if l.Send? {
          SendKeepsBacked(cfg, s, l, s', p);
        } else {
          OtherStepKeepsBacking(cfg, s, l, s');
          SameBackingKeepsBacked(cfg, s, s', p);
        }
      }
    }
  }

  ghost predicate Quiescent(s: State) {
    s.tier.queue == [] && forall t :: t in s.threads ==> !Applying(s.threads[t])
  }

  /** Slot `p` holds the record its own entity has in the cold tier, up to the truncated epoch and the signature. */
  predicate TiersAgree(cfg: Config, s: State, p: nat)
    requires p < |s.tier.hot| && s.tier.hot[p].Some?
  {
    var r := Uncache(s.tier.hot[p].value);
    ColdRecord(s.tier.rows, IdOf(cfg, r)) == Some(Coldify(r))
  }

  /** Tier agreement at quiescence. In every run without overlapping applies to one entity, once all applies are
      finished and the queue is drained, every filled slot whose entity had no refused send agrees with the cold
      tier. Slot collisions do not matter. */
  lemma TiersAgreeAtQuiescence(cfg: Config, run: Run, n: nat, p: nat)
    requires IsRun(cfg, run) && n <= |run.labels|
    requires forall i :: 0 <= i < n ==> NoOverlap(cfg, run.states[i])
    requires Quiescent(run.states[n])
    requires p < |run.states[n].tier.hot| && run.states[n].tier.hot[p].Some?
    requires Untouched(run.states[n].refused, IdOf(cfg, Uncache(run.states[n].tier.hot[p].value)))
    ensures TiersAgree(cfg, run.states[n], p)
  {
    var s := run.states[n];
    RunKeepsInv(cfg, run, n);
    RunKeepsBacked(cfg, run, n);
    assert Backed(cfg, s, p);
    assert s.tier.log + s.tier.queue == s.tier.log;
  }

  /** The exact condition, for every run, overlapping or not, and whatever was refused: once the queue is drained, a
      filled slot agrees with the cold tier if and only if the last accepted command on its entity is the one of the
      last record stored into the slot. */
  lemma TiersAgreeIff(cfg: Config, run: Run, n: nat, p: nat)
    requires IsRun(cfg, run) && n <= |run.labels| && run.states[n].tier.queue == []
    requires p < |run.states[n].tier.hot| && run.states[n].tier.hot[p].Some?
    ensures LastStored(cfg, run.labels[..n], p).Some?
    ensures var r := LastStored(cfg, run.labels[..n], p).value;
            var sent := SentLog(cfg, run.states[0].tier.log, run.labels[..n]);
            TiersAgree(cfg, run.states[n], p) <==>
            exists i :: LastOn(sent, IdOf(cfg, r), i) && sent[i] == CommandOf(cfg, r)
  {
    var s := run.states[n];
    RunKeepsInv(cfg, run, n);
    HotIsLastStored(cfg, run, n, p);
    LogAndQueueAreSent(cfg, run, n);
    var r := Uncache(s.tier.hot[p].value);
    var id := IdOf(cfg, r);
    assert s.tier.log + s.tier.queue == s.tier.log;
    ReplayIsLastWrite(s.tier.log, id);
    if id in s.tier.rows {
      var i :| LastOn(s.tier.log, id, i);
      RowDeterminesCommand(cfg, s.tier.log[i], r);
    }
  }

  lemma RowDeterminesCommand(cfg: Config, c: Command, r: SignedRecord)
    requires c.entityId == IdOf(cfg, r)
    ensures RowRecord(RowOf(c)) == Some(Coldify(r)) <==> c == CommandOf(cfg, r)
  {
  }

  // --- Witnesses: neither hypothesis can be dropped ---

  function TypedRecord(recordType: U32): SignedRecord {
    SignedRecord(0, [], ZeroSignature(), recordType)
  }

  /** Threads 0 and 1 store records of one entity, 1 last, and both are about to send. */
  lemma OverlappingStores(cfg: Config, a: SignedRecord, b: SignedRecord) returns (run: Run)
    requires IdOf(cfg, a) == IdOf(cfg, b)
    ensures IsRun(cfg, run)
    ensures var s, p := Last(run), SlotOf(cfg, IdOf(cfg, b));
            && Shaped(cfg, s.tier) && s.tier.hot[p] == Some(Cache(b)) && s.tier.queue == [] && s.refused == []
            && s.threads == map[0 := Sending(a), 1 := Sending(b)]
  {
    run := Run([Fresh(cfg, [])], []);
    run := Extend(cfg, run, BeginApply(0, a));
    run := Extend(cfg, run, BeginApply(1, b));
    run := Extend(cfg, run, Store(0, a));
    run := Extend(cfg, run, Store(1, b));
  }

  /** Both sends are accepted, 1 first. */
  lemma OverlappingSends(cfg: Config, a: SignedRecord, b: SignedRecord) returns (run: Run)
    requires IdOf(cfg, a) == IdOf(cfg, b) && cfg.bound >= 2
    ensures IsRun(cfg, run)
    ensures var s, p := Last(run), SlotOf(cfg, IdOf(cfg, b));
            && Shaped(cfg, s.tier) && s.tier.hot[p] == Some(Cache(b)) && s.refused == []
            && s.tier.queue == [CommandOf(cfg, b), CommandOf(cfg, a)]
            && s.threads == map[0 := Idle, 1 := Idle]
  {
    run := OverlappingStores(cfg, a, b);
    run := Extend(cfg, run, Send(1, b, true));
    run := Extend(cfg, run, Send(0, a, true));
  }

  /** Two overlapping applies to one entity, sent in the opposite order of their stores, leave the tiers apart with
      no send refused: whatever the hash functions, slot and row end up holding different records. */
  lemma OverlapBreaksAgreement(cfg: Config) returns (run: Run, p: nat)
    requires cfg.bound >= 2
    ensures IsRun(cfg, run)
    ensures var s := Last(run);
            && Quiescent(s) && s.refused == []
            && p < |s.tier.hot| && s.tier.hot[p].Some? && !TiersAgree(cfg, s, p)
  {
    var a, b := TypedRecord(1), TypedRecord(2);
    p := SlotOf(cfg, IdOf(cfg, b));
    run := OverlappingSends(cfg, a, b);
    run := Extend(cfg, run, Drain);
    ExecutedRecord(cfg, a, Last(run).tier.rows);
    run := Extend(cfg, run, Drain);
  }

  /** A single refused send leaves a hot record with no cold counterpart. */
  lemma RefusalBreaksAgreement(cfg: Config) returns (run: Run, p: nat)
    ensures IsRun(cfg, run) && forall i :: 0 <= i < |run.states| ==> NoOverlap(cfg, run.states[i])
    ensures var s := run.states[|run.labels|];
            && Quiescent(s)
            && p < |s.tier.hot| && s.tier.hot[p].Some? && !TiersAgree(cfg, s, p)
  {
    var a := TypedRecord(1);
    var s0 := Fresh(cfg, []);
    var l0, l1, l2 := BeginApply(0, a), Store(0, a), Send(0, a, false);
    var s1 := Next(cfg, s0, l0);
    var s2 := Next(cfg, s1, l1);
    var s3 := Next(cfg, s2, l2);
    run := Run([s0, s1, s2, s3], [l0, l1, l2]);
    p := SlotOf(cfg, IdOf(cfg, a));
  }
}
