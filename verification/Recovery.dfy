/** What crashes leave to later processes. A history is a sequence of lives of one partition: each life is a run of
    one process with its own AHash seed, and the next one replays a durable prefix of what it executed. The log holds
    the entity ids the writing process computed; a reader looks up the ids it computes itself. */
module Recovery {
  import opened Base
  import opened Addressing
  import opened ColumnStore
  import opened Tiers
  import opened Concurrent
  import opened Linearizability

  datatype Life = Life(seed: nat, run: Run)

  function ConfigOf(cfg: Config, life: Life): Config {
    Seeded(cfg, life.seed)
  }

  ghost predicate IsLife(cfg: Config, life: Life) {
    IsRun(ConfigOf(cfg, life), life.run)
  }

  /** The log a process replayed when it started. */
  function Replayed(life: Life): seq<Command>
    requires life.run.states != []
  {
    life.run.states[0].tier.log
  }

  /** The next process replays a prefix of what was executed, and at least what was replayed before. */
  predicate Follows(next: Life, life: Life) {
    && next.run.states != [] && life.run.states != []
    && Replayed(life) <= Replayed(next) <= Last(life.run).tier.log
  }

  ghost predicate IsHistory(cfg: Config, lives: seq<Life>) {
    && lives != []
    && (forall i :: 0 <= i < |lives| ==> IsLife(cfg, lives[i]))
    && (forall i :: 0 < i < |lives| ==> Follows(lives[i], lives[i - 1]))
  }

  /** Label `k` of life `j` lies before moment `n` of life `i`. */
  predicate Earlier(lives: seq<Life>, i: nat, n: nat, j: nat, k: nat)
    requires i < |lives|
  {
    j <= i && k < |lives[j].run.labels| && (j == i ==> k < n)
  }

  // --- Where the commands of a log come from ---

  /** Label `k` of the life is an accepted send of command `c`. */
  predicate SentBy(cfg: Config, life: Life, k: nat, c: Command)
    requires k < |life.run.labels|
  {
    var l := life.run.labels[k];
    l.Send? && l.accepted && CommandOf(ConfigOf(cfg, life), l.record) == c
  }

  /** Command `c` was accepted from an apply before moment `n` of life `i`. */
  ghost predicate AcceptedBefore(cfg: Config, lives: seq<Life>, i: nat, n: nat, c: Command)
    requires i < |lives|
  {
    exists j: nat, k: nat :: Earlier(lives, i, n, j, k) && SentBy(cfg, lives[j], k, c)
  }

  /** Every executed command was in the log the history began with, or was accepted from an apply of this process or
      an earlier one, under the id that process computed. */
  lemma {:induction false} LogSources(cfg: Config, lives: seq<Life>, i: nat, n: nat, x: nat)
    requires IsHistory(cfg, lives) && i < |lives| && n <= |lives[i].run.labels|
    requires x < |lives[i].run.states[n].tier.log|
    ensures var c := lives[i].run.states[n].tier.log[x];
            (x < |Replayed(lives[0])| && c == Replayed(lives[0])[x]) || AcceptedBefore(cfg, lives, i, n, c)
    decreases i
  {
    assert IsLife(cfg, lives[i]);
    var life, c := lives[i], lives[i].run.states[n].tier.log[x];
    LogAndQueueAreSent(ConfigOf(cfg, life), life.run, n);
    assert c == SentLog(ConfigOf(cfg, life), Replayed(life), life.run.labels[..n])[x];
    var k := SentSource(ConfigOf(cfg, life), Replayed(life), life.run.labels[..n], x);
    if k < n && SentBy(cfg, life, k, c) {
      assert Earlier(lives, i, n, i, k);
    } else if i > 0 {
      assert Follows(life, lives[i - 1]) && IsLife(cfg, lives[i - 1]);
      LogSources(cfg, lives, i - 1, |lives[i - 1].run.labels|, x);
      if AcceptedBefore(cfg, lives, i - 1, |lives[i - 1].run.labels|, c) {
        var j: nat, k': nat :| Earlier(lives, i - 1, |lives[i - 1].run.labels|, j, k') && SentBy(cfg, lives[j], k', c);
        assert Earlier(lives, i, n, j, k');
      }
    }
  }

  // --- Reads after a restart ---

  /** No store has happened in the life up to moment `n`. */
  predicate NoStoreYet(life: Life, n: nat)
    requires n <= |life.run.labels|
  {
    forall x :: 0 <= x < n ==> !life.run.labels[x].Store?
  }

  /** Before the first store of a process nothing is in flight and the store is as it was opened. */
  lemma {:induction false} NothingInFlight(cfg: Config, life: Life, n: nat)
    requires IsLife(cfg, life) && n <= |life.run.labels| && NoStoreYet(life, n)
    ensures var s := life.run.states[n];
            && s.tier == Opened(ConfigOf(cfg, life), Replayed(life))
            && (forall t :: t in s.threads ==> !s.threads[t].Sending?)
  {
    if n > 0 {
      NothingInFlight(cfg, life, n - 1);
      assert StepAt(ConfigOf(cfg, life), life.run, n - 1);
    }
  }

  /** Before the first store of a process a read returns exactly the record of the last replayed command whose stored
      id is the one this process computes, or nothing if there is none. */
  lemma ReplayedRead(cfg: Config, life: Life, n: nat, h: Hash32)
    requires IsLife(cfg, life) && n <= |life.run.labels| && NoStoreYet(life, n)
    ensures Shaped(ConfigOf(cfg, life), life.run.states[n].tier)
    ensures var id := EntityId(ConfigOf(cfg, life).hashers, h);
            match Read(ConfigOf(cfg, life), life.run.states[n].tier, h)
            case None => Untouched(Replayed(life), id)
            case Some(v) => exists x :: LastOn(Replayed(life), id, x) && v == RecordIn(Replayed(life)[x])
  {
    NothingInFlight(cfg, life, n);
    ReplayIsLastWrite(Replayed(life), EntityId(ConfigOf(cfg, life).hashers, h));
  }

  /** Record `v` stands under id `id` in the log the history began with. */
  ghost predicate HeldAtFirst(lives: seq<Life>, id: U64, v: SignedRecord)
    requires lives != [] && lives[0].run.states != []
  {
    exists x :: 0 <= x < |Replayed(lives[0])| && Replayed(lives[0])[x].entityId == id &&
                v == RecordIn(Replayed(lives[0])[x])
  }

  /** Before moment `n` of life `i` a record was applied, with acceptance, under id `id`, and its cold form is `v`. */
  ghost predicate AppliedBefore(cfg: Config, lives: seq<Life>, i: nat, n: nat, id: U64, v: SignedRecord)
    requires i < |lives|
  {
    exists j: nat, k: nat :: Earlier(lives, i, n, j, k) && AppliedAs(cfg, lives[j], k, id, v)
  }

  predicate AppliedAs(cfg: Config, life: Life, k: nat, id: U64, v: SignedRecord)
    requires k < |life.run.labels|
  {
    var l := life.run.labels[k];
    l.Send? && l.accepted && IdOf(ConfigOf(cfg, life), l.record) == id && v == Coldify(l.record)
  }

  lemma AcceptedIsApplied(cfg: Config, lives: seq<Life>, i: nat, c: Command)
    requires i < |lives| && AcceptedBefore(cfg, lives, i, 0, c)
    ensures AppliedBefore(cfg, lives, i, 0, c.entityId, RecordIn(c))
  {
    var j: nat, k: nat :| Earlier(lives, i, 0, j, k) && SentBy(cfg, lives[j], k, c);
    ExecutedRecord(ConfigOf(cfg, lives[j]), lives[j].run.labels[k].record, map[]);
    assert AppliedAs(cfg, lives[j], k, c.entityId, RecordIn(c));
  }

  /** Restart recovers only real writes. In every history, before the first store of a process, a read returns nothing
      exactly when no durable command carries the id this process computes, and otherwise the record of the last one
      that does; that record is what the cold tier keeps of a record some earlier process applied under that id, or
      was there when the history began. */
  lemma RestartRecoversAcceptedWrites(cfg: Config, lives: seq<Life>, i: nat, n: nat, h: Hash32)
    requires IsHistory(cfg, lives) && i < |lives| && n <= |lives[i].run.labels| && NoStoreYet(lives[i], n)
    ensures Shaped(ConfigOf(cfg, lives[i]), lives[i].run.states[n].tier)
    ensures var durable, id := Replayed(lives[i]), EntityId(ConfigOf(cfg, lives[i]).hashers, h);
            match Read(ConfigOf(cfg, lives[i]), lives[i].run.states[n].tier, h)
            case None => Untouched(durable, id)
            case Some(v) =>
              && (exists x :: LastOn(durable, id, x) && v == RecordIn(durable[x]))
              && (HeldAtFirst(lives, id, v) || AppliedBefore(cfg, lives, i, 0, id, v))
  {
    assert IsLife(cfg, lives[i]);
    ReplayedRead(cfg, lives[i], n, h);
    var durable, id := Replayed(lives[i]), EntityId(ConfigOf(cfg, lives[i]).hashers, h);
    var found := Read(ConfigOf(cfg, lives[i]), lives[i].run.states[n].tier, h);
    if found.Some? {
      var x :| LastOn(durable, id, x) && found.value == RecordIn(durable[x]);
      LogSources(cfg, lives, i, 0, x);
      if AcceptedBefore(cfg, lives, i, 0, durable[x]) {
        AcceptedIsApplied(cfg, lives, i, durable[x]);
      }
    }
  }

  // --- When a durable record is found again ---

  /** A record is found again exactly when the last durable command on the id the new process computes for it has its
      contents. */
  lemma FoundAgainIff(cfg: Config, life: Life, n: nat, r: SignedRecord)
    requires IsLife(cfg, life) && n <= |life.run.labels| && NoStoreYet(life, n)
    ensures Shaped(ConfigOf(cfg, life), life.run.states[n].tier)
    ensures var found := Read(ConfigOf(cfg, life), life.run.states[n].tier, AddressOf(cfg.hashers, r.payload));
            found == Some(Coldify(r)) <==>
            exists x :: LastOn(Replayed(life), IdOf(ConfigOf(cfg, life), r), x) &&
                        RecordIn(Replayed(life)[x]) == Coldify(r)
  {
    ReplayedRead(cfg, life, n, AddressOf(cfg.hashers, r.payload));
    ReplayIsLastWrite(Replayed(life), IdOf(ConfigOf(cfg, life), r));
  }

  /** All durable commands with the contents of `r` carry id `id`. */
  predicate OnlyUnder(log: seq<Command>, r: SignedRecord, id: U64) {
    forall x :: 0 <= x < |log| && RecordIn(log[x]) == Coldify(r) ==> log[x].entityId == id
  }

  /** A durable record whose command is the last on its stored id, and whose contents are stored under no other id, is
      found again by a later process if and only if that process computes the id the writing process computed. */
  lemma DurableRecordFoundIff(cfg: Config, life: Life, n: nat, r: SignedRecord, writer: nat, x: int)
    requires IsLife(cfg, life) && n <= |life.run.labels| && NoStoreYet(life, n)
    requires LastOn(Replayed(life), IdOf(Seeded(cfg, writer), r), x)
    requires Replayed(life)[x] == CommandOf(Seeded(cfg, writer), r)
    requires OnlyUnder(Replayed(life), r, IdOf(Seeded(cfg, writer), r))
    ensures Shaped(ConfigOf(cfg, life), life.run.states[n].tier)
    ensures var found := Read(ConfigOf(cfg, life), life.run.states[n].tier, AddressOf(cfg.hashers, r.payload));
            found == Some(Coldify(r)) <==>
            IdOf(ConfigOf(cfg, life), r) == IdOf(Seeded(cfg, writer), r)
  {
    FoundAgainIff(cfg, life, n, r);
    ExecutedRecord(Seeded(cfg, writer), r, map[]);
    assert RecordIn(Replayed(life)[x]) == Coldify(r);
  }

  // --- Key/value histories ---

  /** Every life is a key/value run over `keys`. */
  ghost predicate IsKvHistory(cfg: Config, keys: set<Bytes>, lives: seq<Life>) {
    && IsHistory(cfg, lives)
    && forall i :: 0 <= i < |lives| ==> IsKvRun(ConfigOf(cfg, lives[i]), keys, lives[i].run)
  }

  /** No two of these keys share an entity id within one process. */
  ghost predicate IdsDistinct(cfg: Config, keys: set<Bytes>) {
    forall k1, k2 :: k1 in keys && k2 in keys && KeyId(cfg, k1) == KeyId(cfg, k2) ==> k1 == k2
  }

  /** No two of these keys with different digests share an entity id, even when processes with two of these seeds
      compute them. */
  ghost predicate JointIdsDistinct(cfg: Config, keys: set<Bytes>, seeds: iset<nat>) {
    forall a, b, k1, k2 :: a in seeds && b in seeds && k1 in keys && k2 in keys ==>
      KeyId(Seeded(cfg, a), k1) == KeyId(Seeded(cfg, b), k2) ==> cfg.hashers.sha256(k1) == cfg.hashers.sha256(k2)
  }

  /** Every process of the history drew one of these seeds. */
  ghost predicate SeedsWithin(lives: seq<Life>, seeds: iset<nat>) {
    forall i :: 0 <= i < |lives| ==> lives[i].seed in seeds
  }

  /** The value `val` was put under `key` before moment `n` of life `i`. */
  ghost predicate WasPut(cfg: Config, lives: seq<Life>, i: nat, n: nat, key: Bytes, val: Bytes)
    requires i < |lives|
  {
    exists j: nat, k: nat :: Earlier(lives, i, n, j, k) && PutBegun(cfg, lives[j], k, key, val)
  }

  predicate PutBegun(cfg: Config, life: Life, k: nat, key: Bytes, val: Bytes)
    requires k < |life.run.labels|
  {
    life.run.labels[k].BeginApply? && life.run.labels[k].record == KvRecord(cfg.hashers, key, val)
  }

  /** A record being applied under the id (or in the slot) that only `key` has was put under `key` in this process. */
  lemma AppliedRecordWasPut(cfg: Config, keys: set<Bytes>, life: Life, n: nat, t: nat, key: Bytes)
    requires IsKvRun(ConfigOf(cfg, life), keys, life.run) && n <= |life.run.labels|
    requires var p := PhaseOf(life.run.states[n], t); p.Storing? || p.Sending?
    requires forall k :: k in keys && Owns(ConfigOf(cfg, life), k, PhaseOf(life.run.states[n], t).record) ==>
               cfg.hashers.sha256(k) == cfg.hashers.sha256(key)
    ensures var r := PhaseOf(life.run.states[n], t).record;
            && Coldify(r) == r
            && exists k: nat :: k < n && PutBegun(cfg, life, k, key, Decode(r))
  {
    var r := PhaseOf(life.run.states[n], t).record;
    var b, _ := OpenApplyOf(ConfigOf(cfg, life), life.run, n, t);
    assert life.run.labels[b].BeginApply?;
    assert IsPut(ConfigOf(cfg, life), keys, r);
    var c := ConfigOf(cfg, life);
    var key', val :| key' in keys && r == KvRecord(c.hashers, key', val);
    KvRoundTrip(c.hashers, key', val);
    assert r == KvRecord(cfg.hashers, key', val);
    assert Owns(ConfigOf(cfg, life), key', r);
    assert PutBegun(cfg, life, b, key, Decode(r));
  }

  /** An accepted apply under an id that, over all processes, only `key` has was a put under `key`. */
  lemma AppliedAsWasPut(cfg: Config, keys: set<Bytes>, seeds: iset<nat>, lives: seq<Life>, i: nat, n: nat,
                        j: nat, k: nat, key: Bytes)
    requires IsKvHistory(cfg, keys, lives) && key in keys
    requires SeedsWithin(lives, seeds) && JointIdsDistinct(cfg, keys, seeds)
    requires i < |lives| && Earlier(lives, i, n, j, k) && lives[j].run.labels[k].Send?
    requires IdOf(ConfigOf(cfg, lives[j]), lives[j].run.labels[k].record) == KeyId(ConfigOf(cfg, lives[i]), key)
    ensures WasPut(cfg, lives, i, n, key, Decode(Coldify(lives[j].run.labels[k].record)))
  {
    var life := lives[j];
    assert StepAt(ConfigOf(cfg, life), life.run, k);
    forall k' | k' in keys && Owns(ConfigOf(cfg, life), k', life.run.labels[k].record)
      ensures cfg.hashers.sha256(k') == cfg.hashers.sha256(key)
    {
      assert KeyId(ConfigOf(cfg, life), k') == KeyId(ConfigOf(cfg, lives[i]), key);
    }
    AppliedRecordWasPut(cfg, keys, life, k, life.run.labels[k].t, key);
    var b: nat :| b < k && PutBegun(cfg, life, b, key, Decode(life.run.labels[k].record));
    assert Earlier(lives, i, n, j, b);
  }

  /** Before the first store of a process, a get of a key answers only with a value an earlier process put under that
      key, or with what the history began with, provided no two keys share an entity id across the processes. Slots
      may still collide. */
  lemma RestartedGetWasPut(cfg: Config, keys: set<Bytes>, seeds: iset<nat>, lives: seq<Life>, i: nat, n: nat,
                           key: Bytes)
    requires IsKvHistory(cfg, keys, lives) && key in keys
    requires SeedsWithin(lives, seeds) && JointIdsDistinct(cfg, keys, seeds)
    requires i < |lives| && n <= |lives[i].run.labels| && NoStoreYet(lives[i], n)
    ensures Shaped(ConfigOf(cfg, lives[i]), lives[i].run.states[n].tier)
    ensures match L2Get(ConfigOf(cfg, lives[i]), lives[i].run.states[n].tier, key)
            case None => true
            case Some(val) =>
              || WasPut(cfg, lives, i, 0, key, val)
              || exists v :: HeldAtFirst(lives, KeyId(ConfigOf(cfg, lives[i]), key), v) && val == Decode(v)
  {
    var c := ConfigOf(cfg, lives[i]);
    RestartRecoversAcceptedWrites(cfg, lives, i, n, cfg.hashers.sha256(key));
    var found := Read(c, lives[i].run.states[n].tier, cfg.hashers.sha256(key));
    if found.Some? && !HeldAtFirst(lives, KeyId(c, key), found.value) {
      var j: nat, k: nat :| Earlier(lives, i, 0, j, k) && AppliedAs(cfg, lives[j], k, KeyId(c, key), found.value);
      AppliedAsWasPut(cfg, keys, seeds, lives, i, 0, j, k, key);
    }
  }

  // --- All answers of a history ---

  /** This process stored `v` into the slot of `id` before moment `n`. */
  ghost predicate StoredHere(cfg: Config, life: Life, n: nat, id: U64, v: SignedRecord) {
    exists k: nat :: k < n && k < |life.run.labels| && StoresAs(cfg, life, k, id, v)
  }

  predicate StoresAs(cfg: Config, life: Life, k: nat, id: U64, v: SignedRecord)
    requires k < |life.run.labels|
  {
    var c, l := ConfigOf(cfg, life), life.run.labels[k];
    l.Store? && SlotOf(c, IdOf(c, l.record)) == SlotOf(c, id) && v == l.record
  }

  lemma HotHitWasStored(cfg: Config, life: Life, n: nat, h: Hash32)
    requires IsLife(cfg, life) && n <= |life.run.labels|
    requires Shaped(ConfigOf(cfg, life), life.run.states[n].tier)
    requires HotLookup(ConfigOf(cfg, life), life.run.states[n].tier.hot, h).Some?
    ensures StoredHere(cfg, life, n, EntityId(ConfigOf(cfg, life).hashers, h),
                       HotLookup(ConfigOf(cfg, life), life.run.states[n].tier.hot, h).value)
  {
    var c := ConfigOf(cfg, life);
    var p := SlotOf(c, EntityId(c.hashers, h));
    HotIsLastStored(c, life.run, n, p);
    var k := LastStoredIndex(c, life.run.labels[..n], p);
    assert life.run.labels[k] == life.run.labels[..n][k];
    assert StoresAs(cfg, life, k, EntityId(c.hashers, h), life.run.labels[k].record);
  }

  lemma ColdWasApplied(cfg: Config, lives: seq<Life>, i: nat, n: nat, id: U64)
    requires IsHistory(cfg, lives) && i < |lives| && n <= |lives[i].run.labels|
    requires ColdRecord(lives[i].run.states[n].tier.rows, id).Some?
    ensures var v := ColdRecord(lives[i].run.states[n].tier.rows, id).value;
            AppliedBefore(cfg, lives, i, n, id, v) || HeldAtFirst(lives, id, v)
  {
    assert IsLife(cfg, lives[i]);
    var log := lives[i].run.states[n].tier.log;
    RunKeepsInv(ConfigOf(cfg, lives[i]), lives[i].run, n);
    ReplayIsLastWrite(log, id);
    var x :| LastOn(log, id, x);
    LogSources(cfg, lives, i, n, x);
    if AcceptedBefore(cfg, lives, i, n, log[x]) {
      var j: nat, k: nat :| Earlier(lives, i, n, j, k) && SentBy(cfg, lives[j], k, log[x]);
      ExecutedRecord(ConfigOf(cfg, lives[j]), lives[j].run.labels[k].record, map[]);
      assert AppliedAs(cfg, lives[j], k, id, RecordIn(log[x]));
    }
  }

  /** In every history, whatever a get ever answers was stored by this process into the same slot, or is what the cold
      tier keeps of a record that this process or an earlier one applied under the very id this process looks up, or
      was there under that id when the history began. */
  lemma {:induction false} AnswersWereStored(cfg: Config, lives: seq<Life>, i: nat, n: nat, t: nat)
    requires IsHistory(cfg, lives) && i < |lives| && n <= |lives[i].run.labels|
    requires PhaseOf(lives[i].run.states[n], t).Answered? && PhaseOf(lives[i].run.states[n], t).answer.Some?
    ensures var Answered(h, answer) := PhaseOf(lives[i].run.states[n], t);
            var id := EntityId(ConfigOf(cfg, lives[i]).hashers, h);
            || StoredHere(cfg, lives[i], n, id, answer.value)
            || AppliedBefore(cfg, lives, i, n, id, answer.value)
            || HeldAtFirst(lives, id, answer.value)
    decreases n
  {
    assert IsLife(cfg, lives[i]);
    var c, run := ConfigOf(cfg, lives[i]), lives[i].run;
    assert StepAt(c, run, n - 1);
    AnswerStep(c, run.states[n - 1], run.labels[n - 1], run.states[n], t);
    var Answered(h, answer) := PhaseOf(run.states[n], t);
    if PhaseOf(run.states[n - 1], t) == PhaseOf(run.states[n], t) {
      AnswersWereStored(cfg, lives, i, n - 1, t);
      AnswersStay(cfg, lives, i, n - 1, EntityId(c.hashers, h), answer.value);
    } else if run.labels[n - 1].HotLoad? {
      HotHitWasStored(cfg, lives[i], n - 1, h);
      AnswersStay(cfg, lives, i, n - 1, EntityId(c.hashers, h), answer.value);
    } else {
      ColdWasApplied(cfg, lives, i, n - 1, EntityId(c.hashers, h));
      AnswersStay(cfg, lives, i, n - 1, EntityId(c.hashers, h), answer.value);
    }
  }

  lemma AnswersStay(cfg: Config, lives: seq<Life>, i: nat, n: nat, id: U64, v: SignedRecord)
    requires i < |lives|
    ensures StoredHere(cfg, lives[i], n, id, v) ==> StoredHere(cfg, lives[i], n + 1, id, v)
    ensures AppliedBefore(cfg, lives, i, n, id, v) ==> AppliedBefore(cfg, lives, i, n + 1, id, v)
  {
    if AppliedBefore(cfg, lives, i, n, id, v) {
      var j: nat, k: nat :| Earlier(lives, i, n, j, k) && AppliedAs(cfg, lives[j], k, id, v);
      assert Earlier(lives, i, n + 1, j, k);
    }
  }

  /** In a key/value history a get of a key never answers with a value that was not put under that very key, by this
      process or an earlier one, or with what the history began with, provided no two keys share a slot in this process
      or an entity id across the processes. */
  lemma KvAnswersWerePut(cfg: Config, keys: set<Bytes>, seeds: iset<nat>, lives: seq<Life>, i: nat, n: nat, t: nat,
                         key: Bytes)
    requires IsKvHistory(cfg, keys, lives) && i < |lives| && n <= |lives[i].run.labels| && key in keys
    requires SlotsDistinct(ConfigOf(cfg, lives[i]), keys)
    requires SeedsWithin(lives, seeds) && JointIdsDistinct(cfg, keys, seeds)
    requires PhaseOf(lives[i].run.states[n], t).Answered?
    requires PhaseOf(lives[i].run.states[n], t).hash == cfg.hashers.sha256(key)
    ensures match PhaseOf(lives[i].run.states[n], t).answer
            case None => true
            case Some(v) =>
              || WasPut(cfg, lives, i, n, key, Decode(v))
              || HeldAtFirst(lives, KeyId(ConfigOf(cfg, lives[i]), key), v)
  {
    if PhaseOf(lives[i].run.states[n], t).answer.Some? {
      AnswersWereStored(cfg, lives, i, n, t);
      var c, v := ConfigOf(cfg, lives[i]), PhaseOf(lives[i].run.states[n], t).answer.value;
      if StoredHere(cfg, lives[i], n, KeyId(c, key), v) {
        StoredWasPut(cfg, keys, lives, i, n, key, v);
      } else if AppliedBefore(cfg, lives, i, n, KeyId(c, key), v) {
        var j: nat, k: nat :| Earlier(lives, i, n, j, k) && AppliedAs(cfg, lives[j], k, KeyId(c, key), v);
        AppliedAsWasPut(cfg, keys, seeds, lives, i, n, j, k, key);
      }
    }
  }

  /** A store into the slot that only `key` has, in this process, was of a value put under `key`. */
  lemma StoredWasPut(cfg: Config, keys: set<Bytes>, lives: seq<Life>, i: nat, n: nat, key: Bytes, v: SignedRecord)
    requires IsKvHistory(cfg, keys, lives) && i < |lives| && key in keys
    requires SlotsDistinct(ConfigOf(cfg, lives[i]), keys)
    requires StoredHere(cfg, lives[i], n, KeyId(ConfigOf(cfg, lives[i]), key), v)
    ensures WasPut(cfg, lives, i, n, key, Decode(v))
  {
    var life, c := lives[i], ConfigOf(cfg, lives[i]);
    var k: nat :| k < n && k < |life.run.labels| && StoresAs(cfg, life, k, KeyId(c, key), v);
    assert StepAt(c, life.run, k);
    forall k' | k' in keys && Owns(c, k', life.run.labels[k].record)
      ensures k' == key
    {
      assert KeySlot(c, k') == KeySlot(c, key);
    }
    AppliedRecordWasPut(cfg, keys, life, k, life.run.labels[k].t, key);
    var b: nat :| b < k && PutBegun(cfg, life, b, key, Decode(life.run.labels[k].record));
    assert Earlier(lives, i, n, i, b);
  }

  // --- Why the ids of two processes matter ---

  /** A process that puts one record and drains it. */
  lemma PutRun(cfg: Config, r: SignedRecord) returns (run: Run)
    requires cfg.bound >= 1
    ensures IsRun(cfg, run) && run.states[0] == Fresh(cfg, [])
    ensures run.labels == [BeginApply(0, r), Store(0, r), Send(0, r, true), Drain]
    ensures Last(run).tier.log == [CommandOf(cfg, r)]
  {
    run := Run([Fresh(cfg, [])], []);
    run := Extend(cfg, run, BeginApply(0, r));
    run := Extend(cfg, run, Store(0, r));
    run := Extend(cfg, run, Send(0, r, true));
    run := Extend(cfg, run, Drain);
  }

  /** One process puts a value and drains it; the next one replays the whole log. */
  lemma PutThenRestart(cfg: Config, keys: set<Bytes>, seed: nat, seed': nat, key: Bytes, val: Bytes)
    returns (lives: seq<Life>)
    requires cfg.bound >= 1 && key in keys
    ensures IsKvHistory(cfg, keys, lives) && |lives| == 2
    ensures lives[0].seed == seed && lives[1].seed == seed'
    ensures lives[0].run.labels ==
            var r := KvRecord(cfg.hashers, key, val); [BeginApply(0, r), Store(0, r), Send(0, r, true), Drain]
    ensures Replayed(lives[0]) == [] && lives[1].run.labels == []
    ensures Replayed(lives[1]) == [CommandOf(Seeded(cfg, seed), KvRecord(cfg.hashers, key, val))]
  {
    var c, r := Seeded(cfg, seed), KvRecord(cfg.hashers, key, val);
    var run := PutRun(c, r);
    lives := [Life(seed, run), Life(seed', Run([Fresh(Seeded(cfg, seed'), Last(run).tier.log)], []))];
    assert r == KvRecord(c.hashers, key, val);
    assert IsPut(c, keys, r);
  }

  /** If two processes give a key different ids, a durable accepted put under it is lost to the second one. */
  lemma RehashLosesDurablePut(cfg: Config, seed: nat, seed': nat, key: Bytes, val: Bytes) returns (lives: seq<Life>)
    requires cfg.bound >= 1
    requires KeyId(Seeded(cfg, seed'), key) != KeyId(Seeded(cfg, seed), key)
    ensures IsKvHistory(cfg, {key}, lives) && |lives| == 2
    ensures lives[0].seed == seed && lives[1].seed == seed'
    ensures CommandOf(Seeded(cfg, seed), KvRecord(cfg.hashers, key, val)) in Replayed(lives[1])
    ensures L2Get(Seeded(cfg, seed'), lives[1].run.states[0].tier, key) == None
  {
    lives := PutThenRestart(cfg, {key}, seed, seed', key, val);
    KvRoundTrip(cfg.hashers, key, val);
    ReplayedRead(cfg, lives[1], 0, cfg.hashers.sha256(key));
  }

  /** If the second process gives one key the id the first gave another with a different digest, it answers for the one
      with the value put under the other. */
  lemma RehashServesForeignValue(cfg: Config, keys: set<Bytes>, seed: nat, seed': nat, k1: Bytes, k2: Bytes, val: Bytes)
    returns (lives: seq<Life>)
    requires k1 in keys && k2 in keys
    requires cfg.bound >= 1 && cfg.hashers.sha256(k1) != cfg.hashers.sha256(k2)
    requires KeyId(Seeded(cfg, seed'), k2) == KeyId(Seeded(cfg, seed), k1)
    ensures IsKvHistory(cfg, keys, lives) && |lives| == 2 && Replayed(lives[0]) == []
    ensures lives[0].seed == seed && lives[1].seed == seed'
    ensures L2Get(Seeded(cfg, seed'), lives[1].run.states[0].tier, k2) == Some(val)
    ensures !WasPut(cfg, lives, 1, 0, k2, val)
  {
    lives := PutThenRestart(cfg, keys, seed, seed', k1, val);
    KvRoundTrip(cfg.hashers, k1, val);
    KvRoundTrip(cfg.hashers, k2, val);
    ReplayedRead(cfg, lives[1], 0, cfg.hashers.sha256(k2));
    assert LastOn(Replayed(lives[1]), KeyId(Seeded(cfg, seed'), k2), 0);
    ExecutedRecord(Seeded(cfg, seed), KvRecord(cfg.hashers, k1, val), map[]);
  }

  /** In every history over these seeds that begins with an empty log, a get of a key before the first store of a
      process answers only with values earlier processes put under that key. */
  ghost predicate RestartSafe(cfg: Config, keys: set<Bytes>, seeds: iset<nat>) {
    forall lives: seq<Life>, i: nat, n: nat, key ::
      IsKvHistory(cfg, keys, lives) && SeedsWithin(lives, seeds) && Replayed(lives[0]) == [] ==>
        i < |lives| && n <= |lives[i].run.labels| && NoStoreYet(lives[i], n) && key in keys ==>
          OnlyPutValues(cfg, lives, i, n, key)
  }

  ghost predicate OnlyPutValues(cfg: Config, lives: seq<Life>, i: nat, n: nat, key: Bytes)
    requires i < |lives| && n < |lives[i].run.states|
  {
    && Shaped(ConfigOf(cfg, lives[i]), lives[i].run.states[n].tier)
    && match L2Get(ConfigOf(cfg, lives[i]), lives[i].run.states[n].tier, key)
       case None => true
       case Some(val) => WasPut(cfg, lives, i, 0, key, val)
  }

  lemma DistinctIsSafe(cfg: Config, keys: set<Bytes>, seeds: iset<nat>)
    requires JointIdsDistinct(cfg, keys, seeds)
    ensures RestartSafe(cfg, keys, seeds)
  {
    forall lives: seq<Life>, i: nat, n: nat, key |
      && IsKvHistory(cfg, keys, lives) && SeedsWithin(lives, seeds) && Replayed(lives[0]) == []
      && i < |lives| && n <= |lives[i].run.labels| && NoStoreYet(lives[i], n) && key in keys
      ensures OnlyPutValues(cfg, lives, i, n, key)
    {
      RestartedGetWasPut(cfg, keys, seeds, lives, i, n, key);
    }
  }

  lemma CrossingIsUnsafe(cfg: Config, keys: set<Bytes>, seeds: iset<nat>, a: nat, b: nat, k1: Bytes, k2: Bytes)
    requires cfg.bound >= 1 && a in seeds && b in seeds && k1 in keys && k2 in keys
    requires KeyId(Seeded(cfg, a), k1) == KeyId(Seeded(cfg, b), k2) && cfg.hashers.sha256(k1) != cfg.hashers.sha256(k2)
    ensures !RestartSafe(cfg, keys, seeds)
  {
    var lives := RehashServesForeignValue(cfg, keys, a, b, k1, k2, []);
    assert NoStoreYet(lives[1], 0);
    assert !OnlyPutValues(cfg, lives, 1, 0, k2);
  }

  /** The condition of RestartedGetWasPut is exact: over the processes that may follow one another, gets after a restart
      answer only with put values if and only if the ids of the keys are jointly distinct. */
  lemma RestartSafeIff(cfg: Config, keys: set<Bytes>, seeds: iset<nat>)
    requires cfg.bound >= 1
    ensures RestartSafe(cfg, keys, seeds) <==> JointIdsDistinct(cfg, keys, seeds)
  {
    if JointIdsDistinct(cfg, keys, seeds) {
      DistinctIsSafe(cfg, keys, seeds);
    } else {
      var a, b, k1, k2 :| a in seeds && b in seeds && k1 in keys && k2 in keys &&
        KeyId(Seeded(cfg, a), k1) == KeyId(Seeded(cfg, b), k2) && cfg.hashers.sha256(k1) != cfg.hashers.sha256(k2);
      CrossingIsUnsafe(cfg, keys, seeds, a, b, k1, k2);
    }
  }

  /** So joint distinctness cannot be weakened to distinctness within each process. */
  lemma DistinctWithinIsNotEnough(cfg: Config, seed: nat, seed': nat, k1: Bytes, k2: Bytes, val: Bytes)
    returns (lives: seq<Life>)
    requires cfg.bound >= 1 && k1 != k2
    requires IdsDistinct(Seeded(cfg, seed), {k1, k2}) && IdsDistinct(Seeded(cfg, seed'), {k1, k2})
    requires KeyId(Seeded(cfg, seed'), k2) == KeyId(Seeded(cfg, seed), k1)
    ensures IsKvHistory(cfg, {k1, k2}, lives) && |lives| == 2 && Replayed(lives[0]) == []
    ensures lives[0].seed == seed && lives[1].seed == seed'
    ensures L2Get(Seeded(cfg, seed'), lives[1].run.states[0].tier, k2) == Some(val)
    ensures !WasPut(cfg, lives, 1, 0, k2, val)
  {
    assert KeyId(Seeded(cfg, seed), k1) != KeyId(Seeded(cfg, seed), k2);
    lives := RehashServesForeignValue(cfg, {k1, k2}, seed, seed', k1, k2, val);
  }

  /** Such hash functions and keys exist. */
  lemma RehashWitness() returns (cfg: Config, k1: Bytes, k2: Bytes)
    ensures cfg.bound >= 1 && k1 != k2
    ensures IdsDistinct(Seeded(cfg, 0), {k1, k2}) && IdsDistinct(Seeded(cfg, 1), {k1, k2})
    ensures KeyId(Seeded(cfg, 1), k2) == KeyId(Seeded(cfg, 0), k1)
  {
    k1, k2 := [], [0];
    var sha := (b: Bytes) => Pad(|b|);
    var keyed := (seed: nat, h: Hash32) => if (seed == 0) == (h[0] == 0) then 0 else 1;
    cfg := Config(Hashers(sha, keyed, 0), 1, 1);
  }

  /** A 32-byte string that starts with `n`, as far as a byte can tell. */
  function Pad(n: nat): Hash32 {
    seq(32, i => if i == 0 then n % 256 else 0)
  }

  // --- Listing by epoch over runs ---

  /** A record that any process applied with epoch x is, once drained, listed under x mod 2^32 and no other epoch, as
      long as no later command on its stored id has been executed. */
  lemma DrainedIsListed(cfg: Config, run: Run, n: nat, writer: Config, r: SignedRecord, i: int, entities: seq<U64>)
    requires IsRun(cfg, run) && n <= |run.labels|
    requires LastOn(run.states[n].tier.log, IdOf(writer, r), i)
    requires run.states[n].tier.log[i] == CommandOf(writer, r)
    requires Enumerates(entities, run.states[n].tier.rows)
    ensures forall e: U64 ::
              IdOf(writer, r) in ListedIds(entities, run.states[n].tier.rows, e) <==> e == r.epochId % TWO_32
    ensures ColdRecord(run.states[n].tier.rows, IdOf(writer, r)) == Some(Coldify(r))
  {
    RunKeepsInv(cfg, run, n);
    ReplayIsLastWrite(run.states[n].tier.log, IdOf(writer, r));
    ExecutedRecord(writer, r, map[]);
  }
}
