/** The tiered store, started on an empty partition, is indistinguishable from the pure cache through get_record. */
module Equivalence {
  import opened Base
  import opened Addressing
  import opened ColumnStore
  import opened Tiers

  /** What happens to a store in a sequential run. `room` says whether the background queue would take the command;
      a full queue refuses in any case. */
  datatype Op =
    | Apply(record: SignedRecord, room: bool)
    | Get(hash: Hash32)
    | Drain

  function TieredStep(cfg: Config, tier: Tier, op: Op): (t: Tier)
    requires Shaped(cfg, tier)
    ensures Shaped(cfg, t)
  {
    match op
    case Apply(r, room) => ApplyRecord(cfg, tier, r, room && |tier.queue| < cfg.bound)
    case Get(_) => tier
    case Drain => if tier.queue == [] then tier else DrainOne(tier)
  }

  function TieredAnswers(cfg: Config, tier: Tier, ops: seq<Op>): seq<Option<SignedRecord>>
    requires Shaped(cfg, tier)
    decreases |ops|
  {
    if ops == [] then []
    else
      (if ops[0].Get? then [Read(cfg, tier, ops[0].hash)] else []) +
      TieredAnswers(cfg, TieredStep(cfg, tier, ops[0]), ops[1..])
  }

  /** The pure cache is its hot table: applies store, gets load, and nothing is ever read back from its columns. */
  function PureAnswers(cfg: Config, hot: seq<Option<CachedRecord>>, ops: seq<Op>): seq<Option<SignedRecord>>
    requires |hot| == cfg.capacity
    decreases |ops|
  {
    if ops == [] then []
    else match ops[0]
      case Apply(r, _) => PureAnswers(cfg, HotInsert(cfg, hot, r), ops[1..])
      case Get(h) => [HotLookup(cfg, hot, h)] + PureAnswers(cfg, hot, ops[1..])
      case Drain => PureAnswers(cfg, hot, ops[1..])
  }

  /** At any tier reached by a process, the two stores answer a read alike exactly when its slot is filled or its
      entity was not among the rows replayed at start-up. */
  lemma AlikeIff(cfg: Config, tier: Tier, base: nat, h: Hash32)
    requires TierInv(cfg, tier, base)
    ensures var id := EntityId(cfg.hashers, h);
            Read(cfg, tier, h) == HotLookup(cfg, tier.hot, h) <==>
            SlotFilled(cfg, tier, id) || id !in Replay(tier.log[..base])
  {
    var id := EntityId(cfg.hashers, h);
    var replayed, more := tier.log[..base], tier.log[base..];
    assert tier.log == replayed + more;
    if !SlotFilled(cfg, tier, id) {
      forall j | 0 <= j < |more|
        ensures more[j].entityId != id
      {
        assert more[j] == tier.log[base + j];
      }
      ReplayExtension(replayed, more, id);
      if id in Replay(replayed) {
        ReplayedRowsAreComplete(replayed, id);
      }
    }
  }

  lemma {:induction false} AnswersAlike(cfg: Config, tier: Tier, ops: seq<Op>)
    requires TierInv(cfg, tier, 0)
    ensures TieredAnswers(cfg, tier, ops) == PureAnswers(cfg, tier.hot, ops)
    decreases |ops|
  {
    if ops != [] {
      var next := TieredStep(cfg, tier, ops[0]);
      match ops[0] {
        case Apply(r, room) =>
          StoreKeepsInv(cfg, tier, 0, r);
          SendKeepsInv(cfg, StoreHot(cfg, tier, r), 0, CommandOf(cfg, r), room && |tier.queue| < cfg.bound);
        case Get(h) =>
          AlikeIff(cfg, tier, 0, h);
          assert tier.log[..0] == [];
        case Drain =>
          if tier.queue != [] {
            DrainKeepsInv(cfg, tier, 0);
          }
      }
      AnswersAlike(cfg, next, ops[1..]);
    }
  }

  /** Observational equivalence: for every sequence of applies and gets, every drain schedule and every pattern of
      refused sends, a tiered store started on an empty partition and a pure cache give the same answers. */
  lemma TieredIsPure(cfg: Config, ops: seq<Op>)
    ensures TieredAnswers(cfg, Opened(cfg, []), ops) == PureAnswers(cfg, seq(cfg.capacity, _ => None), ops)
  {
    OpenedInv(cfg, []);
    AnswersAlike(cfg, Opened(cfg, []), ops);
  }
}
