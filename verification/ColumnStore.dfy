/** The cold tier as the stores see it: rows of three attributes, written by InsertFast commands
    and read through one-snapshot query sessions. */
module ColumnStore {
  import opened Base

  datatype Command = InsertFast(entityId: U64, epoch: U32, recordType: U32, payload: Bytes)

  datatype Row = Row(payload: Option<Bytes>, epoch: Option<U32>, recordType: Option<U32>)

  type Rows = map<U64, Row>

  function RowOf(c: Command): Row {
    Row(Some(c.payload), Some(c.epoch), Some(c.recordType))
  }

  /** An InsertFast sets the three attributes of one entity together. */
  function Execute(rows: Rows, c: Command): Rows {
    rows[c.entityId := RowOf(c)]
  }

  /** The rows a log of executed commands leaves behind. */
  function Replay(log: seq<Command>): Rows {
    if log == [] then map[] else Execute(Replay(log[..|log| - 1]), log[|log| - 1])
  }

  /** The record a row stands for; a missing epoch or type reads as 0, a missing payload as nothing. */
  function RowRecord(row: Row): Option<SignedRecord> {
    if row.payload.None? then None
    else Some(SignedRecord(row.epoch.GetOr(0), row.payload.value, ZeroSignature(), row.recordType.GetOr(0)))
  }

  /** What the cold tier makes of a command. */
  function RecordIn(c: Command): (r: SignedRecord)
    ensures RowRecord(RowOf(c)) == Some(r)
  {
    SignedRecord(c.epoch, c.payload, ZeroSignature(), c.recordType)
  }

  /** The session read behind `get_record`. */
  function ColdRecord(rows: Rows, id: U64): Option<SignedRecord> {
    if id in rows then RowRecord(rows[id]) else None
  }

  /** What survives of a record in the cold tier: the epoch loses its high half, the signature is zeroed. */
  function Coldify(r: SignedRecord): SignedRecord {
    r.(epochId := r.epochId % TWO_32, judgeSignature := ZeroSignature())
  }

  /** `c` is the last command on its entity in `log`, at position `i`. */
  predicate LastOn(log: seq<Command>, id: U64, i: int) {
    && 0 <= i < |log|
    && log[i].entityId == id
    && forall j :: i < j < |log| ==> log[j].entityId != id
  }

  predicate Untouched(log: seq<Command>, id: U64) {
    forall j :: 0 <= j < |log| ==> log[j].entityId != id
  }

  /** An entity's row is the one its last command wrote; entities never written have no row. */
  lemma {:induction false} ReplayIsLastWrite(log: seq<Command>, id: U64)
    ensures id !in Replay(log) <==> Untouched(log, id)
    ensures forall i :: LastOn(log, id, i) ==> id in Replay(log) && Replay(log)[id] == RowOf(log[i])
    ensures id in Replay(log) ==> exists i :: LastOn(log, id, i)
  {
    if log != [] {
      var front, n := log[..|log| - 1], |log| - 1;
      ReplayIsLastWrite(front, id);
      if log[n].entityId == id {
        assert LastOn(log, id, n);
      } else {
        forall i | LastOn(log, id, i)
          ensures LastOn(front, id, i)
        {
        }
        if id in Replay(log) {
          var i :| LastOn(front, id, i);
          assert LastOn(log, id, i);
        }
      }
    }
  }

  /** Extending a log leaves the rows of entities it does not mention alone. */
  lemma ReplayExtension(log: seq<Command>, more: seq<Command>, id: U64)
    ensures Untouched(more, id) ==> ColdRecord(Replay(log + more), id) == ColdRecord(Replay(log), id)
    ensures !Untouched(more, id) ==>
              exists i :: LastOn(more, id, i) && id in Replay(log + more) && Replay(log + more)[id] == RowOf(more[i])
  {
    var all := log + more;
    assert forall j :: 0 <= j < |log| ==> all[j] == log[j];
    assert forall j :: 0 <= j < |more| ==> all[|log| + j] == more[j];
    ReplayIsLastWrite(log, id);
    ReplayIsLastWrite(all, id);
    if !Untouched(more, id) {
      var x :| LastOn(all, id, x);
      assert LastOn(more, id, x - |log|);
    } else if id in Replay(log) {
      var x :| LastOn(log, id, x);
      assert LastOn(all, id, x);
    }
  }

  /** Every row of a replayed log is complete. */
  lemma ReplayedRowsAreComplete(log: seq<Command>, id: U64)
    requires id in Replay(log)
    ensures var row := Replay(log)[id]; row.payload.Some? && row.epoch.Some? && row.recordType.Some?
  {
    ReplayIsLastWrite(log, id);
    var i :| LastOn(log, id, i);
  }

  // --- Listing by epoch ---

  /** `entities` enumerates the entities of a snapshot, each once. */
  ghost predicate Enumerates(entities: seq<U64>, rows: Rows) {
    && (forall id :: id in entities <==> id in rows)
    && (forall i, j :: 0 <= i < j < |entities| ==> entities[i] != entities[j])
  }

  predicate ListedAt(rows: Rows, id: U64, epoch: U64) {
    id in rows && rows[id].payload.Some? && rows[id].epoch == Some(epoch)
  }

  /** The entities of a snapshot that an epoch query lists, in snapshot order. */
  function ListedIds(entities: seq<U64>, rows: Rows, epoch: U64): (ids: seq<U64>)
    ensures forall id :: id in ids <==> id in entities && ListedAt(rows, id, epoch)
  {
    if entities == [] then []
    else
      var front := ListedIds(entities[..|entities| - 1], rows, epoch);
      var last := entities[|entities| - 1];
      if ListedAt(rows, last, epoch) then front + [last] else front
  }

  lemma ListedIdsStep(entities: seq<U64>, rows: Rows, epoch: U64, i: nat)
    requires i < |entities|
    ensures ListedIds(entities[..i + 1], rows, epoch) ==
            ListedIds(entities[..i], rows, epoch) + if ListedAt(rows, entities[i], epoch) then [entities[i]] else []
  {
    assert entities[..i + 1][..i] == entities[..i];
  }

  lemma {:induction false} ListedOnce(entities: seq<U64>, rows: Rows, epoch: U64)
    requires forall i, j :: 0 <= i < j < |entities| ==> entities[i] != entities[j]
    ensures var ids := ListedIds(entities, rows, epoch);
            forall i, j :: 0 <= i < j < |ids| ==> ids[i] != ids[j]
  {
    if entities != [] {
      var n := |entities| - 1;
      ListedOnce(entities[..n], rows, epoch);
      assert entities[n] !in entities[..n];
      assert entities[n] !in ListedIds(entities[..n], rows, epoch);
    }
  }

  lemma {:induction false} LargeEpochsListNothing(entities: seq<U64>, rows: Rows, epoch: U64)
    requires epoch >= TWO_32
    ensures ListedIds(entities, rows, epoch) == []
  {
    if entities != [] {
      LargeEpochsListNothing(entities[..|entities| - 1], rows, epoch);
    }
  }

  /** The epoch queries partition the entities that have a payload and an epoch: each is listed by exactly one
      epoch, that epoch is below 2^32, and larger epochs list nothing. */
  lemma EpochsPartition(entities: seq<U64>, rows: Rows, id: U64)
    requires Enumerates(entities, rows)
    ensures (id in rows && rows[id].payload.Some? && rows[id].epoch.Some?) <==>
            (exists e: U64 :: e < TWO_32 && id in ListedIds(entities, rows, e))
    ensures forall e1: U64, e2: U64 ::
              id in ListedIds(entities, rows, e1) && id in ListedIds(entities, rows, e2) ==> e1 == e2
    ensures forall e: U64 :: e >= TWO_32 ==> ListedIds(entities, rows, e) == []
  {
    if id in rows && rows[id].payload.Some? && rows[id].epoch.Some? {
      var e: U64 := rows[id].epoch.value;
      assert id in ListedIds(entities, rows, e);
    }
    forall e: U64 | e >= TWO_32
      ensures ListedIds(entities, rows, e) == []
    {
      LargeEpochsListNothing(entities, rows, e);
    }
  }
}
