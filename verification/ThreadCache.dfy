/** The single-entry thread-local cache of a worker and three columns, and the fast read path built on it. */
module ThreadCache {
  import opened Base
  import opened ColumnStore

  /** Addresses of shared routes; no object lives at address 0. */
  type Address = n: nat | n > 0 witness 1

  /** The column names "payload", "epoch" and "type". */
  datatype Attribute = Payload | Epoch | Type

  /** One snapshot of a columnar partition: per entity, the index of each attribute; per attribute, its column. */
  datatype Snapshot = Snapshot(
    pointers: map<U64, map<Attribute, nat>>,
    blobs: map<Attribute, seq<Option<Bytes>>>,
    ints: map<Attribute, seq<Option<U32>>>)

  function Element<T>(column: seq<Option<T>>, idx: nat): Option<T> {
    if idx < |column| then column[idx] else None
  }

  /** What a query session resolves for an attribute. */
  function BlobAt(snap: Snapshot, id: U64, attr: Attribute): Option<Bytes> {
    if id in snap.pointers && attr in snap.pointers[id] && attr in snap.blobs
    then Element(snap.blobs[attr], snap.pointers[id][attr])
    else None
  }

  function IntAt(snap: Snapshot, id: U64, attr: Attribute): Option<U32> {
    if id in snap.pointers && attr in snap.pointers[id] && attr in snap.ints
    then Element(snap.ints[attr], snap.pointers[id][attr])
    else None
  }

  function RowsOf(snap: Snapshot): Rows {
    map id | id in snap.pointers :: Row(BlobAt(snap, id, Payload), IntAt(snap, id, Epoch), IntAt(snap, id, Type))
  }

  /** The plain session read, as `get_record` performs it on a miss. */
  function SessionRead(snap: Snapshot, id: U64): Option<SignedRecord> {
    ColdRecord(RowsOf(snap), id)
  }

  predicate ColumnsPresent(snap: Snapshot) {
    Payload in snap.blobs && Epoch in snap.ints && Type in snap.ints
  }

  /** The fast path: all three columns, the entity, and all three attributes must resolve. */
  function FastRead(snap: Snapshot, id: U64): Option<SignedRecord> {
    if !ColumnsPresent(snap) || id !in snap.pointers then None
    else
      var p := snap.pointers[id];
      if Payload !in p || Epoch !in p || Type !in p then None
      else
        var payload := Element(snap.blobs[Payload], p[Payload]);
        var epoch := Element(snap.ints[Epoch], p[Epoch]);
        var recordType := Element(snap.ints[Type], p[Type]);
        if payload.None? || epoch.None? || recordType.None? then None
        else Some(SignedRecord(epoch.value, payload.value, ZeroSignature(), recordType.value))
  }

  /** The entity carries all three attributes with valid indices. */
  predicate Complete(snap: Snapshot, id: U64) {
    BlobAt(snap, id, Payload).Some? && IntAt(snap, id, Epoch).Some? && IntAt(snap, id, Type).Some?
  }

  predicate AllComplete(snap: Snapshot) {
    forall id :: id in snap.pointers ==> Complete(snap, id)
  }

  /** Whenever the fast path returns a record, the session read returns the same one. */
  lemma FastRefinesSession(snap: Snapshot, id: U64)
    ensures FastRead(snap, id).Some? ==> SessionRead(snap, id) == FastRead(snap, id)
    ensures FastRead(snap, id).Some? <==> Complete(snap, id)
  {
  }

  /** The two reads agree exactly when an entity with a payload also has an epoch and a type. */
  lemma FastAgreesIff(snap: Snapshot, id: U64)
    ensures FastRead(snap, id) == SessionRead(snap, id) <==>
            (BlobAt(snap, id, Payload).Some? ==> IntAt(snap, id, Epoch).Some? && IntAt(snap, id, Type).Some?)
  {
    FastRefinesSession(snap, id);
  }

  /** If every published entity is complete, the two reads agree on every entity id, and no read leaks a pin. */
  lemma CompleteSnapshotsAgree(snap: Snapshot, id: U64)
    requires AllComplete(snap)
    ensures FastRead(snap, id) == SessionRead(snap, id)
    ensures !Leaks(snap, id)
  {
    FastRefinesSession(snap, id);
  }

  /** The fast reads that return early between enter and leave. */
  predicate Leaks(snap: Snapshot, id: U64) {
    ColumnsPresent(snap) && id in snap.pointers && !Complete(snap, id)
  }

  // --- What the stores publish ---

  /** An InsertFast appends one element to each of the three columns and points its entity at them. */
  function Publish(snap: Snapshot, c: Command): (s: Snapshot)
    requires ColumnsPresent(snap)
    ensures ColumnsPresent(s)
  {
    var p := map[Payload := |snap.blobs[Payload]|, Epoch := |snap.ints[Epoch]|, Type := |snap.ints[Type]|];
    Snapshot(
      snap.pointers[c.entityId := p],
      snap.blobs[Payload := snap.blobs[Payload] + [Some(c.payload)]],
      snap.ints[Epoch := snap.ints[Epoch] + [Some(c.epoch)]][Type := snap.ints[Type] + [Some(c.recordType)]])
  }

  /** The snapshot that a log of commands leaves behind. */
  function SnapshotOf(log: seq<Command>): (s: Snapshot)
    ensures ColumnsPresent(s)
  {
    if log == [] then Snapshot(map[], map[Payload := []], map[Epoch := [], Type := []])
    else Publish(SnapshotOf(log[..|log| - 1]), log[|log| - 1])
  }

  predicate IndicesInRange(snap: Snapshot)
    requires ColumnsPresent(snap)
  {
    forall id :: id in snap.pointers ==>
      var p := snap.pointers[id];
      && Payload in p && p[Payload] < |snap.blobs[Payload]|
      && Epoch in p && p[Epoch] < |snap.ints[Epoch]|
      && Type in p && p[Type] < |snap.ints[Type]|
  }

  lemma PublishedRows(snap: Snapshot, c: Command)
    requires ColumnsPresent(snap) && IndicesInRange(snap)
    ensures IndicesInRange(Publish(snap, c))
    ensures RowsOf(Publish(snap, c)) == Execute(RowsOf(snap), c)
  {
    var s := Publish(snap, c);
    forall id | id in s.pointers
      ensures id in Execute(RowsOf(snap), c) && RowsOf(s)[id] == Execute(RowsOf(snap), c)[id]
    {
      if id != c.entityId {
        assert id in RowsOf(snap);
      }
    }
  }

  /** Columns and pointers together hold exactly the rows that replaying the log gives. */
  lemma {:induction false} SnapshotHoldsReplay(log: seq<Command>)
    ensures IndicesInRange(SnapshotOf(log)) && RowsOf(SnapshotOf(log)) == Replay(log)
  {
    if log != [] {
      SnapshotHoldsReplay(log[..|log| - 1]);
      PublishedRows(SnapshotOf(log[..|log| - 1]), log[|log| - 1]);
    }
  }

  /** What the stores write never leaks, whatever the layout: in a snapshot whose rows are those of a log of their
      commands every entity is complete, so every fast read returns the cold record and leaves the pin balanced. */
  lemma StoresNeverLeak(snap: Snapshot, log: seq<Command>, id: U64)
    requires RowsOf(snap) == Replay(log)
    ensures AllComplete(snap)
    ensures FastRead(snap, id) == ColdRecord(Replay(log), id) && !Leaks(snap, id)
  {
    forall e | e in snap.pointers
      ensures Complete(snap, e)
    {
      assert e in RowsOf(snap);
      ReplayedRowsAreComplete(log, e);
    }
    CompleteSnapshotsAgree(snap, id);
  }

  /** Both reads of a published log return the contents of the last command on the entity, and nothing exactly when
      there is none; the fast one leaves the pin balanced. */
  lemma PublishedReads(log: seq<Command>, id: U64)
    ensures var snap := SnapshotOf(log);
            && !Leaks(snap, id) && FastRead(snap, id) == SessionRead(snap, id)
            && match FastRead(snap, id)
               case None => forall x :: 0 <= x < |log| ==> log[x].entityId != id
               case Some(r) => exists x :: LastOn(log, id, x) && r == RecordIn(log[x])
  {
    SnapshotHoldsReplay(log);
    StoresNeverLeak(SnapshotOf(log), log, id);
    ReplayIsLastWrite(log, id);
  }

  /** A snapshot another writer could leave: one entity with a payload and nothing else. */
  function PayloadOnly(id: U64, payload: Bytes): Snapshot {
    Snapshot(map[id := map[Payload := 0]], map[Payload := [Some(payload)]], map[Epoch := [], Type := []])
  }

  // --- Objects ---

  class WorkerState {
    var depth: int

    constructor ()
      ensures depth == 0
    {
      depth := 0;
    }

    method Enter()
      modifies this
      ensures depth == old(depth) + 1
    {
      depth := depth + 1;
    }

    method Leave()
      modifies this
      ensures depth == old(depth) - 1
    {
      depth := depth - 1;
    }
  }

  class ColumnArray<T> {
    var elements: seq<Option<T>>

    function GetElementPinned(idx: nat): Option<T>
      reads this
    {
      Element(elements, idx)
    }
  }

  class PartitionRoute {
    const address: Address
    var pointers: map<U64, map<Attribute, nat>>
    var blobs: map<Attribute, ColumnArray<Bytes>>
    var ints: map<Attribute, ColumnArray<U32>>

    ghost function Snap(): Snapshot
      reads this, blobs.Values, ints.Values
    {
      Snapshot(
        pointers,
        map a | a in blobs :: blobs[a].elements,
        map a | a in ints :: ints[a].elements)
    }

    /** `made` counts the registrations of the calling thread. */
    method RegisterWorker(ghost made: nat) returns (w: WorkerState, ghost made': nat)
      ensures fresh(w) && w.depth == 0 && made' == made + 1
    {
      w := new WorkerState();
      made' := made + 1;
    }

    method GetColumnBlob(name: Attribute, w: WorkerState) returns (col: ColumnArray?<Bytes>)
      ensures if name in blobs then col == blobs[name] else col == null
    {
      if name in blobs {
        col := blobs[name];
      } else {
        col := null;
      }
    }

    method GetColumnInt(name: Attribute, w: WorkerState) returns (col: ColumnArray?<U32>)
      ensures if name in ints then col == ints[name] else col == null
    {
      if name in ints {
        col := ints[name];
      } else {
        col := null;
      }
    }

    /** The three attribute reads of one query session. */
    method SessionGet(id: U64) returns (record: Option<SignedRecord>)
      ensures record == SessionRead(Snap(), id)
    {
      ghost var snap := Snap();
      var payload, epoch, recordType := None, None, None;
      if id in pointers {
        var p := pointers[id];
        if Payload in p && Payload in blobs {
          payload := blobs[Payload].GetElementPinned(p[Payload]);
        }
        if Epoch in p && Epoch in ints {
          epoch := ints[Epoch].GetElementPinned(p[Epoch]);
        }
        if Type in p && Type in ints {
          recordType := ints[Type].GetElementPinned(p[Type]);
        }
      }
      assert payload == BlobAt(snap, id, Payload);
      assert epoch == IntAt(snap, id, Epoch);
      assert recordType == IntAt(snap, id, Type);
      if payload.Some? {
        record := Some(SignedRecord(epoch.GetOr(0), payload.value, ZeroSignature(), recordType.GetOr(0)));
      } else {
        record := None;
      }
    }
  }

  /** What a sequence of calls depends on: the cached address, the registrations made so far, the enter/leave depth of
      the cached worker, and the depths at which the workers before it were left, added up. Nothing reaches a worker
      again once its route has been left, so the two depths together are the pins the thread holds. */
  datatype TlsView = TlsView(key: nat, registrations: nat, depth: int, abandoned: int)

  /** A call on the route at `addr`; `leak` when it returns between enter and leave. */
  datatype Call = Call(addr: Address, leak: bool)

  function After(v: TlsView, c: Call): TlsView {
    var pinned := if c.leak then 1 else 0;
    if v.key == c.addr then v.(depth := v.depth + pinned)
    else TlsView(c.addr, v.registrations + 1, pinned, v.abandoned + v.depth)
  }

  class TlsWorkerCache {
    var key: nat
    var worker: WorkerState?
    var colPayload: ColumnArray?<Bytes>
    var colEpoch: ColumnArray?<U32>
    var colType: ColumnArray?<U32>
    ghost var owner: PartitionRoute?
    ghost var registrations: nat
    ghost var abandoned: int

    /** Once a route is cached its worker is there, and cached columns are that route's own columns. */
    ghost predicate Valid()
      reads this, owner
    {
      && (worker == null <==> key == 0)
      && (owner == null <==> key == 0)
      && (owner == null ==> colPayload == null && colEpoch == null && colType == null)
      && (owner != null ==> owner.address == key)
      && (colPayload != null ==> Payload in owner.blobs && owner.blobs[Payload] == colPayload)
      && (colEpoch != null ==> Epoch in owner.ints && owner.ints[Epoch] == colEpoch)
      && (colType != null ==> Type in owner.ints && owner.ints[Type] == colType)
    }

    /** Addresses identify routes. */
    ghost predicate Identifies(route: PartitionRoute)
      reads this
    {
      owner != null && owner.address == route.address ==> owner == route
    }

    ghost function View(): TlsView
      reads this, worker
    {
      TlsView(key, registrations, if worker == null then 0 else worker.depth, abandoned)
    }

    constructor ()
      ensures Valid() && View() == TlsView(0, 0, 0, 0)
    {
      key := 0;
      worker := null;
      colPayload, colEpoch, colType := null, null, null;
      owner := null;
      registrations, abandoned := 0, 0;
    }

    /** Point the cache at `route`, registering a new worker. */
    method Switch(route: PartitionRoute)
      modifies this
      ensures Valid() && owner == route && worker != null && fresh(worker)
      ensures var was := old(View());
              View() == TlsView(route.address, was.registrations + 1, 0, was.abandoned + was.depth)
    {
      var w, made := route.RegisterWorker(registrations);
      registrations, abandoned := made, abandoned + View().depth;
      key := route.address;
      worker := w;
      colPayload, colEpoch, colType := null, null, null;
      owner := route;
    }

    method GetWorker(route: PartitionRoute) returns (w: WorkerState)
      requires Valid() && Identifies(route)
      modifies this
      ensures Valid() && owner == route && worker == w
      ensures old(key) == route.address ==> w == old(worker)
      ensures old(key) != route.address ==> fresh(w)
      ensures View() == After(old(View()), Call(route.address, false))
    {
      if key == route.address {
        if worker != null {
          return worker;
        }
      }
      Switch(route);
      w := worker;
    }

    /** Look a blob column up under a pin. */
    method FindBlob(route: PartitionRoute, name: Attribute) returns (col: ColumnArray?<Bytes>)
      requires worker != null
      modifies worker
      ensures worker.depth == old(worker.depth)
      ensures if name in route.blobs then col == route.blobs[name] else col == null
    {
      worker.Enter();
      col := route.GetColumnBlob(name, worker);
      worker.Leave();
    }

    /** Look an integer column up under a pin. */
    method FindInt(route: PartitionRoute, name: Attribute) returns (col: ColumnArray?<U32>)
      requires worker != null
      modifies worker
      ensures worker.depth == old(worker.depth)
      ensures if name in route.ints then col == route.ints[name] else col == null
    {
      worker.Enter();
      col := route.GetColumnInt(name, worker);
      worker.Leave();
    }

    /** Fill the missing columns of the cached route. */
    method LoadColumns(route: PartitionRoute)
      requires Valid() && owner == route && worker != null
      modifies this`colPayload, this`colEpoch, this`colType, worker
      ensures Valid() && View() == old(View())
      ensures colPayload == null <==> Payload !in route.blobs
      ensures colEpoch == null <==> Epoch !in route.ints
      ensures colType == null <==> Type !in route.ints
    {
      if colPayload == null {
        colPayload := FindBlob(route, Payload);
      }
      if colEpoch == null {
        colEpoch := FindInt(route, Epoch);
      }
      if colType == null {
        colType := FindInt(route, Type);
      }
    }

    /** The pinned part of the fast read; its early returns skip the leave. */
    method ReadPinned(route: PartitionRoute, id: U64) returns (record: Option<SignedRecord>)
      requires Valid() && owner == route && worker != null
      requires colPayload != null && colEpoch != null && colType != null
      modifies worker
      ensures record == FastRead(route.Snap(), id)
      ensures worker.depth == old(worker.depth) + if Leaks(route.Snap(), id) then 1 else 0
    {
      ghost var snap := route.Snap();
      assert snap.blobs[Payload] == colPayload.elements;
      assert snap.ints[Epoch] == colEpoch.elements;
      assert snap.ints[Type] == colType.elements;
      worker.Enter();
      if id in route.pointers {
        var p := route.pointers[id];
        if Payload !in p {
          return None;
        }
        if Epoch !in p {
          return None;
        }
        if Type !in p {
          return None;
        }
        var payload := colPayload.GetElementPinned(p[Payload]);
        if payload.None? {
          return None;
        }
        var epoch := colEpoch.GetElementPinned(p[Epoch]);
        if epoch.None? {
          return None;
        }
        var recordType := colType.GetElementPinned(p[Type]);
        if recordType.None? {
          return None;
        }
        record := Some(SignedRecord(epoch.value, payload.value, ZeroSignature(), recordType.value));
      } else {
        record := None;
      }
      worker.Leave();
    }

    /** The fast read. From every valid cache state it returns what FastRead says of the route's snapshot, and it
        leaves the worker one level deeper exactly when the entity is published without all its attributes. */
    method GetRecordFromRoute(route: PartitionRoute, id: U64) returns (record: Option<SignedRecord>)
      requires Valid() && Identifies(route)
      modifies this, worker
      ensures Valid() && owner == route && worker != null
      ensures if old(key) == route.address then worker == old(worker) else fresh(worker)
      ensures record == FastRead(route.Snap(), id)
      ensures View() == After(old(View()), Call(route.address, Leaks(route.Snap(), id)))
    {
      if key != route.address {
        Switch(route);
      }
      LoadColumns(route);
      if colPayload == null || colEpoch == null || colType == null {
        return None;
      }
      record := ReadPinned(route, id);
    }

    /** One query session: pinned from its opening to its end. */
    method SessionPinned(route: PartitionRoute, w: WorkerState, id: U64) returns (record: Option<SignedRecord>)
      modifies w
      ensures w.depth == old(w.depth)
      ensures record == SessionRead(route.Snap(), id)
    {
      w.Enter();
      record := route.SessionGet(id);
      w.Leave();
    }

    /** The read `get_record` makes on a miss: the cached worker is pinned for the lifetime of the session. */
    method ReadThroughSession(route: PartitionRoute, id: U64) returns (record: Option<SignedRecord>)
      requires Valid() && Identifies(route)
      modifies this, worker
      ensures Valid() && owner == route && worker != null
      ensures record == SessionRead(route.Snap(), id)
      ensures View() == After(old(View()), Call(route.address, false))
    {
      var w := GetWorker(route);
      record := SessionPinned(route, w, id);
    }
  }

  // --- Whole call sequences ---

  function AfterAll(calls: seq<Call>): TlsView {
    if calls == [] then TlsView(0, 0, 0, 0)
    else After(AfterAll(calls[..|calls| - 1]), calls[|calls| - 1])
  }

  /** The positions at which the route differs from the previous call's. */
  function Switches(calls: seq<Call>): set<nat> {
    set i: nat | 0 < i < |calls| && SwitchAt(calls, i)
  }

  predicate SwitchAt(calls: seq<Call>, i: nat)
    requires 0 < i < |calls|
  {
    calls[i].addr != calls[i - 1].addr
  }

  function Routes(calls: seq<Call>): set<Address> {
    set i: nat | i < |calls| :: calls[i].addr
  }

  /** Registrations over a whole sequence: none for the empty sequence, otherwise one plus the route switches. */
  lemma {:induction false} RegistrationsAreSwitches(calls: seq<Call>)
    ensures AfterAll(calls).registrations == if calls == [] then 0 else 1 + |Switches(calls)|
    ensures AfterAll(calls).key == if calls == [] then 0 else calls[|calls| - 1].addr
  {
    if calls != [] {
      var n := |calls| - 1;
      RegistrationsAreSwitches(calls[..n]);
      assert forall i: nat :: 0 < i < n ==> SwitchAt(calls[..n], i) == SwitchAt(calls, i);
      if n > 0 && SwitchAt(calls, n) {
        assert Switches(calls) == Switches(calls[..n]) + {n};
      } else {
        assert Switches(calls) == Switches(calls[..n]);
      }
    }
  }

  /** A thread that only ever uses one route registers exactly once. */
  lemma SingleRouteRegistersOnce(calls: seq<Call>, addr: Address)
    requires calls != [] && forall i :: 0 <= i < |calls| ==> calls[i].addr == addr
    ensures AfterAll(calls).registrations == 1
  {
    RegistrationsAreSwitches(calls);
    assert Switches(calls) == {};
  }

  /** The thread never comes back to a route it has left. */
  ghost predicate NeverReturns(calls: seq<Call>) {
    forall i: nat :: 0 < i < |calls| && SwitchAt(calls, i) ==> calls[i].addr !in Routes(calls[..i])
  }

  lemma NeverReturnsStep(calls: seq<Call>)
    requires calls != []
    ensures var n := |calls| - 1;
            NeverReturns(calls) <==>
            NeverReturns(calls[..n]) && (n > 0 && SwitchAt(calls, n) ==> calls[n].addr !in Routes(calls[..n]))
  {
    var n := |calls| - 1;
    forall i: nat | 0 < i < n
      ensures calls[..n][..i] == calls[..i] && SwitchAt(calls[..n], i) == SwitchAt(calls, i)
    {
    }
  }

  lemma RoutesStep(calls: seq<Call>)
    requires calls != []
    ensures var n := |calls| - 1;
            && Routes(calls) == Routes(calls[..n]) + {calls[n].addr}
            && (n > 0 ==> calls[n - 1].addr in Routes(calls[..n]))
  {
    var n := |calls| - 1;
    forall i: nat | i < |calls|
      ensures calls[i].addr in Routes(calls[..n]) + {calls[n].addr}
    {
      if i < n {
        assert calls[..n][i].addr in Routes(calls[..n]);
      }
    }
    if n > 0 {
      assert calls[..n][n - 1].addr in Routes(calls[..n]);
    }
  }

  /** A thread registers once per route, as documented, exactly when it never comes back to a route it has left;
      otherwise it registers more often. */
  lemma {:induction false} OncePerRouteIff(calls: seq<Call>)
    ensures AfterAll(calls).registrations >= |Routes(calls)|
    ensures AfterAll(calls).registrations == |Routes(calls)| <==> NeverReturns(calls)
  {
    if calls != [] {
      var n := |calls| - 1;
      OncePerRouteIff(calls[..n]);
      RegistrationsAreSwitches(calls[..n]);
      RoutesStep(calls);
      NeverReturnsStep(calls);
      if calls[n].addr in Routes(calls[..n]) {
        assert Routes(calls) == Routes(calls[..n]);
      }
    } else {
      assert Routes(calls) == {};
    }
  }

  /** Going back and forth between two routes registers a third time. */
  lemma ReturningRegistersAgain(a: Address, b: Address)
    requires a != b
    ensures var calls := [Call(a, false), Call(b, false), Call(a, false)];
            AfterAll(calls).registrations == 3 && |Routes(calls)| == 2
  {
    var calls := [Call(a, false), Call(b, false), Call(a, false)];
    RegistrationsAreSwitches(calls);
    assert SwitchAt(calls, 1) && SwitchAt(calls, 2);
    assert Switches(calls) == {1, 2};
    assert Routes(calls) == {a, b} by {
      assert calls[0].addr == a && calls[1].addr == b;
    }
  }

  /** Call `i` was made on the worker that is cached after the whole sequence. */
  predicate OnCurrentWorker(calls: seq<Call>, i: nat)
    requires i < |calls|
  {
    forall j :: i < j < |calls| ==> calls[j].addr == calls[i].addr
  }

  /** The leaking calls made on the current worker. */
  function CurrentLeaks(calls: seq<Call>): set<nat> {
    set i: nat | i < |calls| && calls[i].leak && OnCurrentWorker(calls, i)
  }

  lemma CurrentLeaksStep(calls: seq<Call>)
    requires calls != []
    ensures var n := |calls| - 1;
            CurrentLeaks(calls) ==
            (if n > 0 && calls[n - 1].addr == calls[n].addr then CurrentLeaks(calls[..n]) else {}) +
            (if calls[n].leak then {n} else {})
  {
    var n := |calls| - 1;
    forall i: nat | i < n
      ensures OnCurrentWorker(calls, i) <==> OnCurrentWorker(calls[..n], i) && calls[n - 1].addr == calls[n].addr
    {
      if OnCurrentWorker(calls[..n], i) {
        assert i < n - 1 ==> calls[..n][n - 1].addr == calls[i].addr;
      }
    }
  }

  /** Pin balance: after any sequence of calls the worker's depth is the number of leaking calls since it was
      registered, so it is zero exactly when there were none. */
  lemma {:induction false} DepthCountsLeaks(calls: seq<Call>)
    ensures AfterAll(calls).depth == |CurrentLeaks(calls)|
    ensures AfterAll(calls).depth == 0 <==> CurrentLeaks(calls) == {}
  {
    if calls != [] {
      DepthCountsLeaks(calls[..|calls| - 1]);
      RegistrationsAreSwitches(calls[..|calls| - 1]);
      CurrentLeaksStep(calls);
    } else {
      assert CurrentLeaks(calls) == {};
    }
  }

  function AllLeaks(calls: seq<Call>): set<nat> {
    set i: nat | i < |calls| && calls[i].leak
  }

  /** No leaked pin is ever given back: over all workers the thread has registered, those it has left included, the
      depths add up to the number of leaking calls. */
  lemma {:induction false} DepthsAddUpToLeaks(calls: seq<Call>)
    ensures AfterAll(calls).depth + AfterAll(calls).abandoned == |AllLeaks(calls)|
  {
    if calls != [] {
      var n := |calls| - 1;
      DepthsAddUpToLeaks(calls[..n]);
      assert AllLeaks(calls) == AllLeaks(calls[..n]) + if calls[n].leak then {n} else {};
    } else {
      assert AllLeaks(calls) == {};
    }
  }

  /** The calls a sequence of fast reads makes, each against the snapshot it finds. */
  function CallsOf(gets: seq<(Address, Snapshot, U64)>): seq<Call> {
    seq(|gets|, i requires 0 <= i < |gets| => Call(gets[i].0, Leaks(gets[i].1, gets[i].2)))
  }

  /** If every published entity is complete, every sequence of fast reads, over any routes, is at depth zero after
      each of its calls and has left no worker pinned. */
  lemma CompleteRoutesStayBalanced(gets: seq<(Address, Snapshot, U64)>, n: nat)
    requires n <= |gets|
    requires forall i :: 0 <= i < |gets| ==> AllComplete(gets[i].1)
    ensures AfterAll(CallsOf(gets)[..n]).depth == 0 && AfterAll(CallsOf(gets)[..n]).abandoned == 0
  {
    var calls := CallsOf(gets)[..n];
    forall i: nat | i < n
      ensures !calls[i].leak
    {
      CompleteSnapshotsAgree(gets[i].1, gets[i].2);
    }
    DepthCountsLeaks(calls);
    DepthsAddUpToLeaks(calls);
    assert CurrentLeaks(calls) == {} && AllLeaks(calls) == {};
  }

  /** One read of an entity that has only a payload: the fast path finds nothing where the session finds a record, and
      the worker stays pinned. */
  lemma PayloadOnlyLeaks(addr: Address, id: U64, payload: Bytes)
    ensures var snap := PayloadOnly(id, payload);
            && FastRead(snap, id) == None
            && SessionRead(snap, id) == Some(SignedRecord(0, payload, ZeroSignature(), 0))
            && AfterAll(CallsOf([(addr, snap, id)])) == TlsView(addr, 1, 1, 0)
  {
    var calls := CallsOf([(addr, PayloadOnly(id, payload), id)]);
    assert calls == [Call(addr, true)];
    assert calls[..0] == [];
  }

  /** What a fast read is, on the route as it stands: the call it makes, and its answer. */
  ghost function ReadOf(get: (PartitionRoute, U64)): (Call, Option<SignedRecord>)
    reads get.0, get.0.blobs.Values, get.0.ints.Values
  {
    (Call(get.0.address, Leaks(get.0.Snap(), get.1)), FastRead(get.0.Snap(), get.1))
  }

  /** As long as nothing writes a route and its columns, reads of it stay the same. */
  twostate lemma UnwrittenReadsAlike(get: (PartitionRoute, U64))
    ensures unchanged(get.0) && unchanged(old(get.0.blobs.Values)) && unchanged(old(get.0.ints.Values)) ==>
              ReadOf(get) == old(ReadOf(get))
  {
  }

  /** One more fast read on a cache that has seen `calls`. */
  method ReadNext(tls: TlsWorkerCache, get: (PartitionRoute, U64), ghost calls: seq<Call>, ghost call: Call,
                  ghost answer: Option<SignedRecord>)
    returns (record: Option<SignedRecord>)
    requires tls.Valid() && tls.Identifies(get.0)
    requires tls.View() == AfterAll(calls) && ReadOf(get) == (call, answer)
    modifies tls, tls.worker
    ensures tls.Valid() && tls.owner == get.0 && tls.worker != null
    ensures tls.worker == old(tls.worker) || fresh(tls.worker)
    ensures tls.View() == AfterAll(calls + [call]) && record == answer
  {
    assert (calls + [call])[..|calls|] == calls;
    record := tls.GetRecordFromRoute(get.0, get.1);
    assert ReadOf(get) == old(ReadOf(get));
  }

  /** Routes with one address are one route. */
  ghost predicate AddressesIdentify(gets: seq<(PartitionRoute, U64)>) {
    forall i, j :: 0 <= i < j < |gets| && gets[i].0.address == gets[j].0.address ==> gets[i].0 == gets[j].0
  }

  /** A thread's life: any sequence of fast reads over any routes, on a new cache, answers each as the route's snapshot
      says and leaves the cache exactly as the calls account for. */
  method ReadAll(gets: seq<(PartitionRoute, U64)>, ghost calls: seq<Call>, ghost expected: seq<Option<SignedRecord>>)
    returns (tls: TlsWorkerCache, answers: seq<Option<SignedRecord>>)
    requires |gets| == |calls| == |expected|
    requires forall i {:trigger ReadOf(gets[i])} :: 0 <= i < |gets| ==> ReadOf(gets[i]) == (calls[i], expected[i])
    requires AddressesIdentify(gets)
    ensures fresh(tls) && tls.Valid() && tls.View() == AfterAll(calls)
    ensures answers == expected
  {
    tls := new TlsWorkerCache();
    answers := [];
    for n := 0 to |gets|
      invariant tls.Valid() && fresh(tls) && (tls.worker != null ==> fresh(tls.worker))
      invariant tls.owner == if n == 0 then null else gets[n - 1].0
      invariant tls.View() == AfterAll(calls[..n])
      invariant answers == expected[..n]
    {
      var get := gets[n];
      assert ReadOf(get) == (calls[n], expected[n]) by {
        UnwrittenReadsAlike(get);
      }
      var record := ReadNext(tls, get, calls[..n], calls[n], expected[n]);
      answers := answers + [record];
      assert calls[..n + 1] == calls[..n] + [calls[n]] && expected[..n + 1] == expected[..n] + [expected[n]];
    }
    assert calls[..|gets|] == calls;
  }

  /** A route may gain columns and entities between calls; as long as a column found by name stays the same object,
      a cache of that route stays valid. */
  twostate lemma GrowthKeepsValid(tls: TlsWorkerCache, route: PartitionRoute)
    requires old(tls.Valid()) && unchanged(tls) && tls.owner == route
    requires forall a :: a in old(route.blobs) ==> a in route.blobs && route.blobs[a] == old(route.blobs)[a]
    requires forall a :: a in old(route.ints) ==> a in route.ints && route.ints[a] == old(route.ints)[a]
    ensures tls.Valid()
  {
  }
}
