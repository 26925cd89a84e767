/** Request handling: each request is a task of its own. Tasks interleave at the sends of a VM script frame to the
    serial ports, and in the store step by step: every get and put of a task, and every record the node receives from
    a peer, is a thread of the concurrent store. */
module RequestTask {
  import opened Base
  import opened Addressing
  import opened ColumnStore
  import opened Tiers
  import opened MacAddress

  import Concurrent
  import Linearizability

  datatype GatewayCommand =
    | Get(key: Bytes)
    | Put(key: Bytes, val: Bytes)
    | Info
    | Ping
    | Other

  /** `peer` tells, when the origin is known, whether it is a loopback address. */
  datatype Request = Request(cmd: GatewayCommand, peer: Option<bool>)

  /** The error replies: VM scripts are disabled, the origin is unknown, the origin is not local, the payload is
      over the limit, and the command is unknown. */
  datatype ErrorKind = VmDisabled | VmNoOrigin | VmNotLocal | VmTooLong | UnknownCommand

  datatype Reply =
    | BulkString(val: Option<Bytes>)
    | Ok
    | Pong
    | Error(kind: ErrorKind)

  datatype GatewayFrame = GatewayFrame(macAddr: Bytes, payload: Bytes)

  const VM_PREFIX: Bytes := [118, 109, 58]
  const MAX_SCRIPT := 4096
  const VM_SCRIPT_DISPATCH: Byte := 0x40

  datatype Server = Server(cfg: Config, enableVmScripts: bool, portCount: nat)

  predicate IsVmKey(key: Bytes) {
    VM_PREFIX <= key
  }

  /** The puts that go through the serial ports, if they are admitted. */
  predicate IsVmPut(server: Server, req: Request) {
    req.cmd.Put? && IsVmKey(req.cmd.key) && server.portCount > 0
  }

  /** Why a VM put is refused, if it is. */
  function Refusal(server: Server, req: Request): Option<ErrorKind>
    requires req.cmd.Put?
  {
    if !server.enableVmScripts then Some(VmDisabled)
    else if req.peer == None then Some(VmNoOrigin)
    else if !req.peer.value then Some(VmNotLocal)
    else if |req.cmd.val| > MAX_SCRIPT then Some(VmTooLong)
    else None
  }

  predicate Forwards(server: Server, req: Request) {
    IsVmPut(server, req) && Refusal(server, req) == None
  }

  predicate Rejected(server: Server, req: Request) {
    IsVmPut(server, req) && Refusal(server, req).Some?
  }

  function FrameOf(req: Request): GatewayFrame
    requires req.cmd.Put? && IsVmKey(req.cmd.key)
  {
    GatewayFrame(MacOf(req.cmd.key[|VM_PREFIX|..]), [VM_SCRIPT_DISPATCH] + req.cmd.val)
  }

  // --- Interleaved tasks ---

  /** A task is new, waits to send its frame to port `next`, is inside the store, or has replied. */
  datatype Progress =
    | Spawned
    | Forwarding(next: nat)
    | InStore
    | Finished(reply: Reply)

  datatype Task = Task(req: Request, progress: Progress)

  datatype Offer = Offer(t: nat, frame: GatewayFrame)

  datatype Sent = Sent(t: nat, reply: Reply)

  /** `ports[p]` is what port `p` was offered, `store` the run of the store so far, `replies` the responses. In the
      store a task is the thread of its own number; all other threads are peers. */
  datatype System = System(
    ports: seq<seq<Offer>>,
    store: Concurrent.Run,
    tasks: map<nat, Task>,
    replies: seq<Sent>)

  datatype Event =
    | Spawn(t: nat, req: Request)
    | Resume(t: nat)
    | StoreStep(step: Concurrent.Label)
    | Respond(t: nat)

  /** The store as it is now. */
  function Now(s: System): Concurrent.State
    requires s.store.states != []
  {
    Concurrent.Last(s.store)
  }

  /** Where the thread of a task can be, given the task's progress. */
  predicate Matches(server: Server, task: Task, p: Concurrent.Phase) {
    var hs := server.cfg.hashers;
    match task.progress
    case Spawned => p.Idle?
    case Forwarding(next) => p.Idle? && next < server.portCount && Forwards(server, task.req)
    case InStore =>
      (match task.req.cmd
       case Get(key) => (p.Loading? || p.Missed? || p.Answered?) && p.hash == hs.sha256(key)
       case Put(key, val) =>
         !Rejected(server, task.req) && (p.Idle? || ((p.Storing? || p.Sending?) && p.record == KvRecord(hs, key, val)))
       case _ => false)
    case Finished(reply) =>
      (match task.req.cmd
       case Get(key) => p.Answered? && p.hash == hs.sha256(key) && reply == GetReply(p)
       case _ => p.Idle? && reply == FixedReply(server, task.req))
  }

  /** What `L2Executor::get` makes of the record found. */
  function GetReply(p: Concurrent.Phase): Reply
    requires p.Answered?
  {
    match p.answer
    case None => BulkString(None)
    case Some(r) => BulkString(Some(Decode(r)))
  }

  function InfoText(): Bytes {
    Ascii("worker_id:0\r\nversion:0.1.0\r\n")
  }

  /** The replies that do not depend on the store. */
  function FixedReply(server: Server, req: Request): Reply
    requires !req.cmd.Get?
  {
    match req.cmd
    case Put(_, _) => if Rejected(server, req) then Error(Refusal(server, req).value) else Ok
    case Info => BulkString(Some(InfoText()))
    case Ping => Pong
    case Other => Error(UnknownCommand)
  }

  ghost predicate Wellformed(server: Server, s: System) {
    && Concurrent.IsRun(server.cfg, s.store)
    && Shaped(server.cfg, Now(s).tier)
    && |s.ports| == server.portCount
    && forall t :: t in s.tasks ==> Matches(server, s.tasks[t], Concurrent.PhaseOf(Now(s), t))
  }

  /** A peer may begin an operation under any thread number that is not a task's; every other step of the store
      belongs to an operation already begun, or is the background writer's. */
  predicate Allowed(s: System, l: Concurrent.Label) {
    l.BeginApply? || l.BeginGet? ==> l.t !in s.tasks
  }

  predicate Enabled(server: Server, s: System, e: Event)
    requires s.store.states != []
  {
    match e
    case Spawn(t, _) => t !in s.tasks && t !in Now(s).threads
    case Resume(t) => t in s.tasks && (s.tasks[t].progress.Spawned? || s.tasks[t].progress.Forwarding?)
    case StoreStep(l) => Allowed(s, l) && Concurrent.Enabled(server.cfg, Now(s), l)
    case Respond(t) => t in s.tasks && s.tasks[t].progress.InStore? && Concurrent.AtRest(Concurrent.PhaseOf(Now(s), t))
  }

  function Finish(s: System, t: nat, reply: Reply): System
    requires t in s.tasks
  {
    s.(tasks := s.tasks[t := s.tasks[t].(progress := Finished(reply))], replies := s.replies + [Sent(t, reply)])
  }

  /** The first step of a task in the store. */
  function Entry(server: Server, t: nat, cmd: GatewayCommand): Concurrent.Label
    requires cmd.Get? || cmd.Put?
  {
    match cmd
    case Get(key) => Concurrent.BeginGet(t, server.cfg.hashers.sha256(key))
    case Put(key, val) => Concurrent.BeginApply(t, KvRecord(server.cfg.hashers, key, val))
  }

  function Enter(server: Server, s: System, t: nat): System
    requires s.store.states != [] && Shaped(server.cfg, Now(s).tier) && Concurrent.AtRest(Concurrent.PhaseOf(Now(s), t))
    requires t in s.tasks && (s.tasks[t].req.cmd.Get? || s.tasks[t].req.cmd.Put?)
  {
    s.(store := Concurrent.Grown(server.cfg, s.store, Entry(server, t, s.tasks[t].req.cmd)),
       tasks := s.tasks[t := s.tasks[t].(progress := InStore)])
  }

  /** Dispatch runs to the store, to the first suspension point of an admitted VM put, or to the reply. */
  function Dispatch(server: Server, s: System, t: nat): System
    requires Wellformed(server, s) && t in s.tasks && s.tasks[t].progress.Spawned?
  {
    var req := s.tasks[t].req;
    match req.cmd
    case Get(_) => Enter(server, s, t)
    case Put(_, _) =>
      if Forwards(server, req) then s.(tasks := s.tasks[t := Task(req, Forwarding(0))])
      else if Rejected(server, req) then Finish(s, t, FixedReply(server, req))
      else Enter(server, s, t)
    case _ => Finish(s, t, FixedReply(server, req))
  }

  /** One send, then on to the next port or, after the last one, to the store. */
  function Forward(server: Server, s: System, t: nat): System
    requires Wellformed(server, s) && t in s.tasks && s.tasks[t].progress.Forwarding?
  {
    var req, p := s.tasks[t].req, s.tasks[t].progress.next;
    var offered := s.(ports := s.ports[p := s.ports[p] + [Offer(t, FrameOf(req))]]);
    if p + 1 < server.portCount then offered.(tasks := s.tasks[t := Task(req, Forwarding(p + 1))])
    else Enter(server, offered, t)
  }

  function Next(server: Server, s: System, e: Event): System
    requires Wellformed(server, s) && Enabled(server, s, e)
  {
    match e
    case Spawn(t, req) => s.(tasks := s.tasks[t := Task(req, Spawned)])
    case Resume(t) => if s.tasks[t].progress.Spawned? then Dispatch(server, s, t) else Forward(server, s, t)
    case StoreStep(l) => s.(store := Concurrent.Grown(server.cfg, s.store, l))
    case Respond(t) =>
      var p := Concurrent.PhaseOf(Now(s), t);
      Finish(s, t, if s.tasks[t].req.cmd.Get? then GetReply(p) else FixedReply(server, s.tasks[t].req))
  }

  /** A server that has just replayed `log`. */
  function Start(server: Server, log: seq<Command>): System {
    System(seq(server.portCount, _ => []), Concurrent.Run([Concurrent.Fresh(server.cfg, log)], []), map[], [])
  }

  datatype Run = Run(states: seq<System>, events: seq<Event>)

  ghost predicate Step(server: Server, s: System, e: Event, s': System) {
    Wellformed(server, s) && Enabled(server, s, e) && s' == Next(server, s, e)
  }

  ghost predicate IsRun(server: Server, log: seq<Command>, run: Run) {
    && |run.states| == |run.events| + 1
    && run.states[0] == Start(server, log)
    && forall i :: 0 <= i < |run.events| ==> StepAt(server, run, i)
  }

  ghost predicate StepAt(server: Server, run: Run, i: nat)
    requires i < |run.events| < |run.states|
  {
    Step(server, run.states[i], run.events[i], run.states[i + 1])
  }

  // --- Invariants ---

  /** The task's frame has been offered to port `p`. */
  predicate Passed(server: Server, task: Task, p: nat) {
    && Forwards(server, task.req)
    && (task.progress.InStore? || task.progress.Finished? || (task.progress.Forwarding? && p < task.progress.next))
  }

  /** The task is a put whose record has been stored; `p` is where its thread is. */
  predicate Written(server: Server, task: Task, p: Concurrent.Phase) {
    && task.req.cmd.Put? && !Rejected(server, task.req)
    && (task.progress.Finished? || (task.progress.InStore? && !p.Storing?))
  }

  function RecordOf(server: Server, task: Task): SignedRecord
    requires task.req.cmd.Put?
  {
    KvRecord(server.cfg.hashers, task.req.cmd.key, task.req.cmd.val)
  }

  /** Port `p` was offered exactly the frames of the admitted VM puts whose task has passed it, each once. */
  ghost predicate PortExact(server: Server, s: System, p: nat)
    requires p < |s.ports|
  {
    && (forall t, f :: Offer(t, f) in s.ports[p] <==>
          t in s.tasks && Passed(server, s.tasks[t], p) && f == FrameOf(s.tasks[t].req))
    && (forall i, j :: 0 <= i < j < |s.ports[p]| ==> s.ports[p][i].t != s.ports[p][j].t)
  }

  ghost predicate PortsExact(server: Server, s: System) {
    forall p :: 0 <= p < |s.ports| ==> PortExact(server, s, p)
  }

  /** The tasks have stored exactly the records of the unrejected puts that have got past their store, each once. */
  ghost predicate StoreExact(server: Server, s: System)
    requires s.store.states != []
  {
    && (forall t, r :: t in s.tasks ==>
          (Concurrent.Store(t, r) in s.store.labels <==>
           Written(server, s.tasks[t], Concurrent.PhaseOf(Now(s), t)) && r == RecordOf(server, s.tasks[t])))
    && (forall i, j :: 0 <= i < j < |s.store.labels| && s.store.labels[i].Store? && s.store.labels[j].Store? ==>
          s.store.labels[i].t in s.tasks ==> s.store.labels[i].t != s.store.labels[j].t)
  }

  /** Only threads that have begun something take steps. */
  ghost predicate LabelsHaveThreads(s: System)
    requires s.store.states != []
  {
    forall l :: l in s.store.labels && !l.Drain? ==> l.t in Now(s).threads
  }

  /** Exactly the finished tasks have replied, each once. What they replied, Matches says. */
  ghost predicate RepliesExact(s: System) {
    && (forall t, r :: Sent(t, r) in s.replies <==> t in s.tasks && s.tasks[t].progress == Finished(r))
    && (forall i, j :: 0 <= i < j < |s.replies| ==> s.replies[i].t != s.replies[j].t)
  }

  ghost predicate Inv(server: Server, s: System) {
    && Wellformed(server, s)
    && PortsExact(server, s)
    && StoreExact(server, s)
    && LabelsHaveThreads(s)
    && RepliesExact(s)
  }

  // --- What a step does to the store ---

  /** The store takes one step, or none. */
  lemma GrownStore(server: Server, s: System, l: Concurrent.Label)
    requires Wellformed(server, s) && Concurrent.Enabled(server.cfg, Now(s), l)
    ensures var store := Concurrent.Grown(server.cfg, s.store, l);
            && Concurrent.IsRun(server.cfg, store)
            && Concurrent.Last(store) == Concurrent.Next(server.cfg, Now(s), l)
            && Shaped(server.cfg, Concurrent.Last(store).tier)
            && store.labels == s.store.labels + [l]
  {
    Concurrent.GrownIsRun(server.cfg, s.store, l);
    Concurrent.RunKeepsInv(server.cfg, Concurrent.Grown(server.cfg, s.store, l), |s.store.labels| + 1);
  }

  /** A thread not named by the label stays where it is. */
  lemma OtherThreads(server: Server, s: System, l: Concurrent.Label, t: nat)
    requires Wellformed(server, s) && Concurrent.Enabled(server.cfg, Now(s), l) && (l.Drain? || l.t != t)
    ensures Concurrent.PhaseOf(Concurrent.Next(server.cfg, Now(s), l), t) == Concurrent.PhaseOf(Now(s), t)
  {
  }

  /** A step of a task's own thread keeps the thread where its task says it can be. */
  lemma OwnThread(server: Server, s: System, l: Concurrent.Label)
    requires Wellformed(server, s) && Concurrent.Enabled(server.cfg, Now(s), l) && Allowed(s, l)
    requires !l.Drain? && l.t in s.tasks
    ensures var task, p := s.tasks[l.t], Concurrent.PhaseOf(Concurrent.Next(server.cfg, Now(s), l), l.t);
            && task.progress.InStore? && Matches(server, task, p)
            && (l.Store? ==> task.req.cmd.Put? && l.record == RecordOf(server, task))
            && (Written(server, task, p) <==> Written(server, task, Concurrent.PhaseOf(Now(s), l.t)) || l.Store?)
            && (l.Store? ==> !Written(server, task, Concurrent.PhaseOf(Now(s), l.t)))
  {
    assert Matches(server, s.tasks[l.t], Concurrent.PhaseOf(Now(s), l.t));
  }

  lemma StoreStepKeepsExact(server: Server, s: System, l: Concurrent.Label, s': System)
    requires Wellformed(server, s) && StoreExact(server, s) && Enabled(server, s, StoreStep(l))
    requires s' == Next(server, s, StoreStep(l))
    ensures StoreExact(server, s')
  {
    GrownStore(server, s, l);
    forall t, r | t in s.tasks
      ensures Concurrent.Store(t, r) in s'.store.labels <==>
              Written(server, s.tasks[t], Concurrent.PhaseOf(Now(s'), t)) && r == RecordOf(server, s.tasks[t])
    {
      if !l.Drain? && l.t == t {
        OwnThread(server, s, l);
      } else {
        OtherThreads(server, s, l, t);
      }
    }
    StoreOnce(server, s, l);
  }

  /** A task that stores now has not stored before. */
  lemma StoreOnce(server: Server, s: System, l: Concurrent.Label)
    requires Wellformed(server, s) && StoreExact(server, s) && Enabled(server, s, StoreStep(l))
    ensures l.Store? && l.t in s.tasks ==>
              forall i :: 0 <= i < |s.store.labels| && s.store.labels[i].Store? ==> s.store.labels[i].t != l.t
  {
    if l.Store? && l.t in s.tasks {
      OwnThread(server, s, l);
      forall i | 0 <= i < |s.store.labels| && s.store.labels[i].Store?
        ensures s.store.labels[i].t != l.t
      {
        assert Concurrent.Store(s.store.labels[i].t, s.store.labels[i].record) in s.store.labels;
      }
    }
  }

  lemma StoreStepKeepsWellformed(server: Server, s: System, l: Concurrent.Label)
    requires Wellformed(server, s) && Enabled(server, s, StoreStep(l))
    ensures Wellformed(server, Next(server, s, StoreStep(l)))
  {
    var s' := Next(server, s, StoreStep(l));
    GrownStore(server, s, l);
    forall t | t in s'.tasks
      ensures Matches(server, s'.tasks[t], Concurrent.PhaseOf(Now(s'), t))
    {
      if !l.Drain? && l.t == t {
        OwnThread(server, s, l);
      } else {
        OtherThreads(server, s, l, t);
      }
    }
  }

  lemma StoreStepKeepsInv(server: Server, s: System, l: Concurrent.Label)
    requires Inv(server, s) && Enabled(server, s, StoreStep(l))
    ensures Inv(server, Next(server, s, StoreStep(l)))
  {
    var s' := Next(server, s, StoreStep(l));
    GrownStore(server, s, l);
    StoreStepKeepsWellformed(server, s, l);
    StoreStepKeepsExact(server, s, l, s');
    PortsStay(server, s, s');
  }

  lemma PortsStay(server: Server, s: System, s': System)
    requires PortsExact(server, s) && s'.ports == s.ports
    requires forall t, p :: t in s'.tasks && Passed(server, s'.tasks[t], p) ==>
               t in s.tasks && Passed(server, s.tasks[t], p) && s.tasks[t].req == s'.tasks[t].req
    requires forall t, p :: t in s.tasks && Passed(server, s.tasks[t], p) ==>
               t in s'.tasks && Passed(server, s'.tasks[t], p) && s.tasks[t].req == s'.tasks[t].req
    ensures PortsExact(server, s')
  {
    forall p | 0 <= p < |s'.ports|
      ensures PortExact(server, s', p)
    {
      assert PortExact(server, s, p);
    }
  }

  lemma SpawnKeepsInv(server: Server, s: System, t: nat, req: Request)
    requires Inv(server, s) && Enabled(server, s, Spawn(t, req))
    ensures Inv(server, Next(server, s, Spawn(t, req)))
  {
    var s' := Next(server, s, Spawn(t, req));
    PortsStay(server, s, s');
    assert forall r :: Concurrent.Store(t, r) !in s.store.labels;
    assert forall i :: 0 <= i < |s.store.labels| && s.store.labels[i].Store? ==>
      Concurrent.Store(s.store.labels[i].t, s.store.labels[i].record) in s.store.labels;
  }

  lemma RespondKeepsInv(server: Server, s: System, t: nat)
    requires Inv(server, s) && Enabled(server, s, Respond(t))
    ensures Inv(server, Next(server, s, Respond(t)))
  {
    var s' := Next(server, s, Respond(t));
    assert Matches(server, s.tasks[t], Concurrent.PhaseOf(Now(s), t));
    PortsStay(server, s, s');
    FinishKeepsReplies(s, t, s'.tasks[t].progress.reply);
  }

  lemma FinishKeepsReplies(s: System, t: nat, reply: Reply)
    requires RepliesExact(s) && t in s.tasks && !s.tasks[t].progress.Finished?
    ensures RepliesExact(Finish(s, t, reply))
  {
    assert forall r :: Sent(t, r) !in s.replies;
    assert forall i :: 0 <= i < |s.replies| ==> Sent(s.replies[i].t, s.replies[i].reply) in s.replies;
  }

  // --- What a resumption does ---

  /** One resumption of task `t`, as seen from its progress before and after. */
  ghost predicate Resumed(server: Server, s: System, t: nat, s': System)
    requires Wellformed(server, s)
  {
    && t in s.tasks && t in s'.tasks
    && var task, task' := s.tasks[t], s'.tasks[t];
       && (task.progress.Spawned? || task.progress.Forwarding?)
       && task'.req == task.req && !task'.progress.Spawned? && s'.tasks == s.tasks[t := task']
       && (task'.progress.Forwarding? ==>
             Forwards(server, task.req) && task'.progress.next < server.portCount &&
             task'.progress.next == if task.progress.Spawned? then 0 else task.progress.next + 1)
       && (task.progress.Forwarding? ==>
             s'.ports == s.ports[task.progress.next := s.ports[task.progress.next] + [Offer(t, FrameOf(task.req))]] &&
             !task'.progress.Finished? && (task'.progress.InStore? ==> task.progress.next + 1 == server.portCount))
       && (task.progress.Spawned? ==>
             s'.ports == s.ports && (!task'.progress.Forwarding? ==> !Forwards(server, task.req)))
       && (if task'.progress.InStore? then
             && (task.req.cmd.Get? || (task.req.cmd.Put? && !Rejected(server, task.req)))
             && s'.store == Concurrent.Grown(server.cfg, s.store, Entry(server, t, task.req.cmd))
           else s'.store == s.store)
       && (if task'.progress.Finished? then
             && !task.req.cmd.Get? && (task.req.cmd.Put? ==> Rejected(server, task.req))
             && task'.progress.reply == FixedReply(server, task.req)
             && s'.replies == s.replies + [Sent(t, task'.progress.reply)]
           else s'.replies == s.replies)
  }

  lemma ResumeIsResumption(server: Server, s: System, t: nat)
    requires Wellformed(server, s) && Enabled(server, s, Resume(t))
    ensures Resumed(server, s, t, Next(server, s, Resume(t)))
  {
    var s' := Next(server, s, Resume(t));
    assert Matches(server, s.tasks[t], Concurrent.PhaseOf(Now(s), t));
    assert s'.tasks == s.tasks[t := s'.tasks[t]];
  }

  lemma ResumeKeepsPort(server: Server, s: System, t: nat, s': System, p: nat)
    requires Wellformed(server, s) && Resumed(server, s, t, s') && p < server.portCount && PortExact(server, s, p)
    ensures p < |s'.ports| && PortExact(server, s', p)
  {
    var task := s.tasks[t];
    assert Matches(server, task, Concurrent.PhaseOf(Now(s), t));
    assert forall i :: 0 <= i < |s.ports[p]| ==> Offer(s.ports[p][i].t, s.ports[p][i].frame) in s.ports[p];
    if task.progress == Forwarding(p) {
      assert s'.ports[p] == s.ports[p] + [Offer(t, FrameOf(task.req))];
      assert forall f :: Offer(t, f) !in s.ports[p];
    } else {
      assert s'.ports[p] == s.ports[p];
      assert Passed(server, s'.tasks[t], p) == Passed(server, task, p);
    }
  }

  /** Where the store stands after a resumption, and that the resumption stored nothing. */
  lemma ResumedStore(server: Server, s: System, t: nat, s': System)
    requires Wellformed(server, s) && Resumed(server, s, t, s')
    ensures Concurrent.IsRun(server.cfg, s'.store) && Shaped(server.cfg, Now(s').tier)
    ensures Matches(server, s'.tasks[t], Concurrent.PhaseOf(Now(s'), t))
    ensures forall u :: u != t ==> Concurrent.PhaseOf(Now(s'), u) == Concurrent.PhaseOf(Now(s), u)
    ensures s'.store.labels == s.store.labels ||
            exists l: Concurrent.Label :: s'.store.labels == s.store.labels + [l] && !l.Drain? && !l.Store? && l.t == t
    ensures Now(s).threads.Keys <= Now(s').threads.Keys
    ensures s'.store.labels != s.store.labels ==> t in Now(s').threads
    ensures !Written(server, s.tasks[t], Concurrent.PhaseOf(Now(s), t))
    ensures !Written(server, s'.tasks[t], Concurrent.PhaseOf(Now(s'), t))
  {
    assert Matches(server, s.tasks[t], Concurrent.PhaseOf(Now(s), t));
    if s'.tasks[t].progress.InStore? {
      GrownStore(server, s, Entry(server, t, s.tasks[t].req.cmd));
    }
  }

  lemma ResumeKeepsExact(server: Server, s: System, t: nat, s': System)
    requires Wellformed(server, s) && Resumed(server, s, t, s') && StoreExact(server, s)
    ensures s'.store.states != [] && StoreExact(server, s')
  {
    ResumedStore(server, s, t, s');
    forall u, r | u in s'.tasks
      ensures Concurrent.Store(u, r) in s'.store.labels <==>
              Written(server, s'.tasks[u], Concurrent.PhaseOf(Now(s'), u)) && r == RecordOf(server, s'.tasks[u])
    {
      assert Concurrent.Store(u, r) in s'.store.labels <==> Concurrent.Store(u, r) in s.store.labels;
    }
  }

  lemma ResumeKeepsInv(server: Server, s: System, t: nat)
    requires Inv(server, s) && Enabled(server, s, Resume(t))
    ensures Inv(server, Next(server, s, Resume(t)))
  {
    var s' := Next(server, s, Resume(t));
    ResumeIsResumption(server, s, t);
    ResumedStore(server, s, t, s');
    ResumeKeepsExact(server, s, t, s');
    forall p | 0 <= p < |s'.ports|
      ensures PortExact(server, s', p)
    {
      assert PortExact(server, s, p);
      ResumeKeepsPort(server, s, t, s', p);
    }
    if s'.tasks[t].progress.Finished? {
      FinishKeepsReplies(s, t, s'.tasks[t].progress.reply);
    }
  }

  lemma StepKeepsWellformed(server: Server, s: System, e: Event)
    requires Wellformed(server, s) && Enabled(server, s, e)
    ensures Wellformed(server, Next(server, s, e))
  {
    var s' := Next(server, s, e);
    match e {
      case Spawn(_, _) =>
      case Resume(t) =>
        ResumeIsResumption(server, s, t);
        ResumedStore(server, s, t, s');
      case StoreStep(l) => StoreStepKeepsWellformed(server, s, l);
      case Respond(t) => assert Matches(server, s.tasks[t], Concurrent.PhaseOf(Now(s), t));
    }
  }

  /** Task interleavings. At every reachable state of every interleaving each port has been offered exactly the
      frames of the admitted VM puts whose task has passed it, the tasks have stored exactly the records of the
      unrejected puts that have got past their store, and exactly the finished tasks have replied, each once and as
      their request and what they found in the store deserve. Peers and drains may take steps anywhere. */
  lemma {:induction false} RunKeepsInv(server: Server, log: seq<Command>, run: Run, n: nat)
    requires IsRun(server, log, run) && n <= |run.events|
    ensures Inv(server, run.states[n])
  {
    if n > 0 {
      RunKeepsInv(server, log, run, n - 1);
      var s := run.states[n - 1];
      assert StepAt(server, run, n - 1);
      match run.events[n - 1] {
        case Spawn(t, req) => SpawnKeepsInv(server, s, t, req);
        case Resume(t) => ResumeKeepsInv(server, s, t);
        case StoreStep(l) => StoreStepKeepsInv(server, s, l);
        case Respond(t) => RespondKeepsInv(server, s, t);
      }
    }
  }

  /** Nothing else is ever forwarded: a frame on a port is that of a VM put of an enabled server, from a loopback
      origin, of at most 4096 bytes, and it carries the opcode and the script to the address decoded from the key. */
  lemma OfferedMeansAdmitted(server: Server, log: seq<Command>, run: Run, n: nat, p: nat, t: nat, f: GatewayFrame)
    requires IsRun(server, log, run) && n <= |run.events|
    requires p < |run.states[n].ports| && Offer(t, f) in run.states[n].ports[p]
    ensures t in run.states[n].tasks
    ensures var req := run.states[n].tasks[t].req;
            && req.cmd.Put? && |req.cmd.key| >= 3 && req.cmd.key[..3] == [118, 109, 58]
            && server.enableVmScripts && req.peer == Some(true) && |req.cmd.val| <= 4096
            && f.payload == [0x40] + req.cmd.val && f.macAddr == MacOf(req.cmd.key[3..])
  {
    RunKeepsInv(server, log, run, n);
    assert PortExact(server, run.states[n], p);
  }

  /** The put names a serial target and there is a port to send it to. */
  predicate AsksForPorts(server: Server, req: Request)
    requires req.cmd.Put?
  {
    server.portCount > 0 && |req.cmd.key| >= 3 && req.cmd.key[..3] == [118, 109, 58]
  }

  /** Every reply to a put and its cause, in the order of the source's checks; and what an Ok means: the record is
      stored, and a VM script was offered to every port. */
  lemma PutReplies(server: Server, log: seq<Command>, run: Run, n: nat, t: nat)
    requires IsRun(server, log, run) && n <= |run.events|
    requires t in run.states[n].tasks && run.states[n].tasks[t].req.cmd.Put?
    requires run.states[n].tasks[t].progress.Finished?
    ensures var s, req, reply := run.states[n], run.states[n].tasks[t].req, run.states[n].tasks[t].progress.reply;
            var vm, on, small := AsksForPorts(server, req), server.enableVmScripts, |req.cmd.val| <= 4096;
            && (reply == Error(VmDisabled) <==> vm && !on)
            && (reply == Error(VmNoOrigin) <==> vm && on && req.peer == None)
            && (reply == Error(VmNotLocal) <==> vm && on && req.peer == Some(false))
            && (reply == Error(VmTooLong) <==> vm && on && req.peer == Some(true) && !small)
            && (reply == Ok <==> !vm || (on && req.peer == Some(true) && small))
    ensures var s, req, reply := run.states[n], run.states[n].tasks[t].req, run.states[n].tasks[t].progress.reply;
            && (reply == Ok <==> Concurrent.Store(t, RecordOf(server, s.tasks[t])) in s.store.labels)
            && (reply == Ok && AsksForPorts(server, req) ==>
                  var frame := GatewayFrame(MacOf(req.cmd.key[3..]), [0x40] + req.cmd.val);
                  forall p :: 0 <= p < server.portCount ==> p < |s.ports| && Offer(t, frame) in s.ports[p])
  {
    RunKeepsInv(server, log, run, n);
    var s, task := run.states[n], run.states[n].tasks[t];
    assert Matches(server, task, Concurrent.PhaseOf(Now(s), t));
    assert AsksForPorts(server, task.req) <==> IsVmPut(server, task.req);
    forall p | 0 <= p < server.portCount && Forwards(server, task.req)
      ensures p < |s.ports| && Offer(t, FrameOf(task.req)) in s.ports[p]
    {
      assert PortExact(server, s, p) && Passed(server, task, p);
    }
  }

  /** The replies to the remaining commands. */
  lemma OtherReplies(server: Server, log: seq<Command>, run: Run, n: nat, t: nat)
    requires IsRun(server, log, run) && n <= |run.events|
    requires t in run.states[n].tasks && run.states[n].tasks[t].progress.Finished?
    ensures var cmd, reply := run.states[n].tasks[t].req.cmd, run.states[n].tasks[t].progress.reply;
            && (cmd.Info? ==> reply == BulkString(Some(Ascii("worker_id:0\r\nversion:0.1.0\r\n"))))
            && (cmd.Ping? ==> reply == Pong)
            && (cmd.Other? ==> reply == Error(UnknownCommand))
            && (cmd.Get? ==> reply.BulkString?)
  {
    RunKeepsInv(server, log, run, n);
    assert Matches(server, run.states[n].tasks[t], Concurrent.PhaseOf(Now(run.states[n]), t));
  }

  /** A VM put reaches the store only after its frame was offered to every port. */
  lemma StoredOnlyAfterEveryPort(server: Server, log: seq<Command>, run: Run, n: nat, t: nat, r: SignedRecord, p: nat)
    requires IsRun(server, log, run) && n <= |run.events| && p < server.portCount
    requires t in run.states[n].tasks && Concurrent.Store(t, r) in run.states[n].store.labels
    ensures var s, req := run.states[n], run.states[n].tasks[t].req;
            && req.cmd.Put? && r == KvRecord(server.cfg.hashers, req.cmd.key, req.cmd.val)
            && (IsVmKey(req.cmd.key) ==> p < |s.ports| && Offer(t, FrameOf(req)) in s.ports[p])
  {
    RunKeepsInv(server, log, run, n);
    assert PortExact(server, run.states[n], p);
    var task := run.states[n].tasks[t];
    if IsVmKey(task.req.cmd.key) {
      assert Passed(server, task, p);
    }
  }

  /** A rejected VM put never changes a port or the store. */
  lemma RejectedPutLeavesNoTrace(server: Server, log: seq<Command>, run: Run, n: nat, t: nat)
    requires IsRun(server, log, run) && n <= |run.events|
    requires t in run.states[n].tasks && Rejected(server, run.states[n].tasks[t].req)
    ensures forall p, f :: 0 <= p < |run.states[n].ports| ==> Offer(t, f) !in run.states[n].ports[p]
    ensures forall r :: Concurrent.Store(t, r) !in run.states[n].store.labels
  {
    RunKeepsInv(server, log, run, n);
    forall p, f | 0 <= p < |run.states[n].ports|
      ensures Offer(t, f) !in run.states[n].ports[p]
    {
      assert PortExact(server, run.states[n], p);
    }
  }

  /** The step that rejects a VM put leaves the ports and the whole store exactly as they were. */
  lemma RejectionChangesNothing(server: Server, s: System, t: nat)
    requires Wellformed(server, s) && Enabled(server, s, Resume(t)) && Rejected(server, s.tasks[t].req)
    ensures var s' := Next(server, s, Resume(t));
            && s'.ports == s.ports && s'.store == s.store
            && s'.tasks[t].progress == Finished(Error(Refusal(server, s.tasks[t].req).value))
  {
    ResumeIsResumption(server, s, t);
  }

  // --- The store behind the tasks ---

  /** The store starts from the log the server replayed. */
  lemma {:induction false} StoreStartsAtLog(server: Server, log: seq<Command>, run: Run, n: nat)
    requires IsRun(server, log, run) && n <= |run.events|
    ensures Concurrent.IsRun(server.cfg, run.states[n].store)
    ensures run.states[n].store.states[0] == Concurrent.Fresh(server.cfg, log)
  {
    RunKeepsInv(server, log, run, n);
    if n > 0 {
      StoreStartsAtLog(server, log, run, n - 1);
      assert StepAt(server, run, n - 1);
      if run.events[n - 1].Resume? {
        ResumeIsResumption(server, run.states[n - 1], run.events[n - 1].t);
      }
    }
  }

  /** Some thread stored the record. */
  ghost predicate RecordStored(labels: seq<Concurrent.Label>, r: SignedRecord) {
    exists t :: Concurrent.Store(t, r) in labels
  }

  /** Some thread stored a record whose command this is. */
  ghost predicate CommandStored(cfg: Config, labels: seq<Concurrent.Label>, c: Command) {
    exists r :: RecordStored(labels, r) && c == CommandOf(cfg, r)
  }

  lemma SentIsStored(cfg: Config, store: Concurrent.Run, x: nat)
    requires Concurrent.IsRun(cfg, store)
    requires var tier := Concurrent.Last(store).tier; |store.states[0].tier.log| <= x < |tier.log + tier.queue|
    ensures var tier := Concurrent.Last(store).tier; CommandStored(cfg, store.labels, (tier.log + tier.queue)[x])
  {
    var m, tier := |store.labels|, Concurrent.Last(store).tier;
    assert store.labels[..m] == store.labels;
    Concurrent.LogAndQueueAreSent(cfg, store, m);
    var j := Concurrent.SentSource(cfg, store.states[0].tier.log, store.labels, x);
    var _, k := Linearizability.PutTakesEffectOnce(cfg, store, j);
    assert store.labels[k] == Concurrent.Store(store.labels[j].t, store.labels[j].record);
    assert RecordStored(store.labels, store.labels[j].record);
    assert (tier.log + tier.queue)[x] == CommandOf(cfg, store.labels[j].record);
  }

  lemma SlotIsStored(cfg: Config, store: Concurrent.Run, p: nat)
    requires Concurrent.IsRun(cfg, store)
    requires var hot := Concurrent.Last(store).tier.hot; p < |hot| && hot[p].Some?
    ensures RecordStored(store.labels, Uncache(Concurrent.Last(store).tier.hot[p].value))
  {
    var m := |store.labels|;
    assert store.labels[..m] == store.labels;
    Concurrent.RunKeepsInv(cfg, store, m);
    Concurrent.HotIsLastStored(cfg, store, m, p);
    var k := Linearizability.LastStoredIndex(cfg, store.labels, p);
    assert store.labels[k] == Concurrent.Store(store.labels[k].t, store.labels[k].record);
  }

  /** Unconditionally, whatever the interleaving and whatever slots collide, both tiers hold only what was replayed and
      what was stored: each filled slot a record some thread stored, each later command that of such a record. With
      StoreExact, a task's share of this is its unrejected put and nothing else. */
  lemma TierHoldsStored(server: Server, log: seq<Command>, run: Run, n: nat)
    requires IsRun(server, log, run) && n <= |run.events|
    ensures run.states[n].store.states != []
    ensures log <= Now(run.states[n]).tier.log
    ensures var tier, labels := Now(run.states[n]).tier, run.states[n].store.labels;
            && (forall p :: 0 <= p < |tier.hot| && tier.hot[p].Some? ==>
                  RecordStored(labels, Uncache(tier.hot[p].value)))
            && (forall x :: |log| <= x < |tier.log + tier.queue| ==>
                  CommandStored(server.cfg, labels, (tier.log + tier.queue)[x]))
  {
    StoreStartsAtLog(server, log, run, n);
    var store, tier := run.states[n].store, Now(run.states[n]).tier;
    Concurrent.LogOnlyGrows(server.cfg, store, |store.labels|);
    forall p | 0 <= p < |tier.hot| && tier.hot[p].Some?
      ensures RecordStored(store.labels, Uncache(tier.hot[p].value))
    {
      SlotIsStored(server.cfg, store, p);
    }
    forall x | |log| <= x < |tier.log + tier.queue|
      ensures CommandStored(server.cfg, store.labels, (tier.log + tier.queue)[x])
    {
      SentIsStored(server.cfg, store, x);
    }
  }

  /** When all stores so far are of tasks, and the keys put have distinct slots, no stored record merely shares a slot
      with one of the keys. */
  lemma TaskPutsAreApart(server: Server, log: seq<Command>, run: Run, n: nat, keys: set<Bytes>)
    requires IsRun(server, log, run) && n <= |run.events| && SlotsDistinct(server.cfg, keys)
    requires forall t :: t in run.states[n].tasks && run.states[n].tasks[t].req.cmd.Put? ==>
               run.states[n].tasks[t].req.cmd.key in keys
    requires forall t, r :: Concurrent.Store(t, r) in run.states[n].store.labels ==> t in run.states[n].tasks
    ensures Linearizability.StoresApart(server.cfg, keys, run.states[n].store.labels)
  {
    RunKeepsInv(server, log, run, n);
    var s, labels := run.states[n], run.states[n].store.labels;
    forall i | 0 <= i < |labels| && labels[i].Store?
      ensures Apart(server.cfg, keys, labels[i].record)
    {
      assert Concurrent.Store(labels[i].t, labels[i].record) in labels;
      var cmd := s.tasks[labels[i].t].req.cmd;
      DistinctSlotsKeepApart(server.cfg, keys, cmd.key, cmd.val);
    }
  }

  /** The store is a last-write-wins register over what was replayed at the start, whatever steps tasks, peers and the
      background writer interleave, as long as no stored record merely shares a slot with one of the keys. */
  lemma StoreIsLastPuts(server: Server, log: seq<Command>, run: Run, n: nat, keys: set<Bytes>)
    requires IsRun(server, log, run) && n <= |run.events|
    requires Linearizability.StoresApart(server.cfg, keys, run.states[n].store.labels)
    ensures run.states[n].store.states != [] && Shaped(server.cfg, Now(run.states[n]).tier)
    ensures KvMap(server.cfg, keys, Now(run.states[n]).tier) ==
            Linearizability.Register(server.cfg, keys, Recovered(server.cfg, keys, log), run.states[n].store.labels)
  {
    StoreStartsAtLog(server, log, run, n);
    var store := run.states[n].store;
    assert store.labels[..|store.labels|] == store.labels;
    Linearizability.StoreIsRegister(server.cfg, keys, store, |store.labels|);
  }

  /** Linearizable requests. A finished get task replied with the register's value of its key at a moment `k` after its
      own first step in the store and not after its answer there, and with nothing exactly when the register then had
      none: the last value written under the key by a task, by a peer or before the start. Stores of peers may fall
      between the get's hot load and its cold read. */
  lemma GetRepliesLastPut(server: Server, log: seq<Command>, run: Run, n: nat, t: nat, keys: set<Bytes>)
    returns (i: nat, k: nat, j: nat)
    requires IsRun(server, log, run) && n <= |run.events|
    requires t in run.states[n].tasks && run.states[n].tasks[t].progress.Finished?
    requires run.states[n].tasks[t].req.cmd.Get? && run.states[n].tasks[t].req.cmd.key in keys
    requires Linearizability.StoresApart(server.cfg, keys, run.states[n].store.labels)
    ensures var labels, key := run.states[n].store.labels, run.states[n].tasks[t].req.cmd.key;
            var h := server.cfg.hashers.sha256(key);
            && i < k <= j < |labels| && labels[i] == Concurrent.BeginGet(t, h)
            && (labels[j] == Concurrent.HotLoad(t, h) || labels[j] == Concurrent.ColdRead(t, h))
            && var reg := Linearizability.Register(server.cfg, keys, Recovered(server.cfg, keys, log), labels[..k]);
               run.states[n].tasks[t].progress.reply == BulkString(if key in reg then Some(reg[key]) else None)
  {
    RunKeepsInv(server, log, run, n);
    StoreStartsAtLog(server, log, run, n);
    var s, store := run.states[n], run.states[n].store;
    var key := s.tasks[t].req.cmd.key;
    assert Matches(server, s.tasks[t], Concurrent.PhaseOf(Now(s), t));
    j := Linearizability.ResponseOf(server.cfg, store, |store.labels|, t);
    Linearizability.ApartBefore(server.cfg, keys, store.labels, j);
    i, k := Linearizability.GetMatchesRegister(server.cfg, keys, store, t, key, j);
  }
}
