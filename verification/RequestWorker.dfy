/** The body of one request task as the source writes it, and its agreement with the interleaved tasks. */
module RequestWorker {
  import opened Base
  import opened Tiers
  import opened MacAddress
  import opened RequestTask
  import opened Stores

  import Concurrent

  /** What a request does when no other task interferes. */
  datatype Outcome = Outcome(ports: seq<seq<GatewayFrame>>, tier: Tier, reply: Reply)

  function Alone(server: Server, ports: seq<seq<GatewayFrame>>, tier: Tier, req: Request, accepted: bool): Outcome
    requires Shaped(server.cfg, tier)
  {
    match req.cmd
    case Get(key) => Outcome(ports, tier, BulkString(L2Get(server.cfg, tier, key)))
    case Put(key, val) =>
      if Rejected(server, req) then Outcome(ports, tier, Error(Refusal(server, req).value))
      else
        Outcome(
          if Forwards(server, req) then AllOffered(ports, FrameOf(req)) else ports,
          L2Put(server.cfg, tier, key, val, accepted),
          Ok)
    case Info => Outcome(ports, tier, BulkString(Some(InfoText())))
    case Ping => Outcome(ports, tier, Pong)
    case Other => Outcome(ports, tier, Error(UnknownCommand))
  }

  function AllOffered(ports: seq<seq<GatewayFrame>>, frame: GatewayFrame): seq<seq<GatewayFrame>> {
    seq(|ports|, p requires 0 <= p < |ports| => ports[p] + [frame])
  }

  class Worker {
    const enableVmScripts: bool
    const ports: array<seq<GatewayFrame>>
    const storage: TieredStore

    ghost predicate Valid()
      reads storage, storage.hotIndex, storage.hotIndex.table, storage.writer, storage.route
    {
      storage.Valid() && ports as object != storage.hotIndex.table
    }

    ghost function Srv(): Server
      reads storage, storage.hotIndex, storage.hotIndex.table, storage.writer, storage.route
      requires Valid()
    {
      Server(storage.Cfg(), enableVmScripts, ports.Length)
    }

    constructor (enableVmScripts: bool, ports: array<seq<GatewayFrame>>, storage: TieredStore)
      requires storage.Valid() && ports as object != storage.hotIndex.table
      ensures Valid()
      ensures this.enableVmScripts == enableVmScripts && this.ports == ports && this.storage == storage
    {
      this.enableVmScripts := enableVmScripts;
      this.ports := ports;
      this.storage := storage;
    }

    /** Send the frame to every port in turn. */
    method ForwardFrame(frame: GatewayFrame)
      modifies ports
      ensures ports[..] == AllOffered(old(ports[..]), frame)
    {
      for p := 0 to ports.Length
        invariant forall q :: 0 <= q < p ==> ports[q] == old(ports[q]) + [frame]
        invariant forall q :: p <= q < ports.Length ==> ports[q] == old(ports[q])
      {
        ports[p] := ports[p] + [frame];
      }
    }

    /** The VM script part of a put: refuse it, or forward it to every port. */
    method ForwardScript(req: Request) returns (refusal: Option<ErrorKind>)
      requires Valid() && IsVmPut(Srv(), req)
      modifies ports
      ensures Valid() && Srv() == old(Srv())
      ensures refusal == Refusal(Srv(), req)
      ensures ports[..] == if refusal == None then AllOffered(old(ports[..]), FrameOf(req)) else old(ports[..])
    {
      if !enableVmScripts {
        return Some(VmDisabled);
      }
      if req.peer.Some? {
        if !req.peer.value {
          return Some(VmNotLocal);
        }
      } else {
        return Some(VmNoOrigin);
      }
      if |req.cmd.val| > 4096 {
        return Some(VmTooLong);
      }
      var mac := DecodeMac(req.cmd.key[3..]);
      var payload: Bytes := [];
      payload := payload + [0x40];
      payload := payload + req.cmd.val;
      assert GatewayFrame(mac, payload) == FrameOf(req);
      ForwardFrame(GatewayFrame(mac, payload));
      refusal := None;
    }

    /** Every request gets exactly one reply, and does what Alone says. */
    method Handle(req: Request) returns (reply: Reply)
      requires Valid()
      modifies ports, storage`cacheHits, storage`cacheMisses
      modifies storage.hotIndex`sets, storage.hotIndex.table, storage.writer`queue
      ensures Valid() && Srv() == old(Srv())
      ensures Outcome(ports[..], storage.View(), reply) ==
              Alone(Srv(), old(ports[..]), old(storage.View()), req, old(storage.writer.HasRoom()))
    {
      match req.cmd
      case Get(key) =>
        var val := L2Executor.Get(storage, key);
        reply := BulkString(val);
      case Put(key, val) =>
        if VM_PREFIX <= key && ports.Length > 0 {
          var refusal := ForwardScript(req);
          if refusal.Some? {
            return Error(refusal.value);
          }
        }
        L2Executor.Put(storage, key, val);
        reply := Ok;
      case Info =>
        reply := BulkString(Some(InfoText()));
      case Ping =>
        reply := Pong;
      case Other =>
        reply := Error(UnknownCommand);
    }
  }

  // --- Agreement with the interleaved tasks ---

  function Frames(offers: seq<Offer>): seq<GatewayFrame> {
    seq(|offers|, i requires 0 <= i < |offers| => offers[i].frame)
  }

  function PortFrames(ports: seq<seq<Offer>>): seq<seq<GatewayFrame>> {
    seq(|ports|, p requires 0 <= p < |ports| => Frames(ports[p]))
  }

  predicate Running(s: System, t: nat) {
    t in s.tasks && !s.tasks[t].progress.Finished?
  }

  predicate AcceptedBy(server: Server, tier: Tier, room: bool) {
    room && |tier.queue| < server.cfg.bound
  }

  /** What task `t` does next; `room` says whether the background queue takes its command if it is not full. */
  ghost function NextEvent(server: Server, s: System, t: nat, room: bool): (e: Event)
    requires Wellformed(server, s) && Running(s, t)
    ensures Enabled(server, s, e)
  {
    assert Matches(server, s.tasks[t], Concurrent.PhaseOf(Now(s), t));
    if !s.tasks[t].progress.InStore? then Resume(t)
    else
      match Concurrent.PhaseOf(Now(s), t)
      case Storing(r) => StoreStep(Concurrent.Store(t, r))
      case Sending(r) => StoreStep(Concurrent.Send(t, r, AcceptedBy(server, Now(s).tier, room)))
      case Loading(h) => StoreStep(Concurrent.HotLoad(t, h))
      case Missed(h) => StoreStep(Concurrent.ColdRead(t, h))
      case _ => Respond(t)
  }

  /** How many steps task `t` has left at most. */
  ghost function Remaining(server: Server, s: System, t: nat): nat
    requires Wellformed(server, s) && t in s.tasks
  {
    assert Matches(server, s.tasks[t], Concurrent.PhaseOf(Now(s), t));
    match s.tasks[t].progress
    case Spawned => server.portCount + 4
    case Forwarding(p) => server.portCount - p + 3
    case InStore =>
      var p := Concurrent.PhaseOf(Now(s), t);
      if p.Storing? || p.Loading? then 3 else if p.Sending? || p.Missed? then 2 else 1
    case Finished(_) => 0
  }

  lemma NextEventProgress(server: Server, s: System, t: nat, room: bool)
    requires Wellformed(server, s) && Running(s, t)
    ensures var s' := Next(server, s, NextEvent(server, s, t, room));
            Wellformed(server, s') && t in s'.tasks && Remaining(server, s', t) < Remaining(server, s, t)
  {
    var e := NextEvent(server, s, t, room);
    StepKeepsWellformed(server, s, e);
    if e.Resume? {
      ResumeIsResumption(server, s, t);
      ResumedStore(server, s, t, Next(server, s, e));
    } else if e.StoreStep? {
      GrownStore(server, s, e.step);
    }
  }

  /** Step task `t` until it has replied, with nothing in between. */
  ghost function RunToEnd(server: Server, s: System, t: nat, room: bool): System
    requires Wellformed(server, s) && t in s.tasks
    decreases Remaining(server, s, t)
  {
    if s.tasks[t].progress.Finished? then s
    else
      NextEventProgress(server, s, t, room);
      RunToEnd(server, Next(server, s, NextEvent(server, s, t, room)), t, room)
  }

  /** One step of a task inside the store. */
  lemma InStoreStep(server: Server, s: System, t: nat, room: bool)
    requires Wellformed(server, s) && t in s.tasks && s.tasks[t].progress.InStore?
    requires !Concurrent.AtRest(Concurrent.PhaseOf(Now(s), t))
    ensures var e := NextEvent(server, s, t, room);
            var s' := Next(server, s, e);
            && e.StoreStep? && Wellformed(server, s') && s'.ports == s.ports && s'.tasks == s.tasks
            && Now(s') == Concurrent.Next(server.cfg, Now(s), e.step)
            && RunToEnd(server, s, t, room) == RunToEnd(server, s', t, room)
  {
    NextEventProgress(server, s, t, room);
    GrownStore(server, s, NextEvent(server, s, t, room).step);
  }

  /** A task whose thread is at rest in the store replies. */
  lemma RestingToEnd(server: Server, s: System, t: nat, room: bool)
    requires Wellformed(server, s) && t in s.tasks && s.tasks[t].progress.InStore?
    requires Concurrent.AtRest(Concurrent.PhaseOf(Now(s), t))
    ensures var e, p := RunToEnd(server, s, t, room), Concurrent.PhaseOf(Now(s), t);
            && e.store == s.store && e.ports == s.ports && t in e.tasks
            && (s.tasks[t].req.cmd.Put? ==> e.tasks[t].progress == Finished(Ok))
            && (s.tasks[t].req.cmd.Get? ==> p.Answered? && e.tasks[t].progress == Finished(GetReply(p)))
  {
    assert Matches(server, s.tasks[t], Concurrent.PhaseOf(Now(s), t));
    NextEventProgress(server, s, t, room);
  }

  /** A put in the store stores, sends and replies. */
  lemma PutToEnd(server: Server, s: System, t: nat, room: bool)
    requires Wellformed(server, s) && t in s.tasks && s.tasks[t].progress.InStore?
    requires Concurrent.PhaseOf(Now(s), t).Storing?
    ensures var e, cmd, tier := RunToEnd(server, s, t, room), s.tasks[t].req.cmd, Now(s).tier;
            && e.store.states != [] && e.ports == s.ports && t in e.tasks && cmd.Put?
            && Now(e).tier == L2Put(server.cfg, tier, cmd.key, cmd.val, AcceptedBy(server, tier, room))
            && e.tasks[t].progress == Finished(Ok)
  {
    assert Matches(server, s.tasks[t], Concurrent.PhaseOf(Now(s), t));
    InStoreStep(server, s, t, room);
    var s1 := Next(server, s, NextEvent(server, s, t, room));
    InStoreStep(server, s1, t, room);
    var s2 := Next(server, s1, NextEvent(server, s1, t, room));
    RestingToEnd(server, s2, t, room);
  }

  /** What a get's thread has after its hot load: the answer, or a miss that the cold read turns into the answer. */
  lemma HotThenCold(server: Server, st: Concurrent.State, t: nat, h: Hash32)
    requires Shaped(server.cfg, st.tier) && Concurrent.PhaseOf(st, t) == Concurrent.Loading(h)
    ensures var cfg, answer := server.cfg, Concurrent.Answered(h, Read(server.cfg, st.tier, h));
            var st1 := Concurrent.Next(cfg, st, Concurrent.HotLoad(t, h));
            && st1.tier == st.tier
            && (Concurrent.PhaseOf(st1, t) != answer ==>
                  && Concurrent.PhaseOf(st1, t) == Concurrent.Missed(h)
                  && var st2 := Concurrent.Next(cfg, st1, Concurrent.ColdRead(t, h));
                     st2.tier == st.tier && Concurrent.PhaseOf(st2, t) == answer)
  {
  }

  /** A get in the store reads, hot or on a miss cold, and replies. */
  lemma GetToEnd(server: Server, s: System, t: nat, room: bool)
    requires Wellformed(server, s) && t in s.tasks && s.tasks[t].progress.InStore?
    requires Concurrent.PhaseOf(Now(s), t).Loading?
    ensures var e, cmd, tier := RunToEnd(server, s, t, room), s.tasks[t].req.cmd, Now(s).tier;
            && e.store.states != [] && e.ports == s.ports && t in e.tasks && cmd.Get?
            && Now(e).tier == tier && e.tasks[t].progress == Finished(BulkString(L2Get(server.cfg, tier, cmd.key)))
  {
    assert Matches(server, s.tasks[t], Concurrent.PhaseOf(Now(s), t));
    HotThenCold(server, Now(s), t, Concurrent.PhaseOf(Now(s), t).hash);
    InStoreStep(server, s, t, room);
    var s1 := Next(server, s, NextEvent(server, s, t, room));
    if Concurrent.PhaseOf(Now(s1), t).Missed? {
      InStoreStep(server, s1, t, room);
      RestingToEnd(server, Next(server, s1, NextEvent(server, s1, t, room)), t, room);
    } else {
      RestingToEnd(server, s1, t, room);
    }
  }

  /** From port `next` on: the frame goes to every remaining port, and then the put is stored. */
  lemma {:induction false} ForwardingToEnd(server: Server, s: System, t: nat, room: bool)
    requires Wellformed(server, s) && t in s.tasks && s.tasks[t].progress.Forwarding?
    ensures var e, req, p := RunToEnd(server, s, t, room), s.tasks[t].req, s.tasks[t].progress.next;
            && e.store.states != [] && |e.ports| == |s.ports|
            && (forall q :: 0 <= q < p && q < |s.ports| ==> e.ports[q] == s.ports[q])
            && (forall q :: p <= q < |s.ports| ==> e.ports[q] == s.ports[q] + [Offer(t, FrameOf(req))])
            && Now(e).tier ==
               L2Put(server.cfg, Now(s).tier, req.cmd.key, req.cmd.val, AcceptedBy(server, Now(s).tier, room))
            && t in e.tasks && e.tasks[t].progress == Finished(Ok)
    decreases server.portCount - s.tasks[t].progress.next
  {
    var s' := Next(server, s, Resume(t));
    assert Matches(server, s.tasks[t], Concurrent.PhaseOf(Now(s), t));
    NextEventProgress(server, s, t, room);
    ResumeIsResumption(server, s, t);
    if s'.tasks[t].progress.Forwarding? {
      ForwardingToEnd(server, s', t, room);
    } else {
      EnteredStore(server, s, t);
      PutToEnd(server, s', t, room);
    }
  }

  /** Entering the store leaves its tier alone. */
  lemma EnteredStore(server: Server, s: System, t: nat)
    requires Wellformed(server, s) && Enabled(server, s, Resume(t))
    requires Next(server, s, Resume(t)).tasks[t].progress.InStore?
    ensures var s' := Next(server, s, Resume(t));
            && s'.store.states != [] && Now(s').tier == Now(s).tier
            && var p := Concurrent.PhaseOf(Now(s'), t); if s.tasks[t].req.cmd.Put? then p.Storing? else p.Loading?
  {
    assert Matches(server, s.tasks[t], Concurrent.PhaseOf(Now(s), t));
    ResumeIsResumption(server, s, t);
    GrownStore(server, s, Entry(server, t, s.tasks[t].req.cmd));
  }

  lemma OfferedFrames(before: seq<seq<Offer>>, after: seq<seq<Offer>>, o: Offer)
    requires |after| == |before| && forall q :: 0 <= q < |before| ==> after[q] == before[q] + [o]
    ensures PortFrames(after) == AllOffered(PortFrames(before), o.frame)
  {
    forall q | 0 <= q < |before|
      ensures Frames(after[q]) == Frames(before[q]) + [o.frame]
    {
    }
  }

  /** A task that runs without interference has exactly the sequential outcome: the handler and the interleaved
      system describe the same request. */
  lemma UninterruptedTaskIsAlone(server: Server, s: System, t: nat, room: bool)
    requires Wellformed(server, s) && t in s.tasks && s.tasks[t].progress.Spawned?
    ensures var e, tier := RunToEnd(server, s, t, room), Now(s).tier;
            && e.store.states != [] && t in e.tasks && e.tasks[t].progress.Finished?
            && Outcome(PortFrames(e.ports), Now(e).tier, e.tasks[t].progress.reply) ==
               Alone(server, PortFrames(s.ports), tier, s.tasks[t].req, AcceptedBy(server, tier, room))
  {
    var req, s' := s.tasks[t].req, Next(server, s, Resume(t));
    assert Matches(server, s.tasks[t], Concurrent.PhaseOf(Now(s), t));
    NextEventProgress(server, s, t, room);
    ResumeIsResumption(server, s, t);
    if Forwards(server, req) {
      ForwardingToEnd(server, s', t, room);
      OfferedFrames(s.ports, RunToEnd(server, s', t, room).ports, Offer(t, FrameOf(req)));
    } else if s'.tasks[t].progress.InStore? {
      EnteredStore(server, s, t);
      if req.cmd.Put? {
        PutToEnd(server, s', t, room);
      } else {
        GetToEnd(server, s', t, room);
      }
    } else {
      assert RunToEnd(server, s', t, room) == s';
    }
  }
}
