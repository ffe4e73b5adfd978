/** The router and its sessions as objects, each operation proved to be a step of the transition system. */
module RoundRobinRouter {
  import opened Collections
  import opened QueryTypes
  import opened RouterState
  import RouterInvariants

  /** A connection to one backend server. */
  class Endpoint {
    const target: nat
    var isOpen: bool
    // Whether the connection would take a statement, or come up, if asked now.
    var accepts: bool
    // What the backend has received and the replies it has not sent yet.
    ghost var log: seq<Delivery>
    ghost var inflight: seq<nat>

    constructor (target: nat, accepts: bool)
      ensures this.target == target && this.accepts == accepts && View() == Backend(false, [], [])
    {
      this.target, this.accepts, isOpen := target, accepts, false;
      log, inflight := [], [];
    }

    ghost function View(): Backend
      reads this
    {
      Backend(isOpen, log, inflight)
    }

    method Connect() returns (ok: bool)
      requires !isOpen
      modifies `isOpen
      ensures isOpen == ok == accepts
    {
      isOpen := accepts;
      ok := isOpen;
    }

    /** Replies that have not arrived are lost. */
    method Close()
      modifies `isOpen, `inflight
      ensures View() == old(View()).(open := false, inflight := [])
    {
      isOpen := false;
      inflight := [];
    }

    /** A closed endpoint takes nothing. */
    method RouteQuery(ghost d: Delivery) returns (ok: bool)
      modifies `log, `inflight
      ensures ok == (isOpen && accepts)
      ensures View() == if ok then Deliver(old(View()), d) else old(View())
    {
      ok := isOpen && accepts;
      if ok {
        log := log + [d];
        inflight := inflight + if d.stmt.command.Quit? then [] else [d.id];
      }
    }
  }

  /** `bs` is what the endpoints look like from outside. */
  ghost predicate Shows(es: seq<Endpoint>, bs: seq<Backend>)
    reads es
  {
    |bs| == |es| && forall i :: 0 <= i < |es| ==> bs[i] == es[i].View()
  }

  ghost function Accepting(es: seq<Endpoint>): set<nat>
    reads es
  {
    set i | 0 <= i < |es| && es[i].accepts
  }

  ghost predicate Distinct(es: seq<Endpoint>) {
    forall i, j :: 0 <= i < j < |es| ==> es[i] != es[j]
  }

  class Router {
    const writeServer: nat
    var routingS: nat
    var routingF: nat
    var routingC: nat

    constructor (writeServer: nat)
      ensures this.writeServer == writeServer && routingS == routingF == routingC == 0
    {
      this.writeServer, routingS, routingF, routingC := writeServer, 0, 0, 0;
    }

    /** Count a routed or a failed query. */
    method Record(ok: bool)
      modifies this
      ensures routingS == if ok then (old(routingS) + 1) % U64 else old(routingS)
      ensures routingF == if ok then old(routingF) else (old(routingF) + 1) % U64
      ensures routingC == old(routingC)
    {
      if ok {
        routingS := (routingS + 1) % U64;
      } else {
        routingF := (routingF + 1) % U64;
      }
    }

    /** Where the write backend is: the last of the first `n` endpoints that belongs to the write server. */
    ghost predicate IsWriter(es: seq<Endpoint>, n: nat, w: Option<nat>)
      requires n <= |es|
    {
      match w
      case Some(k) => k < n && es[k].target == writeServer && forall j :: k < j < n ==> es[j].target != writeServer
      case None => forall j :: 0 <= j < n ==> es[j].target != writeServer
    }

    /** Connect the endpoints and find the write backend among them. */
    method ConnectAll(endpoints: seq<Endpoint>)
      returns (connections: nat, writeBackend: Endpoint?, ghost writer: Option<nat>, ghost bs: seq<Backend>)
      requires Distinct(endpoints)
      requires forall i :: 0 <= i < |endpoints| ==> endpoints[i].View() == Backend(false, [], [])
      modifies endpoints`isOpen
      ensures Shows(endpoints, bs) && forall i :: 0 <= i < |bs| ==> bs[i] == Backend(endpoints[i].accepts, [], [])
      ensures IsWriter(endpoints, |endpoints|, writer)
      ensures writeBackend == if writer.Some? then endpoints[writer.value] else null
      ensures connections > 0 <==> AnyOpen(bs)
    {
      connections, writeBackend, writer, bs := 0, null, None, [];
      for i := 0 to |endpoints|
        invariant IsWriter(endpoints, i, writer)
        invariant writeBackend == if writer.Some? then endpoints[writer.value] else null
        invariant |bs| == i && forall j :: 0 <= j < i ==> bs[j] == Backend(endpoints[j].accepts, [], [])
        invariant forall j :: 0 <= j < |endpoints| ==> endpoints[j].isOpen == (j < i && endpoints[j].accepts)
        invariant connections > 0 <==> AnyOpen(bs)
      {
        if endpoints[i].target == writeServer {
          writeBackend, writer := endpoints[i], Some(i);
        }
        var ok := endpoints[i].Connect();
        if ok {
          connections := connections + 1;
        }
        AnyOpenSnoc(bs, Backend(ok, [], []));
        bs := bs + [Backend(ok, [], [])];
      }
    }

    /** A session is created exactly when some endpoint connects, and it starts in an initial state. */
    method NewSession(endpoints: seq<Endpoint>) returns (session: RouterSession?)
      requires Distinct(endpoints) && |endpoints| < 0x8000_0000
      requires forall i :: 0 <= i < |endpoints| ==> endpoints[i].View() == Backend(false, [], [])
      modifies endpoints
      ensures forall i :: 0 <= i < |endpoints| ==>
                endpoints[i].isOpen == endpoints[i].accepts == old(endpoints[i].accepts)
      ensures session != null <==> exists i :: 0 <= i < |endpoints| && endpoints[i].isOpen
      ensures session != null ==>
                && fresh(session) && session.Valid() && session.router == this && session.backends == endpoints
                && !session.closed && session.model == session.start && session.trace == []
                && IsWriter(endpoints, |endpoints|, session.model.writer)
    {
      var connections, writeBackend, writer, bs := ConnectAll(endpoints);
      ShownOpen(endpoints, bs);
      if connections > 0 {
        session := new RouterSession(this, endpoints, writeBackend,
                                     Session(true, bs, writer, 0, false, 0, [], [], None, [], 0, false));
      } else {
        session := null;
      }
    }
  }

  class RouterSession {
    const router: Router
    const backends: seq<Endpoint>
    const writeBackend: Endpoint?
    var closed: bool
    var routeCount: nat
    var onTransaction: bool
    var repliesToIgnore: nat

    /** The session as a state of the transition system, with its history: where it started, what has happened and
        where that has led. */
    ghost const start: Session
    ghost var trace: seq<Event>
    ghost var model: Session

    constructor (router: Router, backends: seq<Endpoint>, writeBackend: Endpoint?, ghost model: Session)
      requires Distinct(backends) && Shows(backends, model.backends)
      requires Initial(model)
      requires writeBackend == if model.writer.Some? then backends[model.writer.value] else null
      ensures Valid() && this.router == router && this.backends == backends && !closed
      ensures this.model == model == start && trace == []
    {
      this.router, this.backends, this.writeBackend, this.model := router, backends, writeBackend, model;
      start, trace := model, [];
      closed, routeCount, onTransaction, repliesToIgnore := false, 0, false, 0;
    }

    /** The fields and the endpoints are in the state the model says, and until the session is destroyed that is
        where the trace of the calls leads from the start. */
    ghost predicate Valid()
      reads this, backends
    {
      && Initial(start)
      && (if closed then !model.live else model == Exec(start, trace))
      && Distinct(backends) && Shows(backends, model.backends)
      && (model.writer.Some? ==> model.writer.value < |backends|)
      && writeBackend == (if model.writer.Some? then backends[model.writer.value] else null)
      && routeCount == model.routeCount < U32
      && repliesToIgnore == model.repliesToIgnore < U32
      && onTransaction == model.onTransaction
    }

    /** The open endpoints other than the write backend, in order. */
    method ReadCandidates(ghost bs: seq<Backend>, ghost writer: Option<nat>) returns (candidates: seq<Endpoint>)
      requires Distinct(backends) && Shows(backends, bs) && (writer.Some? ==> writer.value < |backends|)
      requires writeBackend == if writer.Some? then backends[writer.value] else null
      ensures |candidates| == |Candidates(bs, writer)|
      ensures forall k :: 0 <= k < |candidates| ==>
                Candidates(bs, writer)[k] < |backends| && candidates[k] == backends[Candidates(bs, writer)[k]]
    {
      candidates := [];
      for i := 0 to |backends|
        invariant |candidates| == |Candidates(bs[..i], writer)|
        invariant forall k :: 0 <= k < |candidates| ==>
                    && Candidates(bs[..i], writer)[k] < |backends|
                    && candidates[k] == backends[Candidates(bs[..i], writer)[k]]
      {
        assert bs[..i + 1][..i] == bs[..i];
        assert IsCandidate(bs[..i + 1], writer, i) <==> bs[i].open && writer != Some(i);
        if backends[i].isOpen && backends[i] != writeBackend {
          candidates := candidates + [backends[i]];
        }
      }
      assert bs[..|backends|] == bs;
    }

    /** The candidate whose turn it is, if there is any. */
    method NextReader() returns (target: Endpoint?)
      requires Distinct(backends) && Shows(backends, model.backends)
      requires model.writer.Some? ==> model.writer.value < |backends|
      requires writeBackend == if model.writer.Some? then backends[model.writer.value] else null
      modifies `routeCount
      ensures var cs := Candidates(model.backends, model.writer);
        if cs == [] then target == null && routeCount == old(routeCount)
        else && cs[old(routeCount) % |cs|] < |backends| && target == backends[cs[old(routeCount) % |cs|]]
             && routeCount == (old(routeCount) + 1) % U32
    {
      var candidates := ReadCandidates(model.backends, model.writer);
      target := null;
      if candidates != [] {
        target := candidates[routeCount % |candidates|];
        routeCount := (routeCount + 1) % U32;
      }
    }

    /** Follow transaction boundaries; `pinned` says whether the statement falls in a transaction. */
    method TrackTransaction(t: Traits) returns (pinned: bool)
      requires !t.write
      modifies `onTransaction
      ensures onTransaction == TransactionAfter(t, old(onTransaction))
      ensures pinned == (old(onTransaction) || t.begin)
    {
      if t.begin {
        onTransaction := true;
      }
      pinned := onTransaction;
      if t.end {
        onTransaction := false;
      }
    }

    /** A target and a broadcast flag that say what the decision says. */
    ghost predicate Aims(d: Decision, target: Endpoint?, routeToAll: bool) {
      match d
      case One(b, _) => b < |backends| && target == backends[b]
      case All => target == null && routeToAll
      case NoTarget => target == null && !routeToAll
    }

    method DecideTarget(stmt: Statement) returns (target: Endpoint?, routeToAll: bool)
      requires Valid()
      modifies `onTransaction, `routeCount
      ensures onTransaction == Note(model, stmt).onTransaction
      ensures routeCount == Note(model, stmt).routeCount
      ensures Aims(Decide(model, stmt), target, routeToAll)
    {
      target, routeToAll := null, false;
      if stmt.traits.write {
        target := writeBackend;
        WriteDecision(model, stmt);
      } else {
        var pinned := TrackTransaction(stmt.traits);
        if pinned {
          target := writeBackend;
        }
        if target == null && stmt.traits.read {
          target := NextReader();
          ReadDecision(model, stmt);
        } else {
          OtherDecision(model, stmt);
          if target == null && stmt.traits.session {
            routeToAll := true;
          }
        }
      }
    }

    /** Clone the statement to every open backend; `sent` of the `targets` open ones took it. */
    method Broadcast(ghost bs: seq<Backend>, ghost d: Delivery) returns (targets: nat, sent: nat)
      requires Distinct(backends) && Shows(backends, bs)
      modifies backends
      ensures Accepting(backends) == old(Accepting(backends))
      ensures Shows(backends, DeliverAll(bs, Accepting(backends), d))
      ensures targets == |OpenSet(bs)| && sent == |Takers(bs, Accepting(backends))|
    {
      targets, sent := 0, 0;
      ghost var accept, now := Accepting(backends), bs;
      assert OpenSet(bs[..0]) == {} == Takers(bs[..0], accept);
      for i := 0 to |backends|
        invariant Accepting(backends) == accept
        invariant Shows(backends, now) && PartlyDelivered(bs, now, accept, d, i)
        invariant targets == |OpenSet(bs[..i])| && sent == |Takers(bs[..i], accept)|
      {
        CountOne(bs, accept, i);
        assert now[i] == bs[i];
        if backends[i].isOpen {
          targets := targets + 1;
          var ok := SendTo(backends[i], i, now, d);
          if ok {
            sent := sent + 1;
          }
        }
        DeliveredOne(bs, now, accept, d, i);
        now := if Takes(bs, accept, i) then now[i := Deliver(now[i], d)] else now;
      }
      assert bs[..|backends|] == bs;
      assert now == DeliverAll(bs, accept, d);
    }

    /** Send to one endpoint, number `b`. */
    method SendTo(target: Endpoint, ghost b: nat, ghost bs: seq<Backend>, ghost d: Delivery) returns (ok: bool)
      requires Distinct(backends) && Shows(backends, bs) && b < |backends| && target == backends[b]
      modifies target
      ensures Accepting(backends) == old(Accepting(backends))
      ensures ok == Takes(bs, Accepting(backends), b)
      ensures Shows(backends, if ok then bs[b := Deliver(bs[b], d)] else bs)
    {
      ok := target.RouteQuery(d);
      assert Accepting(backends) == old(Accepting(backends));
    }

    /** Target selection is done: write to the endpoints. `s` is the session once it noted the statement. */
    method Send(stmt: Statement, target: Endpoint?, routeToAll: bool, ghost s: Session, ghost d: Decision)
      returns (ok: bool)
      requires Distinct(backends) && Shows(backends, s.backends) && repliesToIgnore == s.repliesToIgnore < U32
      requires Aims(d, target, routeToAll)
      modifies `repliesToIgnore, backends
      ensures Accepting(backends) == old(Accepting(backends))
      ensures var t := Sending(s, stmt, d, Accepting(backends));
        && Shows(backends, t.backends) && repliesToIgnore == t.repliesToIgnore < U32
        && ok == (|t.requests| == |s.requests| + 1)
    {
      if target != null {
        ok := SendTo(target, d.backend, s.backends, Delivery(|s.requests|, stmt, d.kind));
      } else if routeToAll {
        var targets, sent := Broadcast(s.backends, Delivery(|s.requests|, stmt, Kind.Broadcast));
        repliesToIgnore := (repliesToIgnore + sent - 1) % U32;
        ok := sent == targets;
        SameCount(s.backends, Accepting(backends));
      } else {
        ok := false;
      }
    }

    /** Note that event `e` has happened. */
    ghost method Extend(e: Event)
      requires Initial(start) && !closed && model == Exec(start, trace)
      modifies `model, `trace
      ensures model == Step(old(model), e) && trace == old(trace) + [e] && model == Exec(start, trace)
    {
      ExecConcat(start, trace, [e]);
      ExecOne(model, e);
      model, trace := Step(model, e), trace + [e];
    }

    /** Decide and send; the model takes the same step. */
    method RouteOpen(stmt: Statement) returns (ok: bool)
      requires Valid() && !closed && model.live
      modifies this, backends
      ensures Valid() && !closed && Accepting(backends) == old(Accepting(backends))
      ensures model == Step(old(model), Route(stmt, Accepting(backends)))
      ensures trace == old(trace) + [Route(stmt, Accepting(backends))]
      ensures ok == (|model.requests| == |old(model).requests| + 1)
    {
      var target, routeToAll := DecideTarget(stmt);
      ghost var s, d := Note(model, stmt), Decide(model, stmt);
      NoteFrame(model, stmt);
      ok := Send(stmt, target, routeToAll, s, d);
      RoutingFrame(model, stmt, Accepting(backends));
      Extend(Route(stmt, Accepting(backends)));
    }

    /** Route a packet: its command and, for COM_QUERY, the type mask of its statement. The client of a session that
        has ended sends nothing more. */
    method RouteQuery(command: Command, mask: bv32) returns (ok: bool)
      requires Valid() && (closed || model.live)
      modifies this, router, backends
      ensures Valid() && closed == old(closed) && Accepting(backends) == old(Accepting(backends))
      ensures closed ==> model == old(model) && trace == old(trace)
      ensures !closed ==>
                && model == Step(old(model), Route(Classify(command, mask), Accepting(backends)))
                && trace == old(trace) + [Route(Classify(command, mask), Accepting(backends))]
      ensures ok == (|model.requests| == |old(model).requests| + 1)
      ensures ok <==> !closed && RouterInvariants.AllTake(old(model), Classify(command, mask), Accepting(backends))
      ensures router.routingS == if ok then (old(router.routingS) + 1) % U64 else old(router.routingS)
      ensures router.routingF == if ok then old(router.routingF) else (old(router.routingF) + 1) % U64
      ensures router.routingC == old(router.routingC)
    {
      ok := false;
      if !closed {
        AcceptedGrows(model, Classify(command, mask), Accepting(backends));
        ok := RouteOpen(Classify(command, mask));
      }
      router.Record(ok);
    }

    /** A reply arrives from backend number `b`; `toClient` says whether the client gets it. */
    method ClientReply(down: Endpoint, ghost b: nat) returns (toClient: bool)
      requires Valid() && model.live && HasReply(model, b) && down == backends[b]
      modifies this, router, down
      ensures Valid() && closed == old(closed)
      ensures model == Step(old(model), Reply(b)) && trace == old(trace) + [Reply(b)]
      ensures toClient <==> old(repliesToIgnore) == 0
      ensures model.forwarded == old(model).forwarded + if toClient then [old(down.inflight[0])] else []
      ensures repliesToIgnore == if toClient then 0 else old(repliesToIgnore) - 1
      ensures down.View() == old(down.View()).(inflight := old(down.inflight)[1..])
      ensures router.routingC == if toClient then (old(router.routingC) + 1) % U64 else old(router.routingC)
      ensures router.routingS == old(router.routingS) && router.routingF == old(router.routingF)
    {
      down.inflight := down.inflight[1..];
      if repliesToIgnore > 0 {
        repliesToIgnore := repliesToIgnore - 1;
        toClient := false;
      } else {
        router.routingC := (router.routingC + 1) % U64;
        toClient := true;
      }
      Extend(Reply(b));
    }

    /** Backend number `b` failed. The session goes on while some backend is open; otherwise `upstream` decides. */
    method HandleError(down: Endpoint, ghost b: nat, upstream: bool) returns (goesOn: bool)
      requires Valid() && model.live && b < |backends| && down == backends[b]
      modifies this, down
      ensures Valid() && closed == old(closed)
      ensures model == Step(old(model), Error(b)) && trace == old(trace) + [Error(b)]
      ensures goesOn == (model.live || upstream)
      ensures model.live <==> exists j :: 0 <= j < |backends| && backends[j].isOpen
      ensures down.View() == Backend(false, old(down.log), [])
    {
      down.Close();
      var ok := false;
      for i := 0 to |backends|
        invariant ok <==> exists j :: 0 <= j < i && backends[j].isOpen
      {
        ok := ok || backends[i].isOpen;
      }
      Extend(Error(b));
      ShownOpen(backends, model.backends);
      goesOn := ok || upstream;
    }

    /** The destructor closes whatever is open. */
    method Destroy()
      requires Valid() && !closed
      modifies this, backends
      ensures Valid() && closed && trace == old(trace)
      ensures forall i :: 0 <= i < |backends| ==> backends[i].View() == Backend(false, old(backends[i].log), [])
      ensures !model.live && InFlight(model) == 0 && model.lost == old(model).lost + InFlight(old(model))
      ensures model == old(model).(live := false, backends := model.backends, lost := model.lost)
    {
      ClosedOwesNothing(start, trace);
      ShutEffect(model);
      closed := true;
      CloseAll(model.backends);
      model := Shut(model);
    }

    /** Close every endpoint that is open. */
    method CloseAll(ghost bs: seq<Backend>)
      requires Distinct(backends) && Shows(backends, bs)
      requires forall i :: 0 <= i < |bs| && !bs[i].open ==> bs[i].inflight == []
      modifies backends
      ensures forall i :: 0 <= i < |backends| ==> backends[i].View() == Backend(false, bs[i].log, [])
    {
      for i := 0 to |backends|
        invariant forall j :: 0 <= j < |backends| ==>
                    backends[j].View() == if j < i then Backend(false, bs[j].log, []) else bs[j]
      {
        if backends[i].isOpen {
          backends[i].Close();
        }
      }
    }
  }

  /** The history grows by a request exactly when all destinations take the statement. */
  lemma AcceptedGrows(s: Session, stmt: Statement, accept: set<nat>)
    requires s.live
    ensures |Step(s, Route(stmt, accept)).requests| == |s.requests| + 1 <==> RouterInvariants.AllTake(s, stmt, accept)
  {
    RouterInvariants.AcceptedIff(s, stmt, accept);
  }

  lemma ExecOne(s: Session, e: Event)
    ensures Exec(s, [e]) == Step(s, e)
  {
    assert [e][1..] == [];
  }

  lemma ClosedOwesNothing(s: Session, es: seq<Event>)
    requires Initial(s)
    ensures forall i :: 0 <= i < |Exec(s, es).backends| && !Exec(s, es).backends[i].open ==>
              Exec(s, es).backends[i].inflight == []
  {
    RouterInvariants.InitialHistory(s);
    RouterInvariants.ShapeRun(s, es);
  }

  lemma AnyOpenSnoc(bs: seq<Backend>, b: Backend)
    ensures AnyOpen(bs + [b]) <==> AnyOpen(bs) || b.open
  {
    var cs := bs + [b];
    if i :| 0 <= i < |bs| && bs[i].open {
      assert cs[i].open;
    }
    assert cs[|bs|] == b;
  }

  lemma ShownOpen(es: seq<Endpoint>, bs: seq<Backend>)
    requires Shows(es, bs)
    ensures AnyOpen(bs) <==> exists j :: 0 <= j < |es| && es[j].isOpen
  {
    if j :| 0 <= j < |es| && es[j].isOpen {
      assert bs[j].open;
    }
    if j :| 0 <= j < |bs| && bs[j].open {
      assert es[j].isOpen;
    }
  }

  /** The second half of routing, once the statement is noted and decided on. */
  ghost function Sending(s: Session, stmt: Statement, d: Decision, accept: set<nat>): Session {
    match d
    case One(b, kind) => SendOne(s, stmt, b, kind, accept)
    case All => SendAll(s, stmt, accept)
    case NoTarget => SendNone(s, stmt)
  }

  /** What the router decides on a statement with a write bit. */
  lemma WriteDecision(s: Session, stmt: Statement)
    requires stmt.traits.write
    ensures Decide(s, stmt) == if s.writer.Some? then One(s.writer.value, Pinned) else NoTarget
    ensures Note(s, stmt).onTransaction == s.onTransaction && Note(s, stmt).routeCount == s.routeCount
  {
  }

  /** What it decides on a read that is not pinned. */
  lemma ReadDecision(s: Session, stmt: Statement)
    requires !stmt.traits.write && stmt.traits.read
    requires !((s.onTransaction || stmt.traits.begin) && s.writer.Some?)
    ensures var cs := Candidates(s.backends, s.writer);
      if cs == [] then Decide(s, stmt) == NoTarget && Note(s, stmt).routeCount == s.routeCount
      else && Decide(s, stmt) == One(cs[s.routeCount % |cs|], Balanced)
           && Note(s, stmt).routeCount == (s.routeCount + 1) % U32
  {
  }

  /** What it decides on a statement that is pinned or neither writes nor reads. */
  lemma OtherDecision(s: Session, stmt: Statement)
    requires !stmt.traits.write
    requires ((s.onTransaction || stmt.traits.begin) && s.writer.Some?) || !stmt.traits.read
    ensures Note(s, stmt).routeCount == s.routeCount
    ensures Decide(s, stmt)
         == if (s.onTransaction || stmt.traits.begin) && s.writer.Some? then One(s.writer.value, Pinned)
            else if stmt.traits.session then All
            else NoTarget
  {
  }

  lemma NoteFrame(s: Session, stmt: Statement)
    requires s.routeCount < U32
    ensures var t := Note(s, stmt);
      t.backends == s.backends && t.writer == s.writer && t.repliesToIgnore == s.repliesToIgnore
      && t.requests == s.requests && t.routeCount < U32
  {
  }

  /** Noting, deciding and sending is a step; what sending leaves alone is as noted. */
  lemma RoutingFrame(s: Session, stmt: Statement, accept: set<nat>)
    requires s.live
    ensures var t := Step(s, Route(stmt, accept));
      && t == Sending(Note(s, stmt), stmt, Decide(s, stmt), accept)
      && t.writer == s.writer && |t.backends| == |s.backends|
      && t.routeCount == Note(s, stmt).routeCount && t.onTransaction == Note(s, stmt).onTransaction
  {
  }

  /** The first `n` backends have been offered the statement. */
  ghost predicate PartlyDelivered(bs: seq<Backend>, now: seq<Backend>, accept: set<nat>, d: Delivery, n: nat) {
    && |now| == |bs|
    && forall j :: 0 <= j < |bs| ==> now[j] == if j < n && Takes(bs, accept, j) then Deliver(bs[j], d) else bs[j]
  }

  lemma DeliveredOne(bs: seq<Backend>, now: seq<Backend>, accept: set<nat>, d: Delivery, i: nat)
    requires i < |bs| && PartlyDelivered(bs, now, accept, d, i)
    ensures PartlyDelivered(bs, if Takes(bs, accept, i) then now[i := Deliver(now[i], d)] else now, accept, d, i + 1)
  {
  }

  /** Looking at one more backend counts it if it is open, and if it takes the statement. */
  lemma CountOne(bs: seq<Backend>, accept: set<nat>, i: nat)
    requires i < |bs|
    ensures |OpenSet(bs[..i + 1])| == |OpenSet(bs[..i])| + if bs[i].open then 1 else 0
    ensures |Takers(bs[..i + 1], accept)| == |Takers(bs[..i], accept)| + if Takes(bs, accept, i) then 1 else 0
  {
    assert forall j :: 0 <= j < i ==> bs[..i + 1][j] == bs[..i][j] == bs[j];
    assert OpenSet(bs[..i + 1]) == OpenSet(bs[..i]) + if bs[i].open then {i} else {};
    var before := Takers(bs[..i], accept);
    forall j ensures j in Takers(bs[..i + 1], accept) <==> j in before || (j == i && Takes(bs, accept, i)) {
      if 0 <= j < i {
        assert Takes(bs[..i + 1], accept, j) <==> Takes(bs[..i], accept, j);
      } else if j == i {
        assert Takes(bs[..i + 1], accept, j) <==> Takes(bs, accept, j);
      }
    }
    assert Takers(bs[..i + 1], accept) == before + if Takes(bs, accept, i) then {i} else {};
  }

  /** All open backends took the statement exactly when as many took it as are open. */
  lemma SameCount(bs: seq<Backend>, accept: set<nat>)
    ensures |Takers(bs, accept)| == |OpenSet(bs)| <==> Takers(bs, accept) == OpenSet(bs)
  {
    var takers, open := Takers(bs, accept), OpenSet(bs);
    assert forall i :: i in takers ==> Takes(bs, accept, i);
    assert takers <= open;
    assert |open - takers| == |open| - |takers| by {
      assert open == takers + (open - takers);
    }
    if |takers| == |open| {
      assert open - takers == {};
    }
  }
}
