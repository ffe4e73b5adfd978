/** What every run of a router session keeps: reply conservation, logs that are projections of one
    history, session-command agreement, placement, transaction pinning and liveness. */
module RouterInvariants {
  import opened Collections
  import opened QueryTypes
  import opened RouterState

  // ---- Shape ----

  ghost predicate Shape(s: Session) {
    && s.routeCount < U32 && s.repliesToIgnore < U32 && |s.backends| < 0x8000_0000
    && (s.writer.Some? ==> s.writer.value < |s.backends|)
    && (forall i :: 0 <= i < |s.backends| && !s.backends[i].open ==> s.backends[i].inflight == [])
    && (s.live ==> AnyOpen(s.backends))
  }

  /** What never comes back or moves: the backend list, its write backend, closed backends, a dead session. */
  ghost predicate Later(s: Session, t: Session) {
    && |t.backends| == |s.backends| && t.writer == s.writer
    && (t.live ==> s.live)
    && (forall i :: 0 <= i < |s.backends| && t.backends[i].open ==> s.backends[i].open)
    && (s.overflowed ==> t.overflowed)
    && s.lost <= t.lost
  }

  lemma ShapeStep(s: Session, e: Event)
    requires Shape(s)
    ensures Shape(Step(s, e)) && Later(s, Step(s, e))
  {
    if Enabled(s, e) {
      match e {
        case Route(stmt, accept) => ShapeRoute(s, stmt, accept);
        case Reply(b) => OpenPreserved(s.backends, ReplyStep(s, b).backends);
        case Error(b) =>
      }
    }
  }

  lemma ShapeRoute(s: Session, stmt: Statement, accept: set<nat>)
    requires Shape(s) && s.live
    ensures Shape(RouteStep(s, stmt, accept)) && Later(s, RouteStep(s, stmt, accept))
  {
    var u := Note(s, stmt);
    match Decide(s, stmt) {
      case One(b, kind) => ShapeOne(u, stmt, b, kind, accept);
      case All => ShapeAll(u, stmt, accept);
      case NoTarget =>
    }
  }

  lemma ShapeOne(s: Session, stmt: Statement, b: nat, kind: Kind, accept: set<nat>)
    requires Shape(s) && s.live
    ensures Shape(SendOne(s, stmt, b, kind, accept)) && Later(s, SendOne(s, stmt, b, kind, accept))
  {
    OpenPreserved(s.backends, SendOne(s, stmt, b, kind, accept).backends);
  }

  lemma ShapeAll(s: Session, stmt: Statement, accept: set<nat>)
    requires Shape(s) && s.live
    ensures Shape(SendAll(s, stmt, accept)) && Later(s, SendAll(s, stmt, accept))
  {
    OpenPreserved(s.backends, SendAll(s, stmt, accept).backends);
  }

  lemma OpenPreserved(bs: seq<Backend>, cs: seq<Backend>)
    requires |bs| == |cs| && AnyOpen(bs)
    requires forall i :: 0 <= i < |bs| ==> bs[i].open == cs[i].open
    ensures AnyOpen(cs)
  {
    var i :| 0 <= i < |bs| && bs[i].open;
    assert cs[i].open;
  }

  lemma {:induction false} ShapeRun(s: Session, es: seq<Event>)
    requires Shape(s)
    ensures Shape(Exec(s, es)) && Later(s, Exec(s, es))
    decreases |es|
  {
    if es != [] {
      ShapeStep(s, es[0]);
      ShapeRun(Step(s, es[0]), es[1..]);
    }
  }

  /** From creation on and through every error, a live session has an open backend, so every broadcast has
      a target and an accepted broadcast adds no negative number to the unsigned counter. */
  lemma LiveSessionHasOpenBackend(s: Session, es: seq<Event>, accept: set<nat>)
    requires Initial(s)
    ensures var t := Exec(s, es);
      t.live ==>
        && AnyOpen(t.backends)
        && (Takers(t.backends, accept) == OpenSet(t.backends) ==> |Takers(t.backends, accept)| >= 1)
  {
    ShapeRun(s, es);
    var t := Exec(s, es);
    if t.live {
      var i :| 0 <= i < |t.backends| && t.backends[i].open;
      assert i in OpenSet(t.backends);
      assert OpenSet(t.backends) != {};
    }
  }

  // ---- What an accepted statement changes ----

  /** The backends a statement would be sent to. */
  function Destinations(s: Session, stmt: Statement): set<nat> {
    match Decide(s, stmt)
    case One(b, _) => {b}
    case All => OpenSet(s.backends)
    case NoTarget => {}
  }

  /** The request an accepted statement becomes. */
  function RequestFor(s: Session, stmt: Statement): Request {
    Request(stmt, if Decide(s, stmt).One? then Decide(s, stmt).kind else Broadcast, Destinations(s, stmt))
  }

  /** `t` is `s` after request `r` was handed to its targets. */
  ghost predicate Sent(s: Session, t: Session, r: Request) {
    && |t.backends| == |s.backends| && t.writer == s.writer && t.forwarded == s.forwarded
    && t.requests == s.requests + [r] && t.seen == s.seen + [r.stmt]
    && (forall b :: b in r.targets ==> b < |s.backends|)
    && (forall b :: 0 <= b < |s.backends| ==> t.backends[b].open == s.backends[b].open)
    && (forall b :: 0 <= b < |s.backends| ==>
          t.backends[b].log == s.backends[b].log
                               + if b in r.targets then [Delivery(|s.requests|, r.stmt, r.kind)] else [])
    && (forall b :: 0 <= b < |s.backends| ==>
          t.backends[b].inflight == s.backends[b].inflight + if b in r.targets then [|s.requests|] else [])
  }

  lemma RouteSends(s: Session, stmt: Statement, accept: set<nat>)
    requires RouteStep(s, stmt, accept).live
    ensures Decide(s, stmt) != NoTarget && Sent(s, RouteStep(s, stmt, accept), RequestFor(s, stmt))
  {
    var u := Note(s, stmt);
    match Decide(s, stmt) {
      case One(b, kind) => OneSends(u, stmt, b, kind, accept);
      case All => AllSends(u, stmt, accept);
      case NoTarget =>
    }
  }

  lemma OneSends(s: Session, stmt: Statement, b: nat, kind: Kind, accept: set<nat>)
    requires SendOne(s, stmt, b, kind, accept).live
    ensures Sent(s, SendOne(s, stmt, b, kind, accept).(seen := s.seen + [stmt]), Request(stmt, kind, {b}))
  {
  }

  lemma AllSends(s: Session, stmt: Statement, accept: set<nat>)
    requires SendAll(s, stmt, accept).live
    ensures Sent(s, SendAll(s, stmt, accept).(seen := s.seen + [stmt]), Request(stmt, Broadcast, OpenSet(s.backends)))
  {
    assert Takers(s.backends, accept) == OpenSet(s.backends);
  }

  /** Everything that was offered to backends: the accepted requests and the refused one, if any. */
  function Offered(s: Session): seq<Request> {
    s.requests + match s.refused case None => [] case Some(r) => [r]
  }

  /** What becomes of a statement: the backends that take it, accepted or not. */
  function Attempt(s: Session, stmt: Statement, accept: set<nat>): Request {
    match Decide(s, stmt)
    case One(b, kind) => Request(stmt, kind, if Takes(s.backends, accept, b) then {b} else {})
    case All => Request(stmt, Broadcast, Takers(s.backends, accept))
    case NoTarget => Request(stmt, Broadcast, {})
  }

  /** `t` is `s` after `r` was offered: accepted or refused, its targets have logged it. */
  ghost predicate Received(s: Session, t: Session, r: Request) {
    && |t.backends| == |s.backends| && t.writer == s.writer && t.seen == s.seen + [r.stmt]
    && t.forwarded == s.forwarded && t.lost == s.lost
    && (|| (t.requests == s.requests + [r] && t.refused == s.refused)
        || (t.requests == s.requests && t.refused == Some(r)))
    && (forall b :: b in r.targets ==> b < |s.backends|)
    && (forall b :: 0 <= b < |s.backends| ==> t.backends[b].open == s.backends[b].open)
    && (forall b :: 0 <= b < |s.backends| ==>
          t.backends[b].log == s.backends[b].log
                               + if b in r.targets then [Delivery(|s.requests|, r.stmt, r.kind)] else [])
    && (forall b :: 0 <= b < |s.backends| ==>
          t.backends[b].inflight == s.backends[b].inflight
                                    + if b in r.targets && !r.stmt.command.Quit? then [|s.requests|] else [])
  }

  lemma RouteReceives(s: Session, stmt: Statement, accept: set<nat>)
    ensures Received(s, RouteStep(s, stmt, accept), Attempt(s, stmt, accept))
  {
    var u := Note(s, stmt);
    match Decide(s, stmt) {
      case One(b, kind) => OneReceives(u, stmt, b, kind, accept);
      case All => AllReceives(u, stmt, accept);
      case NoTarget =>
    }
  }

  lemma OneReceives(s: Session, stmt: Statement, b: nat, kind: Kind, accept: set<nat>)
    ensures Received(s, SendOne(s, stmt, b, kind, accept).(seen := s.seen + [stmt]),
                     Request(stmt, kind, if Takes(s.backends, accept, b) then {b} else {}))
  {
  }

  lemma AllReceives(s: Session, stmt: Statement, accept: set<nat>)
    ensures Received(s, SendAll(s, stmt, accept).(seen := s.seen + [stmt]),
                     Request(stmt, Broadcast, Takers(s.backends, accept)))
  {
  }

  /** There is a backend to send to, and every one of them is open and takes the statement. */
  ghost predicate AllTake(s: Session, stmt: Statement, accept: set<nat>) {
    && Decide(s, stmt) != NoTarget
    && forall b :: b in Destinations(s, stmt) ==> b < |s.backends| && s.backends[b].open && b in accept
  }

  /** A statement is accepted exactly when all its destinations take it. An accepted statement leaves the session alive
      unless it is COM_QUIT; any other ends it and is remembered as refused. */
  lemma AcceptedIff(s: Session, stmt: Statement, accept: set<nat>)
    ensures var t := RouteStep(s, stmt, accept);
      && (t.requests == s.requests + [RequestFor(s, stmt)] <==> AllTake(s, stmt, accept))
      && (AllTake(s, stmt, accept) ==> t.refused == s.refused && (t.live <==> !stmt.command.Quit?))
      && (!AllTake(s, stmt, accept) ==>
            t.requests == s.requests && t.refused == Some(Attempt(s, stmt, accept)) && !t.live)
  {
    if Decide(s, stmt).All? {
      TakersAreAll(s.backends, accept);
    }
  }

  lemma TakersAreAll(bs: seq<Backend>, accept: set<nat>)
    ensures Takers(bs, accept) == OpenSet(bs) <==> forall b :: b in OpenSet(bs) ==> b in accept
  {
    if forall b :: b in OpenSet(bs) ==> b in accept {
      forall b ensures b in Takers(bs, accept) <==> b in OpenSet(bs) {
        assert b in OpenSet(bs) ==> Takes(bs, accept, b);
      }
    } else {
      var b :| b in OpenSet(bs) && b !in accept;
      assert b !in Takers(bs, accept);
    }
  }

  // ---- What replies and failures change ----

  /** A reply takes the oldest id off the queue of its backend. The client gets it exactly when no reply is to be
      ignored; otherwise there is one less to ignore. */
  lemma ReplyEffect(s: Session, b: nat)
    requires Enabled(s, Reply(b))
    ensures var t := Step(s, Reply(b)); var q := s.backends[b].inflight;
      && t.backends == s.backends[b := Backend(true, s.backends[b].log, q[1..])]
      && (s.repliesToIgnore == 0 ==> t == s.(backends := t.backends, forwarded := s.forwarded + [q[0]]))
      && (s.repliesToIgnore > 0 ==> t == s.(backends := t.backends, repliesToIgnore := s.repliesToIgnore - 1))
  {
  }

  /** A failure closes its backend with its log as it is and loses what it owed. Every other backend is as it was, and
      the session lives on exactly when one of them is open. */
  lemma ErrorEffect(s: Session, b: nat)
    requires Enabled(s, Error(b))
    ensures var t := Step(s, Error(b));
      && |t.backends| == |s.backends| && t.backends[b] == Backend(false, s.backends[b].log, [])
      && (forall c :: 0 <= c < |s.backends| && c != b ==> t.backends[c] == s.backends[c])
      && (t.live <==> exists c :: 0 <= c < |s.backends| && c != b && s.backends[c].open)
      && t.lost == s.lost + |s.backends[b].inflight|
      && t == s.(backends := t.backends, lost := t.lost, live := t.live)
  {
    var t := Step(s, Error(b));
    if c :| 0 <= c < |t.backends| && t.backends[c].open {
      assert c != b && s.backends[c].open;
    }
    if c :| 0 <= c < |s.backends| && c != b && s.backends[c].open {
      assert t.backends[c].open;
    }
  }

  lemma ClosedStep(s: Session, e: Event, b: nat)
    requires b < |s.backends| && !s.backends[b].open && s.backends[b].inflight == []
    ensures b < |Step(s, e).backends| && Step(s, e).backends[b] == s.backends[b]
  {
    if Enabled(s, e) {
      match e {
        case Route(stmt, accept) =>
          RouteReceives(s, stmt, accept);
          assert b !in Attempt(s, stmt, accept).targets;
        case Reply(c) => ReplyEffect(s, c);
        case Error(c) => ErrorEffect(s, c);
      }
    }
  }

  lemma {:induction false} ClosedStays(s: Session, es: seq<Event>, b: nat)
    requires b < |s.backends| && !s.backends[b].open && s.backends[b].inflight == []
    ensures b < |Exec(s, es).backends| && Exec(s, es).backends[b] == s.backends[b]
    decreases |es|
  {
    if es != [] {
      ClosedStep(s, es[0], b);
      ClosedStays(Step(s, es[0]), es[1..], b);
    }
  }

  /** Whatever happens after a backend has failed, it stays closed, receives nothing and answers nothing. */
  lemma FailedBackendIsDone(s: Session, b: nat, es: seq<Event>)
    requires Enabled(s, Error(b))
    ensures b < |Exec(Step(s, Error(b)), es).backends|
    ensures Exec(Step(s, Error(b)), es).backends[b] == Backend(false, s.backends[b].log, [])
  {
    ErrorEffect(s, b);
    ClosedStays(Step(s, Error(b)), es, b);
  }

  // ---- Reply conservation ----

  /** The books of a session: counter plus debts, minus replies on their way and replies lost. */
  function Balance(s: Session): int {
    s.repliesToIgnore + Owed(s) - InFlight(s) - s.lost
  }

  /** How many backends take a broadcast is how much it adds to the replies on their way. */
  lemma {:induction false} BroadcastFanOut(bs: seq<Backend>, accept: set<nat>, d: Delivery)
    ensures Sum(DeliverAll(bs, accept, d), InFlightOf)
         == Sum(bs, InFlightOf) + if d.stmt.command.Quit? then 0 else |Takers(bs, accept)|
  {
    if bs == [] {
      assert Takers(bs, accept) == {};
    } else {
      var n := |bs| - 1;
      BroadcastFanOut(bs[..n], accept, d);
      assert DeliverAll(bs, accept, d)[..n] == DeliverAll(bs[..n], accept, d);
      TakersSnoc(bs, accept);
    }
  }

  lemma TakersSnoc(bs: seq<Backend>, accept: set<nat>)
    requires bs != []
    ensures var n := |bs| - 1;
      && Takers(bs, accept) == Takers(bs[..n], accept) + (if Takes(bs, accept, n) then {n} else {})
      && n !in Takers(bs[..n], accept)
  {
    var n := |bs| - 1;
    forall i
      ensures i in Takers(bs, accept) <==> i in Takers(bs[..n], accept) + (if Takes(bs, accept, n) then {n} else {})
    {
      if 0 <= i < n {
        assert Takes(bs, accept, i) <==> Takes(bs[..n], accept, i);
      }
    }
  }

  ghost predicate Books(s: Session) {
    && Shape(s)
    && |s.forwarded| <= |s.requests|
    && (s.live ==> Balance(s) == 0)
  }

  lemma ReplyBalance(s: Session, b: nat)
    requires HasReply(s, b)
    ensures Balance(ReplyStep(s, b)) == Balance(s)
    ensures InFlight(ReplyStep(s, b)) == InFlight(s) - 1
  {
    SumUpdate(s.backends, b, s.backends[b].(inflight := s.backends[b].inflight[1..]), InFlightOf);
  }

  lemma ErrorBalance(s: Session, b: nat)
    requires b < |s.backends|
    ensures Balance(ErrorStep(s, b)) == Balance(s)
  {
    SumUpdate(s.backends, b, s.backends[b].(open := false, inflight := []), InFlightOf);
  }

  lemma SendOneBalance(s: Session, stmt: Statement, b: nat, kind: Kind, accept: set<nat>)
    requires SendOne(s, stmt, b, kind, accept).live
    ensures Balance(SendOne(s, stmt, b, kind, accept)) == Balance(s)
  {
    SumUpdate(s.backends, b, Deliver(s.backends[b], Delivery(|s.requests|, stmt, kind)), InFlightOf);
  }

  lemma WrapsAround(x: int)
    ensures (x % U32 - x) % U32 == 0
    ensures 0 <= x < U32 ==> x % U32 == x
  {
  }

  lemma SendAllBalance(s: Session, stmt: Statement, accept: set<nat>)
    requires SendAll(s, stmt, accept).live
    ensures (Balance(SendAll(s, stmt, accept)) - Balance(s)) % U32 == 0
    ensures !SendAll(s, stmt, accept).overflowed && AnyOpen(s.backends) ==>
              Balance(SendAll(s, stmt, accept)) == Balance(s)
  {
    BroadcastFanOut(s.backends, accept, Delivery(|s.requests|, stmt, Broadcast));
    var x := s.repliesToIgnore + |Takers(s.backends, accept)| - 1;
    assert Balance(SendAll(s, stmt, accept)) - Balance(s) == x % U32 - x;
    WrapsAround(x);
    if AnyOpen(s.backends) {
      var i :| 0 <= i < |s.backends| && s.backends[i].open;
      assert i in OpenSet(s.backends);
    }
  }

  /** One step keeps the books modulo 2^32, and exactly while the counter has not overflowed. */
  lemma BalanceStep(s: Session, e: Event)
    requires Shape(s)
    ensures Step(s, e).live ==> (Balance(Step(s, e)) - Balance(s)) % U32 == 0
    ensures Step(s, e).live && !Step(s, e).overflowed ==> Balance(Step(s, e)) == Balance(s)
  {
    if Enabled(s, e) && Step(s, e).live {
      match e {
        case Route(stmt, accept) =>
          assert Balance(Note(s, stmt)) == Balance(s);
          match Decide(s, stmt) {
            case One(b, kind) => SendOneBalance(Note(s, stmt), stmt, b, kind, accept);
            case All => SendAllBalance(Note(s, stmt), stmt, accept);
            case NoTarget =>
          }
        case Reply(b) => ReplyBalance(s, b);
        case Error(b) => ErrorBalance(s, b);
      }
    }
  }

  lemma BooksStep(s: Session, e: Event)
    requires Books(s) && !Step(s, e).overflowed
    ensures Books(Step(s, e))
  {
    ShapeStep(s, e);
    BalanceStep(s, e);
    if Enabled(s, e) && e.Reply? {
      ReplyBalance(s, e.backend);
      SumBoundsTerms(Step(s, e).backends, InFlightOf);
    }
  }

  lemma {:induction false} BooksRun(s: Session, es: seq<Event>)
    requires Books(s) && !Exec(s, es).overflowed
    ensures Books(Exec(s, es))
    decreases |es|
  {
    if es != [] {
      ShapeStep(s, es[0]);
      ShapeRun(Step(s, es[0]), es[1..]);
      BooksStep(s, es[0]);
      BooksRun(Step(s, es[0]), es[1..]);
    }
  }

  lemma InitialBooks(s: Session)
    requires Initial(s)
    ensures Books(s) && Balance(s) == 0 && InFlight(s) == 0
  {
    SumOfZeros(s.backends, InFlightOf);
  }

  lemma {:induction false} BalanceModuloRun(s: Session, es: seq<Event>)
    requires Shape(s) && Balance(s) % U32 == 0
    ensures Exec(s, es).live ==> Balance(Exec(s, es)) % U32 == 0
    decreases |es|
  {
    if es != [] {
      var t := Step(s, es[0]);
      ShapeStep(s, es[0]);
      BalanceStep(s, es[0]);
      if t.live {
        assert Balance(t) == Balance(s) + (Balance(t) - Balance(s));
        BalanceModuloRun(t, es[1..]);
      } else {
        ShapeRun(t, es[1..]);
      }
    }
  }

  /** Every interleaving of requests, replies and backend failures keeps the counter equal, in unsigned
      arithmetic, to the replies on their way and lost minus the replies the client is owed. */
  lemma ReplyConservationModulo(s: Session, es: seq<Event>)
    requires Initial(s)
    ensures var t := Exec(s, es);
      t.live ==> t.repliesToIgnore == (InFlight(t) + t.lost - Owed(t)) % U32
  {
    var t := Exec(s, es);
    InitialBooks(s);
    BalanceModuloRun(s, es);
    ShapeRun(s, es);
    if t.live {
      EqualModulo(t.repliesToIgnore, InFlight(t) + t.lost - Owed(t));
    }
  }

  lemma EqualModulo(x: int, y: int)
    requires 0 <= x < U32 && (x - y) % U32 == 0
    ensures x == y % U32
  {
  }

  /** Without counter overflow the law is exact. Replies on their way never exceed the replies to ignore plus
      the requests owed, the client never gets more replies than it has accepted requests, and once nothing is on
      its way the client is owed exactly what was lost and not ignored. */
  lemma ReplyConservation(s: Session, es: seq<Event>)
    requires Initial(s) && !Exec(s, es).overflowed
    ensures var t := Exec(s, es);
      && |t.forwarded| <= |t.requests|
      && (t.live ==>
            && t.repliesToIgnore + Owed(t) == InFlight(t) + t.lost
            && InFlight(t) <= t.repliesToIgnore + Owed(t)
            && (InFlight(t) == 0 ==> Owed(t) == t.lost - t.repliesToIgnore)
            && (InFlight(t) == 0 && t.lost == 0 ==> Owed(t) == 0 && t.repliesToIgnore == 0))
  {
    InitialBooks(s);
    BooksRun(s, es);
  }

  lemma {:induction false} TakersCount(bs: seq<Backend>, accept: set<nat>)
    ensures |Takers(bs, accept)| <= |bs|
  {
    if bs == [] {
      assert Takers(bs, accept) == {};
    } else {
      TakersCount(bs[..|bs| - 1], accept);
      TakersSnoc(bs, accept);
    }
  }

  /** A step that leaves the session alive adds at most the number of backends to the counter. */
  lemma CounterStep(s: Session, e: Event, room: nat)
    requires Shape(s) && !s.overflowed && s.repliesToIgnore + |s.backends| + room < U32
    ensures !Step(s, e).overflowed && |Step(s, e).backends| == |s.backends|
    ensures Step(s, e).live ==> Step(s, e).repliesToIgnore + room < U32
  {
    if Enabled(s, e) && e.Route? {
      TakersCount(s.backends, e.accept);
      var i :| 0 <= i < |s.backends| && s.backends[i].open;
      assert i in OpenSet(s.backends);
    }
  }

  /** `n` added `k` times. */
  function Times(k: nat, n: nat): nat {
    if k == 0 then 0 else n + Times(k - 1, n)
  }

  lemma {:induction false} TimesIsProduct(k: nat, n: nat)
    ensures Times(k, n) == k * n
  {
    if k > 0 {
      TimesIsProduct(k - 1, n);
    }
  }

  lemma {:induction false} EnoughRoom(s: Session, es: seq<Event>)
    requires Shape(s) && !s.overflowed && s.repliesToIgnore + Times(|es|, |s.backends|) < U32
    ensures !Exec(s, es).overflowed
    decreases |es|
  {
    if es != [] {
      var t := Step(s, es[0]);
      CounterStep(s, es[0], Times(|es| - 1, |s.backends|));
      if t.live {
        ShapeStep(s, es[0]);
        EnoughRoom(t, es[1..]);
      } else {
        DeadStays(t, es[1..]);
      }
    }
  }

  /** A run is too short to overflow the counter while its length times the number of backends is below 2^32. */
  lemma ShortRunsDoNotOverflow(s: Session, es: seq<Event>)
    requires Shape(s) && !s.overflowed && s.repliesToIgnore + |es| * |s.backends| < U32
    ensures !Exec(s, es).overflowed
  {
    TimesIsProduct(|es|, |s.backends|);
    EnoughRoom(s, es);
  }

  // ---- Logs are projections of one history ----

  /** What backend `b` has received if `requests` is all that was accepted. */
  function Project(requests: seq<Request>, b: nat): seq<Delivery> {
    if requests == [] then []
    else
      var k := |requests| - 1;
      Project(requests[..k], b)
      + if b in requests[k].targets then [Delivery(k, requests[k].stmt, requests[k].kind)] else []
  }

  lemma ProjectSnoc(requests: seq<Request>, r: Request, b: nat)
    ensures Project(requests + [r], b)
         == Project(requests, b) + if b in r.targets then [Delivery(|requests|, r.stmt, r.kind)] else []
  {
    assert (requests + [r])[..|requests|] == requests;
  }

  /** An accepted request went where its statement had to go. */
  ghost predicate WellPlaced(r: Request, writer: Option<nat>, n: nat) {
    && (r.stmt.traits.write ==> r.kind == Pinned)
    && match r.kind
       case Pinned => writer.Some? && r.targets == {writer.value}
       case Balanced => !r.stmt.traits.write && exists b :: r.targets == {b} && b < n && writer != Some(b)
       case Broadcast => r.stmt.traits.session && r.targets != {} && forall b :: b in r.targets ==> b < n
  }

  /** A refused statement reached no backend, or was a broadcast that some backends took. */
  ghost predicate Stray(r: Request, n: nat) {
    || r.targets == {}
    || (&& r.kind == Broadcast && !r.stmt.traits.write && r.stmt.traits.session
        && forall b :: b in r.targets ==> b < n)
  }

  /** The open backends have taken every accepted broadcast. */
  ghost predicate Covered(bs: seq<Backend>, requests: seq<Request>) {
    forall b, k :: 0 <= b < |bs| && bs[b].open && 0 <= k < |requests| && requests[k].kind == Broadcast ==>
      b in requests[k].targets
  }

  ghost predicate History(s: Session) {
    && Shape(s)
    && (s.live ==> s.refused == None)
    && |Offered(s)| == |s.seen|
    && (forall k :: 0 <= k < |s.seen| ==> Offered(s)[k].stmt == s.seen[k])
    && (forall k :: 0 <= k < |s.requests| ==> WellPlaced(s.requests[k], s.writer, |s.backends|))
    && (s.refused.Some? ==> Stray(s.refused.value, |s.backends|))
    && (forall b :: 0 <= b < |s.backends| ==> s.backends[b].log == Project(Offered(s), b))
    && Covered(s.backends, s.requests)
  }

  /** A request extends a history, well placed or refused. */
  lemma HistoryGrows(s: Session, t: Session, r: Request)
    requires History(s) && s.live && Shape(t) && Received(s, t, r) && (t.live ==> t.refused == None)
    requires t.refused == None ==> WellPlaced(r, s.writer, |s.backends|)
    requires t.refused == None && r.kind == Broadcast ==> OpenSet(s.backends) <= r.targets
    requires t.refused.Some? ==> Stray(r, |s.backends|)
    ensures History(t)
  {
    assert Offered(s) == s.requests && Offered(t) == s.requests + [r];
    forall b | 0 <= b < |t.backends| ensures t.backends[b].log == Project(Offered(t), b) {
      ProjectSnoc(s.requests, r, b);
    }
    forall b, k |
      0 <= b < |t.backends| && t.backends[b].open && 0 <= k < |t.requests| && t.requests[k].kind == Broadcast
      ensures b in t.requests[k].targets
    {
      if k == |s.requests| {
        assert b in OpenSet(s.backends);
      }
    }
  }

  lemma RequestIsWellPlaced(s: Session, stmt: Statement)
    requires Shape(s) && s.live && Decide(s, stmt) != NoTarget
    ensures WellPlaced(RequestFor(s, stmt), s.writer, |s.backends|)
  {
    if Decide(s, stmt).One? {
      DecideOne(s, stmt);
      assert RequestFor(s, stmt).targets == {Decide(s, stmt).backend};
    } else {
      var i :| 0 <= i < |s.backends| && s.backends[i].open;
      assert i in OpenSet(s.backends);
    }
  }

  /** An accepted statement was taken wherever it was to go. */
  lemma AcceptedEverywhere(s: Session, stmt: Statement, accept: set<nat>)
    requires RouteStep(s, stmt, accept).requests != s.requests
    ensures Decide(s, stmt) != NoTarget && Attempt(s, stmt, accept) == RequestFor(s, stmt)
  {
  }

  lemma RefusedIsStray(s: Session, stmt: Statement, accept: set<nat>)
    requires RouteStep(s, stmt, accept).requests == s.requests
    ensures Stray(Attempt(s, stmt, accept), |s.backends|) && !RouteStep(s, stmt, accept).live
  {
  }

  lemma RouteHistory(s: Session, stmt: Statement, accept: set<nat>)
    requires s.live && History(s)
    ensures History(RouteStep(s, stmt, accept))
  {
    var t, r := RouteStep(s, stmt, accept), Attempt(s, stmt, accept);
    ShapeRoute(s, stmt, accept);
    RouteReceives(s, stmt, accept);
    if t.refused == None {
      AcceptedEverywhere(s, stmt, accept);
      RequestIsWellPlaced(s, stmt);
      if Decide(s, stmt).One? {
        DecideOne(s, stmt);
      }
    } else {
      RefusedIsStray(s, stmt, accept);
    }
    HistoryGrows(s, t, r);
  }

  /** The history does not change when logs do not and backends at most close. */
  lemma HistoryKept(s: Session, t: Session)
    requires History(s) && Shape(t) && Later(s, t)
    requires t.requests == s.requests && t.seen == s.seen && t.refused == s.refused
    requires forall b :: 0 <= b < |s.backends| ==> t.backends[b].log == s.backends[b].log
    ensures History(t)
  {
    assert Offered(t) == Offered(s);
  }

  lemma HistoryStep(s: Session, e: Event)
    requires History(s)
    ensures History(Step(s, e))
  {
    if Enabled(s, e) {
      ShapeStep(s, e);
      match e {
        case Route(stmt, accept) => RouteHistory(s, stmt, accept);
        case Reply(b) => HistoryKept(s, ReplyStep(s, b));
        case Error(b) => HistoryKept(s, ErrorStep(s, b));
      }
    }
  }

  lemma {:induction false} HistoryRun(s: Session, es: seq<Event>)
    requires History(s)
    ensures History(Exec(s, es))
    decreases |es|
  {
    if es != [] {
      HistoryStep(s, es[0]);
      HistoryRun(Step(s, es[0]), es[1..]);
    }
  }

  lemma InitialHistory(s: Session)
    requires Initial(s)
    ensures History(s)
  {
  }

  lemma HistoryOf(s: Session, es: seq<Event>, t: Session)
    requires Run(s, es, t)
    ensures History(t)
  {
    InitialHistory(s);
    HistoryRun(s, es);
  }

  /** `t` is where the run `es` of a new session `s` has got to. */
  ghost predicate Run(s: Session, es: seq<Event>, t: Session) {
    Initial(s) && t == Exec(s, es)
  }

  /** In every reachable state, ended sessions included, each backend's log is exactly its share of what was offered.
      That is everything the client sent: the accepted requests, and after them at most one refused statement, which
      ended the session. */
  lemma LogsAreProjections(s: Session, es: seq<Event>, t: Session)
    requires Run(s, es, t)
    ensures |Offered(t)| == |t.seen| && forall k :: 0 <= k < |t.seen| ==> Offered(t)[k].stmt == t.seen[k]
    ensures forall b :: 0 <= b < |t.backends| ==> t.backends[b].log == Project(Offered(t), b)
    ensures t.live ==> Offered(t) == t.requests
  {
    HistoryOf(s, es, t);
  }

  // ---- Session-command agreement ----

  /** The deliveries that were broadcast. */
  function Broadcasts(log: seq<Delivery>): seq<Delivery> {
    if log == [] then []
    else
      var n := |log| - 1;
      Broadcasts(log[..n]) + if log[n].kind == Broadcast then [log[n]] else []
  }

  /** The broadcasts among the requests, as a backend that took them all would log them. */
  function BroadcastHistory(requests: seq<Request>): seq<Delivery> {
    if requests == [] then []
    else
      var n := |requests| - 1;
      BroadcastHistory(requests[..n])
      + if requests[n].kind == Broadcast then [Delivery(n, requests[n].stmt, Broadcast)] else []
  }

  lemma {:induction false} BroadcastsOfProjection(requests: seq<Request>, b: nat)
    requires forall k :: 0 <= k < |requests| && requests[k].kind == Broadcast ==> b in requests[k].targets
    ensures Broadcasts(Project(requests, b)) == BroadcastHistory(requests)
  {
    if requests != [] {
      var k := |requests| - 1;
      BroadcastsOfProjection(requests[..k], b);
      if b in requests[k].targets {
        var log := Project(requests, b);
        assert log[..|log| - 1] == Project(requests[..k], b);
      } else {
        assert Project(requests, b) == Project(requests[..k], b);
      }
    }
  }

  /** The backends that took the statement that was refused. */
  function Leftover(s: Session): set<nat> {
    match s.refused case None => {} case Some(r) => r.targets
  }

  lemma BroadcastsSnoc(log: seq<Delivery>, d: Delivery)
    ensures Broadcasts(log + [d]) == Broadcasts(log) + if d.kind == Broadcast then [d] else []
  {
    assert (log + [d])[..|log|] == log;
  }

  /** Every open backend has received exactly the session's whole sequence of broadcast requests, told apart by their
      ids, and after it the refused one if it is one of those that took it. */
  lemma SessionCommandAgreement(s: Session, es: seq<Event>, t: Session, b: nat)
    requires Run(s, es, t) && b < |t.backends| && t.backends[b].open
    ensures Broadcasts(t.backends[b].log)
         == BroadcastHistory(t.requests)
            + if b in Leftover(t) then [Delivery(|t.requests|, t.refused.value.stmt, Broadcast)] else []
  {
    HistoryOf(s, es, t);
    BroadcastsOfProjection(t.requests, b);
    if t.refused.Some? {
      var r := t.refused.value;
      assert Offered(t) == t.requests + [r] && Stray(r, |t.backends|);
      ProjectSnoc(t.requests, r, b);
      if b in r.targets {
        BroadcastsSnoc(Project(t.requests, b), Delivery(|t.requests|, r.stmt, r.kind));
      } else {
        assert t.backends[b].log == Project(t.requests, b);
      }
    } else {
      assert Offered(t) == t.requests;
    }
  }

  // ---- Statements that write session state, whatever the router made of them ----

  /** The deliveries whose statements have a session bit. */
  function SessionPart(log: seq<Delivery>): seq<Delivery> {
    if log == [] then []
    else
      var n := |log| - 1;
      SessionPart(log[..n]) + if log[n].stmt.traits.session then [log[n]] else []
  }

  lemma {:induction false} SessionPartMembers(log: seq<Delivery>, d: Delivery)
    ensures d in SessionPart(log) <==> d in log && d.stmt.traits.session
  {
    if log != [] {
      var n := |log| - 1;
      SessionPartMembers(log[..n], d);
      assert log == log[..n] + [log[n]];
    }
  }

  /** Both backends or neither took the request. */
  predicate Alike(r: Request, a: nat, b: nat) { a in r.targets <==> b in r.targets }

  ghost predicate AllAlike(requests: seq<Request>, a: nat, b: nat) {
    forall k :: 0 <= k < |requests| && requests[k].stmt.traits.session ==> Alike(requests[k], a, b)
  }

  lemma {:induction false} SameSessionParts(requests: seq<Request>, a: nat, b: nat)
    requires AllAlike(requests, a, b)
    ensures SessionPart(Project(requests, a)) == SessionPart(Project(requests, b))
  {
    if requests != [] {
      var k := |requests| - 1;
      SameSessionParts(requests[..k], a, b);
      assert Alike(requests[k], a, b) || !requests[k].stmt.traits.session;
      SessionPartStep(requests, a);
      SessionPartStep(requests, b);
    }
  }

  lemma SessionPartStep(requests: seq<Request>, b: nat)
    requires requests != []
    ensures var k := |requests| - 1; var r := requests[k];
      SessionPart(Project(requests, b)) == SessionPart(Project(requests[..k], b))
        + if b in r.targets && r.stmt.traits.session then [Delivery(k, r.stmt, r.kind)] else []
  {
    var k := |requests| - 1;
    var before := Project(requests[..k], b);
    if b in requests[k].targets {
      var log := Project(requests, b);
      assert log[..|log| - 1] == before;
    } else {
      assert Project(requests, b) == before;
    }
  }

  /** Two shares of one history have the same session part exactly when each session statement went to both or to
      neither. */
  lemma SessionPartsIff(requests: seq<Request>, a: nat, b: nat)
    ensures SessionPart(Project(requests, a)) == SessionPart(Project(requests, b)) <==> AllAlike(requests, a, b)
  {
    if SessionPart(Project(requests, a)) == SessionPart(Project(requests, b)) {
      forall k | 0 <= k < |requests| && requests[k].stmt.traits.session ensures Alike(requests[k], a, b) {
        OneSided(requests, a, b, k);
        OneSided(requests, b, a, k);
      }
    } else if AllAlike(requests, a, b) {
      SameSessionParts(requests, a, b);
    }
  }

  lemma OneSided(requests: seq<Request>, a: nat, b: nat, k: nat)
    requires k < |requests| && requests[k].stmt.traits.session
    requires SessionPart(Project(requests, a)) == SessionPart(Project(requests, b))
    ensures a in requests[k].targets ==> b in requests[k].targets
  {
    if a in requests[k].targets {
      var d := Delivery(k, requests[k].stmt, requests[k].kind);
      ProjectComplete(requests, a, k);
      SessionPartMembers(Project(requests, a), d);
      SessionPartMembers(Project(requests, b), d);
      var i :| 0 <= i < |Project(requests, b)| && Project(requests, b)[i] == d;
      ProjectEntry(requests, b, i);
    }
  }

  /** The log holds a session statement that was not broadcast. */
  ghost predicate Diverted(log: seq<Delivery>) {
    exists i :: 0 <= i < |log| && log[i].stmt.traits.session && log[i].kind != Broadcast
  }

  /** A session statement that was not broadcast diverts the log it is in. */
  lemma DivertedBy(t: Session, k: nat, b: nat)
    requires History(t) && b < |t.backends| && k < |t.requests|
    requires t.requests[k].stmt.traits.session && t.requests[k].kind != Broadcast
    ensures b in t.requests[k].targets ==> Diverted(t.backends[b].log)
  {
    if b in t.requests[k].targets {
      var r := t.requests[k];
      assert Offered(t)[k] == r;
      ProjectComplete(Offered(t), b, k);
      var i :| 0 <= i < |t.backends[b].log| && t.backends[b].log[i] == Delivery(k, r.stmt, r.kind);
      assert Diverted(t.backends[b].log);
    }
  }

  ghost predicate TwoOpen(t: Session, a: nat, b: nat) {
    a < |t.backends| && b < |t.backends| && a != b && t.backends[a].open && t.backends[b].open
  }

  /** If both backends or neither took each session statement, those in a log were broadcast. */
  lemma AlikeEntry(t: Session, a: nat, b: nat, i: nat)
    requires History(t) && TwoOpen(t, a, b) && AllAlike(Offered(t), a, b)
    requires i < |t.backends[a].log| && t.backends[a].log[i].stmt.traits.session
    ensures t.backends[a].log[i].kind == Broadcast
  {
    var k := t.backends[a].log[i].id;
    ProjectEntry(Offered(t), a, i);
    assert Alike(Offered(t)[k], a, b);
    if k < |t.requests| {
      assert WellPlaced(t.requests[k], t.writer, |t.backends|);
    }
  }

  lemma AlikeIsNotDiverted(t: Session, a: nat, b: nat)
    requires History(t) && TwoOpen(t, a, b) && AllAlike(Offered(t), a, b)
    ensures !Diverted(t.backends[a].log)
  {
    var log := t.backends[a].log;
    forall i | 0 <= i < |log| && log[i].stmt.traits.session ensures log[i].kind == Broadcast {
      AlikeEntry(t, a, b, i);
    }
  }

  lemma AlikeLeftover(t: Session, a: nat, b: nat)
    requires History(t) && AllAlike(Offered(t), a, b)
    ensures a in Leftover(t) <==> b in Leftover(t)
  {
    if a in Leftover(t) || b in Leftover(t) {
      var k := |t.requests|;
      assert Offered(t)[k] == t.refused.value && t.refused.value.stmt.traits.session;
      assert Alike(Offered(t)[k], a, b);
    }
  }

  lemma NotDivertedIsAlike(t: Session, a: nat, b: nat)
    requires History(t) && TwoOpen(t, a, b) && !Diverted(t.backends[a].log) && !Diverted(t.backends[b].log)
    requires a in Leftover(t) <==> b in Leftover(t)
    ensures AllAlike(Offered(t), a, b)
  {
    forall k | 0 <= k < |Offered(t)| && Offered(t)[k].stmt.traits.session ensures Alike(Offered(t)[k], a, b) {
      if k < |t.requests| {
        assert Offered(t)[k] == t.requests[k];
        if t.requests[k].kind != Broadcast {
          DivertedBy(t, k, a);
          DivertedBy(t, k, b);
        }
      }
    }
  }

  /** Any two open backends, the write backend included, have received the same session statements exactly when
      neither got one that was not broadcast, and both or neither took the statement that was refused. */
  lemma SessionStatementsAgreeIff(s: Session, es: seq<Event>, t: Session, a: nat, b: nat)
    requires Run(s, es, t) && TwoOpen(t, a, b)
    ensures SessionPart(t.backends[a].log) == SessionPart(t.backends[b].log) <==>
            && !Diverted(t.backends[a].log) && !Diverted(t.backends[b].log)
            && (a in Leftover(t) <==> b in Leftover(t))
  {
    HistoryOf(s, es, t);
    SessionPartsIff(Offered(t), a, b);
    if AllAlike(Offered(t), a, b) {
      assert AllAlike(Offered(t), b, a) by {
        AlikeBothWays(Offered(t), a, b);
      }
      AlikeIsNotDiverted(t, a, b);
      AlikeIsNotDiverted(t, b, a);
      AlikeLeftover(t, a, b);
    } else if
      && !Diverted(t.backends[a].log) && !Diverted(t.backends[b].log)
      && (a in Leftover(t) <==> b in Leftover(t)) {
      NotDivertedIsAlike(t, a, b);
    }
  }

  lemma AlikeBothWays(requests: seq<Request>, a: nat, b: nat)
    requires AllAlike(requests, a, b)
    ensures AllAlike(requests, b, a)
  {
    forall k | 0 <= k < |requests| && requests[k].stmt.traits.session ensures Alike(requests[k], b, a) {
      assert Alike(requests[k], a, b);
    }
  }

  /** All read backends still open have received the same session statements. */
  ghost predicate ReadersAgree(t: Session) {
    forall a: nat, b: nat :: IsCandidate(t.backends, t.writer, a) && IsCandidate(t.backends, t.writer, b) ==>
      SessionPart(t.backends[a].log) == SessionPart(t.backends[b].log)
  }

  /** Backend `b` answered a statement that reads and also writes session state. */
  ghost predicate SessionRead(t: Session, b: nat) {
    b < |t.backends| &&
    exists i :: 0 <= i < |t.backends[b].log|
      && t.backends[b].log[i].kind == Balanced && t.backends[b].log[i].stmt.traits.session
  }

  lemma ReaderDiversion(s: Session, es: seq<Event>, t: Session, b: nat)
    requires Run(s, es, t) && IsCandidate(t.backends, t.writer, b)
    ensures Diverted(t.backends[b].log) <==> SessionRead(t, b)
  {
    Placement(s, es, t, b);
  }

  /** With two read backends open, all of them hold the same session statements exactly when none of them was given
      one as a balanced read, and all or none took the statement that was refused. */
  lemma ReadersAgreeIff(s: Session, es: seq<Event>, t: Session, a: nat, b: nat)
    requires Run(s, es, t) && a != b
    requires IsCandidate(t.backends, t.writer, a) && IsCandidate(t.backends, t.writer, b)
    ensures ReadersAgree(t) <==>
            && (forall c: nat :: IsCandidate(t.backends, t.writer, c) ==> !SessionRead(t, c))
            && (forall c: nat :: IsCandidate(t.backends, t.writer, c) ==> (c in Leftover(t) <==> a in Leftover(t)))
    ensures t.live ==> Leftover(t) == {}
  {
    HistoryOf(s, es, t);
    forall c: nat, d: nat | IsCandidate(t.backends, t.writer, c) && IsCandidate(t.backends, t.writer, d) && c != d
      ensures SessionPart(t.backends[c].log) == SessionPart(t.backends[d].log) <==>
              !SessionRead(t, c) && !SessionRead(t, d) && (c in Leftover(t) <==> d in Leftover(t))
    {
      SessionStatementsAgreeIff(s, es, t, c, d);
      ReaderDiversion(s, es, t, c);
      ReaderDiversion(s, es, t, d);
    }
    if ReadersAgree(t) {
      forall c: nat | IsCandidate(t.backends, t.writer, c)
        ensures !SessionRead(t, c) && (c in Leftover(t) <==> a in Leftover(t))
      {
        var d := if c == a then b else a;
        assert SessionPart(t.backends[c].log) == SessionPart(t.backends[d].log);
      }
    }
  }

  /** The state a server reaches by running what is in its log. The id of a delivery says which of the client's
      statements it is, so `apply` can depend on the text of each. */
  function Replay<S>(log: seq<Delivery>, init: S, apply: (S, Delivery) -> S): S {
    if log == [] then init
    else apply(Replay(log[..|log| - 1], init, apply), log[|log| - 1])
  }

  /** Running what was delivered changes no session state. */
  ghost predicate Neutral<S(!new)>(d: Delivery, apply: (S, Delivery) -> S) {
    forall x :: apply(x, d) == x
  }

  lemma {:induction false} ReplaySessionPart<S(!new)>(log: seq<Delivery>, init: S, apply: (S, Delivery) -> S)
    requires forall i :: 0 <= i < |log| && !log[i].stmt.traits.session ==> Neutral(log[i], apply)
    ensures Replay(log, init, apply) == Replay(SessionPart(log), init, apply)
  {
    if log != [] {
      var n := |log| - 1;
      ReplaySessionPart(log[..n], init, apply);
      if log[n].stmt.traits.session {
        var part := SessionPart(log);
        assert part[..|part| - 1] == SessionPart(log[..n]);
      } else {
        assert Neutral(log[n], apply) && SessionPart(log) == SessionPart(log[..n]);
      }
    }
  }

  /** The balanced requests without a session bit leave the state that `apply` describes alone. */
  ghost predicate ReadsAreNeutral<S(!new)>(requests: seq<Request>, apply: (S, Delivery) -> S) {
    forall k :: 0 <= k < |requests| && requests[k].kind == Balanced && !requests[k].stmt.traits.session ==>
      Neutral(Delivery(k, requests[k].stmt, Balanced), apply)
  }

  /** Two open read backends hold the same session state, for every notion of session state that balanced statements
      without a session bit leave alone, if they were given no session statement as a read and both or neither took
      the refused one. */
  lemma ReadBackendsAgree<S(!new)>(s: Session, es: seq<Event>, t: Session, a: nat, b: nat,
                                   init: S, apply: (S, Delivery) -> S)
    requires Run(s, es, t) && ReadsAreNeutral(t.requests, apply)
    requires IsCandidate(t.backends, t.writer, a) && IsCandidate(t.backends, t.writer, b)
    requires !SessionRead(t, a) && !SessionRead(t, b) && (a in Leftover(t) <==> b in Leftover(t))
    ensures Replay(t.backends[a].log, init, apply) == Replay(t.backends[b].log, init, apply)
  {
    if a != b {
      SessionStatementsAgreeIff(s, es, t, a, b);
      ReaderDiversion(s, es, t, a);
      ReaderDiversion(s, es, t, b);
      ReaderReplay(s, es, t, a, init, apply);
      ReaderReplay(s, es, t, b, init, apply);
    }
  }

  lemma ReaderReplay<S(!new)>(s: Session, es: seq<Event>, t: Session, b: nat, init: S, apply: (S, Delivery) -> S)
    requires Run(s, es, t) && IsCandidate(t.backends, t.writer, b) && ReadsAreNeutral(t.requests, apply)
    ensures Replay(t.backends[b].log, init, apply) == Replay(SessionPart(t.backends[b].log), init, apply)
  {
    HistoryOf(s, es, t);
    var log := t.backends[b].log;
    forall i | 0 <= i < |log| && !log[i].stmt.traits.session ensures Neutral(log[i], apply) {
      ReaderEntry(t, b, i);
    }
    ReplaySessionPart(log, init, apply);
  }

  /** What a read backend logs without a session bit is a balanced request. */
  lemma ReaderEntry(t: Session, b: nat, i: nat)
    requires History(t) && IsCandidate(t.backends, t.writer, b)
    requires i < |t.backends[b].log| && !t.backends[b].log[i].stmt.traits.session
    ensures var d := t.backends[b].log[i];
      && d.id < |t.requests| && t.requests[d.id].kind == Balanced
      && d == Delivery(d.id, t.requests[d.id].stmt, Balanced)
  {
    var k := t.backends[b].log[i].id;
    ProjectEntry(Offered(t), b, i);
    if k < |t.requests| {
      assert WellPlaced(t.requests[k], t.writer, |t.backends|);
    }
  }

  // ---- Placement ----

  /** An entry of a projection is a request that was sent to the backend. */
  lemma {:induction false} ProjectEntry(requests: seq<Request>, b: nat, i: nat)
    requires i < |Project(requests, b)|
    ensures var d := Project(requests, b)[i];
      d.id < |requests| && b in requests[d.id].targets && d.stmt == requests[d.id].stmt && d.kind == requests[d.id].kind
  {
    var n := |requests| - 1;
    if i < |Project(requests[..n], b)| {
      ProjectEntry(requests[..n], b, i);
    }
  }

  /** A projection follows the order of the requests, so it holds none twice. */
  lemma {:induction false} ProjectOrder(requests: seq<Request>, b: nat, i: nat, j: nat)
    requires i < j < |Project(requests, b)|
    ensures Project(requests, b)[i].id < Project(requests, b)[j].id
  {
    var n := |requests| - 1;
    if j < |Project(requests[..n], b)| {
      ProjectOrder(requests[..n], b, i, j);
    } else {
      ProjectEntry(requests[..n], b, i);
    }
  }

  /** A projection misses no request that was sent to the backend. */
  lemma {:induction false} ProjectComplete(requests: seq<Request>, b: nat, k: nat)
    requires k < |requests| && b in requests[k].targets
    ensures Delivery(k, requests[k].stmt, requests[k].kind) in Project(requests, b)
  {
    var n := |requests| - 1;
    if k < n {
      ProjectComplete(requests[..n], b, k);
    }
  }

  /** Where a request may be logged. */
  ghost predicate Belongs(r: Request, writer: Option<nat>, b: nat) {
    && (r.stmt.traits.write ==> writer == Some(b))
    && (r.kind == Balanced ==> writer != Some(b) && !r.stmt.traits.write)
    && (r.kind == Pinned ==> writer == Some(b))
  }

  lemma OfferedBelongs(t: Session, k: nat, b: nat)
    requires History(t) && k < |Offered(t)| && b in Offered(t)[k].targets
    ensures Belongs(Offered(t)[k], t.writer, b)
  {
    if k < |t.requests| {
      assert WellPlaced(t.requests[k], t.writer, |t.backends|);
    }
  }

  /** In every reachable state, ended sessions included: a statement with a write bit is only ever in the write
      backend's log, a balanced read never is, and a log holds no request twice. */
  lemma Placement(s: Session, es: seq<Event>, t: Session, b: nat)
    requires Run(s, es, t) && b < |t.backends|
    ensures var log := t.backends[b].log;
      && (forall i :: 0 <= i < |log| ==>
            && (log[i].stmt.traits.write ==> t.writer == Some(b))
            && (log[i].kind == Balanced ==> t.writer != Some(b) && !log[i].stmt.traits.write)
            && (log[i].kind == Pinned ==> t.writer == Some(b)))
      && (forall i, j :: 0 <= i < j < |log| ==> log[i].id < log[j].id)
  {
    HistoryOf(s, es, t);
    var log := t.backends[b].log;
    forall i | 0 <= i < |log|
      ensures log[i].stmt.traits.write ==> t.writer == Some(b)
      ensures log[i].kind == Balanced ==> t.writer != Some(b) && !log[i].stmt.traits.write
      ensures log[i].kind == Pinned ==> t.writer == Some(b)
    {
      ProjectEntry(Offered(t), b, i);
      OfferedBelongs(t, log[i].id, b);
    }
    forall i, j | 0 <= i < j < |log| ensures log[i].id < log[j].id {
      ProjectOrder(Offered(t), b, i, j);
    }
  }

  /** An accepted statement that was not broadcast is in exactly one backend's log. */
  lemma SingleRoutingIsUnique(s: Session, es: seq<Event>, t: Session, k: nat)
    requires Run(s, es, t)
    requires k < |t.requests| && t.requests[k].kind != Broadcast
    ensures exists b ::
      && 0 <= b < |t.backends|
      && Logged(t.backends[b].log, k)
      && (forall c :: 0 <= c < |t.backends| && Logged(t.backends[c].log, k) ==> c == b)
  {
    HistoryOf(s, es, t);
    var rs, r := Offered(t), t.requests[k];
    assert rs[k] == r && WellPlaced(r, t.writer, |t.backends|);
    var b :| r.targets == {b} && 0 <= b < |t.backends|;
    ProjectComplete(rs, b, k);
    var d := Delivery(k, r.stmt, r.kind);
    var j :| 0 <= j < |t.backends[b].log| && t.backends[b].log[j] == d;
    assert Logged(t.backends[b].log, k);
    forall c | 0 <= c < |t.backends| && Logged(t.backends[c].log, k) ensures c == b {
      var i :| 0 <= i < |t.backends[c].log| && t.backends[c].log[i].id == k;
      ProjectEntry(rs, c, i);
    }
  }

  /** The log holds request `k`. */
  ghost predicate Logged(log: seq<Delivery>, k: nat) {
    exists i :: 0 <= i < |log| && log[i].id == k
  }

  function LogLength(b: Backend): int { |b.log| }

  function FanOut(r: Request): int { |r.targets| }

  function ProjectedLengths(requests: seq<Request>, n: nat): int {
    if n == 0 then 0 else ProjectedLengths(requests, n - 1) + |Project(requests, n - 1)|
  }

  function Below(targets: set<nat>, n: nat): set<nat> {
    set b | b in targets && b < n
  }

  lemma BelowSucc(targets: set<nat>, n: nat)
    ensures Below(targets, n + 1) == Below(targets, n) + (if n in targets then {n} else {})
    ensures n !in Below(targets, n)
  {
  }

  lemma {:induction false} MembersBelow(requests: seq<Request>, r: Request, n: nat)
    ensures ProjectedLengths(requests + [r], n) == ProjectedLengths(requests, n) + |Below(r.targets, n)|
  {
    if n > 0 {
      MembersBelow(requests, r, n - 1);
      ProjectSnoc(requests, r, n - 1);
      BelowSucc(r.targets, n - 1);
    }
  }

  lemma {:induction false} LengthsAreFanOuts(requests: seq<Request>, n: nat)
    requires forall k :: 0 <= k < |requests| ==> forall b :: b in requests[k].targets ==> b < n
    ensures ProjectedLengths(requests, n) == Sum(requests, FanOut)
  {
    if requests == [] {
      NoLengths(n);
    } else {
      var k := |requests| - 1;
      LengthsAreFanOuts(requests[..k], n);
      MembersBelow(requests[..k], requests[k], n);
      assert requests[..k] + [requests[k]] == requests;
      assert Below(requests[k].targets, n) == requests[k].targets;
    }
  }

  lemma {:induction false} NoLengths(n: nat)
    ensures ProjectedLengths([], n) == 0
  {
    if n > 0 {
      NoLengths(n - 1);
    }
  }

  lemma {:induction false} SumOfLogs(bs: seq<Backend>, requests: seq<Request>)
    requires forall b :: 0 <= b < |bs| ==> bs[b].log == Project(requests, b)
    ensures Sum(bs, LogLength) == ProjectedLengths(requests, |bs|)
  {
    if bs != [] {
      SumOfLogs(bs[..|bs| - 1], requests);
    }
  }

  /** In every reachable state the log lengths add up to one per single routing, one per target of each broadcast, and
      one per backend that took the refused statement. */
  lemma LogLengthsSum(s: Session, es: seq<Event>, t: Session)
    requires Run(s, es, t)
    ensures Sum(t.backends, LogLength) == Sum(t.requests, FanOut) + |Leftover(t)|
    ensures forall k :: 0 <= k < |t.requests| && t.requests[k].kind != Broadcast ==>
              FanOut(t.requests[k]) == 1
  {
    HistoryOf(s, es, t);
    var rs := Offered(t);
    SumOfLogs(t.backends, rs);
    forall k | 0 <= k < |rs|
      ensures forall b :: b in rs[k].targets ==> b < |t.backends|
      ensures k < |t.requests| && rs[k].kind != Broadcast ==> FanOut(rs[k]) == 1
    {
      if k < |t.requests| {
        assert WellPlaced(t.requests[k], t.writer, |t.backends|);
      }
    }
    LengthsAreFanOuts(rs, |t.backends|);
    if t.refused.Some? {
      SumAppend(t.requests, t.refused.value, FanOut);
    } else {
      assert rs == t.requests;
    }
    forall k | 0 <= k < |t.requests| && t.requests[k].kind != Broadcast ensures FanOut(t.requests[k]) == 1 {
      assert rs[k] == t.requests[k];
    }
  }

  // ---- Transactions ----

  /** A statement without write bits that begins a transaction and does not end it. */
  predicate Opens(stmt: Statement) { !stmt.traits.write && stmt.traits.begin && !stmt.traits.end }

  predicate Closes(stmt: Statement) { !stmt.traits.write && stmt.traits.end }

  /** Some statement opened a transaction and nothing after it closed it. */
  ghost predicate TransactionOpen(seen: seq<Statement>) {
    exists i :: 0 <= i < |seen| && Opens(seen[i]) && forall j :: i < j < |seen| ==> !Closes(seen[j])
  }

  lemma TransactionSnoc(seen: seq<Statement>, stmt: Statement)
    ensures TransactionOpen(seen + [stmt]) <==> TransactionAfter(stmt.traits, TransactionOpen(seen))
  {
    var more := seen + [stmt];
    if TransactionOpen(more) {
      var i :| 0 <= i < |more| && Opens(more[i]) && forall j :: i < j < |more| ==> !Closes(more[j]);
      if i < |seen| {
        assert Opens(seen[i]) && !Closes(more[|seen|]);
        assert forall j :: i < j < |seen| ==> seen[j] == more[j];
        assert TransactionOpen(seen);
      }
    }
    if TransactionAfter(stmt.traits, TransactionOpen(seen)) {
      if TransactionOpen(seen) {
        var i :| 0 <= i < |seen| && Opens(seen[i]) && forall j :: i < j < |seen| ==> !Closes(seen[j]);
        assert Opens(more[i]) && forall j :: i < j < |more| ==> !Closes(more[j]);
      } else {
        assert Opens(more[|seen|]);
      }
    }
  }

  /** Statement `k` falls in a transaction, or begins one. */
  ghost predicate InTransaction(seen: seq<Statement>, k: nat) {
    k < |seen| && (TransactionOpen(seen[..k]) || seen[k].traits.begin)
  }

  lemma InTransactionStable(seen: seq<Statement>, stmt: Statement, k: nat)
    requires k < |seen|
    ensures InTransaction(seen + [stmt], k) <==> InTransaction(seen, k)
  {
    assert (seen + [stmt])[..k] == seen[..k];
  }

  /** What the router makes of statement `k`, by what the client has sent. */
  ghost function KindOf(seen: seq<Statement>, k: nat, hasWriter: bool): Kind
    requires k < |seen|
  {
    if seen[k].traits.write || (hasWriter && InTransaction(seen, k)) then Pinned
    else if seen[k].traits.read then Balanced
    else Broadcast
  }

  /** The flag is the history's, and whatever reached a backend was routed as the history says. */
  ghost predicate Kinds(s: Session) {
    && (s.onTransaction <==> TransactionOpen(s.seen))
    && (s.live ==> s.refused == None)
    && |Offered(s)| == |s.seen|
    && forall k :: 0 <= k < |s.seen| && Offered(s)[k].targets != {} ==>
         Offered(s)[k].kind == KindOf(s.seen, k, s.writer.Some?)
  }

  lemma KindsStep(s: Session, e: Event)
    requires Kinds(s)
    ensures Kinds(Step(s, e))
  {
    if Enabled(s, e) {
      if e.Route? {
        KindsRoute(s, e.stmt, e.accept);
      } else {
        assert Offered(Step(s, e)) == Offered(s);
      }
    }
  }

  lemma AttemptKind(s: Session, stmt: Statement, accept: set<nat>)
    requires s.onTransaction <==> TransactionOpen(s.seen)
    ensures var r := Attempt(s, stmt, accept);
      r.targets != {} ==> r.kind == KindOf(s.seen + [stmt], |s.seen|, s.writer.Some?)
  {
    assert (s.seen + [stmt])[..|s.seen|] == s.seen;
  }

  lemma KindsRoute(s: Session, stmt: Statement, accept: set<nat>)
    requires Kinds(s) && s.live
    ensures Kinds(RouteStep(s, stmt, accept))
  {
    TransactionSnoc(s.seen, stmt);
    RouteReceives(s, stmt, accept);
    RouteFlags(s, stmt, accept);
    AttemptKind(s, stmt, accept);
    KindsGrow(s, RouteStep(s, stmt, accept), Attempt(s, stmt, accept));
  }

  lemma RouteFlags(s: Session, stmt: Statement, accept: set<nat>)
    ensures var t := RouteStep(s, stmt, accept);
      t.onTransaction == TransactionAfter(stmt.traits, s.onTransaction) && (t.live ==> t.refused == s.refused)
  {
  }

  lemma KindsGrow(s: Session, t: Session, r: Request)
    requires Kinds(s) && s.live && Received(s, t, r) && (t.live ==> t.refused == None)
    requires t.onTransaction <==> TransactionOpen(t.seen)
    requires r.targets != {} ==> r.kind == KindOf(t.seen, |s.seen|, s.writer.Some?)
    ensures Kinds(t)
  {
    assert Offered(s) == s.requests && Offered(t) == s.requests + [r];
    forall k | 0 <= k < |t.seen| && Offered(t)[k].targets != {}
      ensures Offered(t)[k].kind == KindOf(t.seen, k, t.writer.Some?)
    {
      if k < |s.seen| {
        InTransactionStable(s.seen, r.stmt, k);
        assert Offered(t)[k] == Offered(s)[k];
      }
    }
  }

  lemma {:induction false} KindsRun(s: Session, es: seq<Event>)
    requires Kinds(s)
    ensures Kinds(Exec(s, es))
    decreases |es|
  {
    if es != [] {
      KindsStep(s, es[0]);
      KindsRun(Step(s, es[0]), es[1..]);
    }
  }

  /** In every run, how each accepted statement was routed follows from what the client had sent up to it: pinned with
      a write bit or, given a write backend, in a transaction; otherwise balanced with a read bit; otherwise
      broadcast. */
  lemma KindsFollowHistory(s: Session, es: seq<Event>, t: Session, k: nat)
    requires Run(s, es, t) && k < |t.requests|
    ensures k < |t.seen| && t.requests[k].stmt == t.seen[k]
    ensures t.requests[k].kind == KindOf(t.seen, k, t.writer.Some?)
  {
    HistoryOf(s, es, t);
    KindsRun(s, es);
    assert Offered(t)[k] == t.requests[k] && WellPlaced(t.requests[k], t.writer, |t.backends|);
  }

  /** Statement `k` writes session state and, by what the client has sent, is routed as a balanced read. */
  ghost predicate SendsSessionRead(seen: seq<Statement>, k: nat, hasWriter: bool) {
    k < |seen| && seen[k].traits.session && KindOf(seen, k, hasWriter) == Balanced
  }

  /** The accepted session reads of the client are the session reads in the logs. */
  lemma SessionReadsInLogs(s: Session, es: seq<Event>, t: Session, b: nat)
    requires Run(s, es, t) && b < |t.backends|
    ensures SessionRead(t, b) <==>
            exists k :: 0 <= k < |t.requests| && SendsSessionRead(t.seen, k, t.writer.Some?)
                        && b in t.requests[k].targets
  {
    HistoryOf(s, es, t);
    var log := t.backends[b].log;
    if i :| 0 <= i < |log| && log[i].kind == Balanced && log[i].stmt.traits.session {
      ProjectEntry(Offered(t), b, i);
      KindsFollowHistory(s, es, t, log[i].id);
    }
    if k :| 0 <= k < |t.requests| && SendsSessionRead(t.seen, k, t.writer.Some?) && b in t.requests[k].targets {
      KindsFollowHistory(s, es, t, k);
      assert Offered(t)[k] == t.requests[k];
      ProjectComplete(Offered(t), b, k);
      var i :| 0 <= i < |log| && log[i] == Delivery(k, t.requests[k].stmt, t.requests[k].kind);
      assert SessionRead(t, b);
    }
  }

  /** An accepted session read has gone to one read backend. */
  lemma SessionReadTarget(s: Session, es: seq<Event>, t: Session, k: nat) returns (b: nat)
    requires Run(s, es, t) && k < |t.requests| && SendsSessionRead(t.seen, k, t.writer.Some?)
    ensures b < |t.backends| && t.writer != Some(b) && t.requests[k].targets == {b} && SessionRead(t, b)
  {
    HistoryOf(s, es, t);
    KindsFollowHistory(s, es, t, k);
    assert WellPlaced(t.requests[k], t.writer, |t.backends|);
    b :| t.requests[k].targets == {b} && b < |t.backends| && t.writer != Some(b);
    SessionReadsInLogs(s, es, t, b);
  }

  /** All or none of the read backends took the statement that was refused. */
  ghost predicate LeftoverUniform(t: Session) {
    forall a: nat, b: nat :: IsCandidate(t.backends, t.writer, a) && IsCandidate(t.backends, t.writer, b) ==>
      (a in Leftover(t) <==> b in Leftover(t))
  }

  /** Some accepted session read went to a backend that is still open. */
  ghost predicate KeptSessionRead(t: Session) {
    exists k, b :: 0 <= k < |t.requests| && SendsSessionRead(t.seen, k, t.writer.Some?)
      && 0 <= b < |t.backends| && b in t.requests[k].targets && t.backends[b].open
  }

  lemma KeptSessionReadIff(s: Session, es: seq<Event>, t: Session)
    requires Run(s, es, t)
    ensures KeptSessionRead(t) <==> exists c: nat :: IsCandidate(t.backends, t.writer, c) && SessionRead(t, c)
  {
    if k, b :| 0 <= k < |t.requests| && SendsSessionRead(t.seen, k, t.writer.Some?)
               && 0 <= b < |t.backends| && b in t.requests[k].targets && t.backends[b].open {
      var c := SessionReadTarget(s, es, t, k);
      assert c == b && IsCandidate(t.backends, t.writer, c);
    }
    if c: nat :| IsCandidate(t.backends, t.writer, c) && SessionRead(t, c) {
      SessionReadsInLogs(s, es, t, c);
      var k :| 0 <= k < |t.requests| && SendsSessionRead(t.seen, k, t.writer.Some?) && c in t.requests[k].targets;
      assert KeptSessionRead(t);
    }
  }

  /** No read backend that has received anything has closed. */
  ghost predicate UsedReadersOpen(t: Session) {
    forall c :: 0 <= c < |t.backends| && t.writer != Some(c) && t.backends[c].log != [] ==> t.backends[c].open
  }

  /** The same condition in terms of what the client sends: with two read backends open, all of them hold the same
      session statements exactly when no accepted session read went to a backend that is still open, and the refused
      statement was taken by all or none of them. While no read backend that has received anything has closed, that is
      when the client has sent no session read at all. */
  lemma ReadersAgreeIffNoSessionReads(s: Session, es: seq<Event>, t: Session, a: nat, b: nat)
    requires Run(s, es, t) && a != b
    requires IsCandidate(t.backends, t.writer, a) && IsCandidate(t.backends, t.writer, b)
    ensures ReadersAgree(t) <==> !KeptSessionRead(t) && LeftoverUniform(t)
    ensures UsedReadersOpen(t) ==>
              (ReadersAgree(t) <==>
               && (forall k :: 0 <= k < |t.requests| ==> !SendsSessionRead(t.seen, k, t.writer.Some?))
               && LeftoverUniform(t))
    ensures t.live ==> |t.requests| == |t.seen| && LeftoverUniform(t)
  {
    HistoryOf(s, es, t);
    ReadersAgreeIff(s, es, t, a, b);
    KeptSessionReadIff(s, es, t);
    if UsedReadersOpen(t) {
      forall k | 0 <= k < |t.requests| && SendsSessionRead(t.seen, k, t.writer.Some?) ensures KeptSessionRead(t) {
        var c := SessionReadTarget(s, es, t, k);
        assert t.backends[c].open && c in t.requests[k].targets;
      }
    }
  }

  /** In every run the transaction flag says that some statement opened a transaction that none has closed. */
  lemma TransactionFlagIsHistory(s: Session, es: seq<Event>, t: Session)
    requires Run(s, es, t)
    ensures t.onTransaction <==> TransactionOpen(t.seen)
  {
    KindsRun(s, es);
  }

  /** With a write backend, every statement from a begin up to and including the next end went to the write
      backend and to nothing else; a refused one went nowhere. */
  lemma TransactionIsPinned(s: Session, es: seq<Event>, t: Session, first: nat, k: nat)
    requires Run(s, es, t) && t.writer.Some?
    requires first <= k < |t.seen|
    requires !t.seen[first].traits.write && t.seen[first].traits.begin
    requires forall j :: first <= j < k ==> !Closes(t.seen[j])
    ensures k < |t.requests| ==> t.requests[k] == Request(t.seen[k], Pinned, {t.writer.value})
    ensures k < |t.requests| || (k == |t.requests| && t.refused.Some?)
    ensures forall b :: 0 <= b < |t.backends| && (b != t.writer.value || k == |t.requests|) ==>
              !Logged(t.backends[b].log, k)
  {
    HistoryOf(s, es, t);
    KindsRun(s, es);
    FromBeginOn(t.seen, first, k);
    var r := Offered(t)[k];
    assert r.targets != {} ==> r.kind == Pinned;
    if k < |t.requests| {
      assert WellPlaced(t.requests[k], t.writer, |t.backends|);
    }
    forall b | 0 <= b < |t.backends| && Logged(t.backends[b].log, k) ensures b == t.writer.value && k < |t.requests| {
      var i :| 0 <= i < |t.backends[b].log| && t.backends[b].log[i].id == k;
      ProjectEntry(Offered(t), b, i);
    }
  }

  lemma FromBeginOn(seen: seq<Statement>, first: nat, k: nat)
    requires first <= k < |seen| && !seen[first].traits.write && seen[first].traits.begin
    requires forall j :: first <= j < k ==> !Closes(seen[j])
    ensures InTransaction(seen, k)
  {
    if first < k {
      var before := seen[..k];
      assert Opens(before[first]) && forall j :: first < j < |before| ==> !Closes(before[j]);
      assert TransactionOpen(before);
    }
  }

  /** Routing inside a transaction leaves both counters and every other backend alone. */
  lemma PinnedStepFrame(s: Session, stmt: Statement, accept: set<nat>)
    requires s.writer.Some? && (stmt.traits.write || s.onTransaction || stmt.traits.begin)
    ensures var t := RouteStep(s, stmt, accept);
      && t.routeCount == s.routeCount && t.repliesToIgnore == s.repliesToIgnore
      && |t.backends| == |s.backends|
      && (forall b :: 0 <= b < |s.backends| && b != s.writer.value ==> t.backends[b] == s.backends[b])
  {
  }
}
