/** Many client connections through one counting filter and one round-robin router.

    Each connection is served by one thread at a time, but the threads of different connections interleave
    between any two accesses to the shared counters. */
module Service {
  import opened Collections
  import opened QueryTypes
  import opened RouterState
  import opened RouterInvariants

  /** How far the thread of a connection has got with a query or a reply. */
  datatype Phase =
    | Idle
    | QueryCounted            // the filter session counted the query
    | QuerySeen               // the filter was told of it
    | QueryRouted(ok: bool)   // the router session routed it, the router has not recorded it
    | ReplyForwarded          // the router session passed a reply up
    | ReplyCounted            // the filter session counted it
    | ReplySeen               // the filter was told of it, the router has not recorded it

  datatype Connection = Connection(session: Session, phase: Phase, queries: nat, replies: nat)

  /** The shared counters: the filter's are `atomic<int>` and wrap at 32 bits, the router's at 64. */
  datatype Service = Service(
    connections: seq<Connection>,
    globalCounts: bool,
    totalQueries: nat,
    totalReplies: nat,
    routingS: nat,
    routingF: nat,
    routingC: nat)

  datatype Move =
    | Connect(session: Session)
    | CountQuery(i: nat)
    | SeeQuery(i: nat)
    | RouteQuery(i: nat, stmt: Statement, accept: set<nat>)
    | RecordQuery(i: nat)
    | ReplyArrives(i: nat, backend: nat)
    | CountReply(i: nat)
    | SeeReply(i: nat)
    | RecordReply(i: nat)
    | BackendFails(i: nat, backend: nat)

  predicate In(v: Service, i: nat, phase: Phase) {
    i < |v.connections| && v.connections[i].phase == phase
  }

  predicate CanMove(v: Service, m: Move) {
    match m
    case Connect(session) => Initial(session)
    case CountQuery(i) => In(v, i, Idle) && v.connections[i].session.live
    case SeeQuery(i) => In(v, i, QueryCounted)
    case RouteQuery(i, _, _) => In(v, i, QuerySeen)
    case RecordQuery(i) => In(v, i, QueryRouted(true)) || In(v, i, QueryRouted(false))
    case ReplyArrives(i, b) => In(v, i, Idle) && v.connections[i].session.live && HasReply(v.connections[i].session, b)
    case CountReply(i) => In(v, i, ReplyForwarded)
    case SeeReply(i) => In(v, i, ReplyCounted)
    case RecordReply(i) => In(v, i, ReplySeen)
    case BackendFails(i, b) =>
      In(v, i, Idle) && v.connections[i].session.live && b < |v.connections[i].session.backends|
  }

  function Routed(c: Connection, stmt: Statement, accept: set<nat>): Connection {
    var t := RouteStep(c.session, stmt, accept);
    c.(session := t, phase := QueryRouted(|t.requests| > |c.session.requests|))
  }

  function Replied(c: Connection, b: nat): Connection
    requires HasReply(c.session, b)
  {
    var t := ReplyStep(c.session, b);
    c.(session := t, phase := if |t.forwarded| > |c.session.forwarded| then ReplyForwarded else Idle)
  }

  /** What the move does to its connection. */
  function Moved(v: Service, m: Move): Connection
    requires CanMove(v, m) && !m.Connect?
  {
    var c := v.connections[m.i];
    match m
    case CountQuery(_) => c.(queries := c.queries + 1, phase := QueryCounted)
    case SeeQuery(_) => c.(phase := QuerySeen)
    case RouteQuery(_, stmt, accept) => Routed(c, stmt, accept)
    case RecordQuery(_) => c.(phase := Idle)
    case ReplyArrives(_, b) => Replied(c, b)
    case CountReply(_) => c.(replies := c.replies + 1, phase := ReplyCounted)
    case SeeReply(_) => c.(phase := ReplySeen)
    case RecordReply(_) => c.(phase := Idle)
    case BackendFails(_, b) => c.(session := ErrorStep(c.session, b))
  }

  function Is(b: bool): int { if b then 1 else 0 }

  /** A counter of the given range, incremented or not. */
  function Bump(n: nat, yes: bool, range: nat): nat
    requires range > 0
  {
    if yes then (n + 1) % range else n
  }

  function Next(v: Service, m: Move): Service {
    if !CanMove(v, m) then v
    else if m.Connect? then v.(connections := v.connections + [Connection(m.session, Idle, 0, 0)])
    else
      var phase := v.connections[m.i].phase;
      Service(v.connections[m.i := Moved(v, m)],
              v.globalCounts,
              Bump(v.totalQueries, m.SeeQuery? && v.globalCounts, U32),
              Bump(v.totalReplies, m.SeeReply? && v.globalCounts, U32),
              Bump(v.routingS, m.RecordQuery? && phase == QueryRouted(true), U64),
              Bump(v.routingF, m.RecordQuery? && phase == QueryRouted(false), U64),
              Bump(v.routingC, m.RecordReply?, U64))
  }

  function Serve(v: Service, ms: seq<Move>): Service
    decreases |ms|
  {
    if ms == [] then v else Serve(Next(v, ms[0]), ms[1..])
  }

  predicate Fresh(v: Service) {
    v.connections == [] && v.totalQueries == v.totalReplies == v.routingS == v.routingF == v.routingC == 0
  }

  // ---- What each connection has contributed to each counter ----

  function QueriesOf(c: Connection): int { c.queries }
  function BetweenIncrements(c: Connection): int { Is(c.phase.QueryCounted?) }
  function RepliesOf(c: Connection): int { c.replies }
  function BetweenReplyIncrements(c: Connection): int { Is(c.phase.ReplyCounted?) }
  function QueriesSeen(c: Connection): int { c.queries - Is(c.phase.QueryCounted?) }
  function RepliesSeen(c: Connection): int { c.replies - Is(c.phase.ReplyCounted?) }
  function Calls(c: Connection): int { |c.session.seen| }
  function Accepted(c: Connection): int { |c.session.requests| - Is(c.phase == QueryRouted(true)) }
  function Refused(c: Connection): int { |c.session.seen| - |c.session.requests| - Is(c.phase == QueryRouted(false)) }
  function Answered(c: Connection): int { |c.session.forwarded| - Is(Answering(c.phase)) }

  predicate Answering(p: Phase) { p.ReplyForwarded? || p.ReplyCounted? || p.ReplySeen? }

  ghost predicate Tallied(v: Service) {
    && v.totalQueries == (if v.globalCounts then Sum(v.connections, QueriesSeen) % U32 else 0)
    && v.totalReplies == (if v.globalCounts then Sum(v.connections, RepliesSeen) % U32 else 0)
    && v.routingS == Sum(v.connections, Accepted) % U64
    && v.routingF == Sum(v.connections, Refused) % U64
    && v.routingC == Sum(v.connections, Answered) % U64
  }

  /** A connection's own counters follow its session. */
  ghost predicate InStep(c: Connection) {
    && Shape(c.session)
    && c.queries == |c.session.seen| + Is(c.phase.QueryCounted? || c.phase.QuerySeen?)
    && c.replies == |c.session.forwarded| - Is(c.phase.ReplyForwarded?)
    && (c.phase.QueryCounted? || c.phase.QuerySeen? ==> c.session.live)
    && |c.session.requests| <= |c.session.seen|
    && (Answering(c.phase) ==> |c.session.forwarded| > 0)
    && (c.phase.QueryRouted? && !c.phase.ok ==> |c.session.requests| < |c.session.seen|)
    && (!c.session.overflowed ==>
          Books(c.session) && |c.session.forwarded| <= |c.session.requests| - Is(c.phase == QueryRouted(true)))
  }

  ghost predicate Orderly(v: Service) {
    Tallied(v) && forall i :: 0 <= i < |v.connections| ==> InStep(v.connections[i])
  }

  lemma RouteCounts(s: Session, stmt: Statement, accept: set<nat>)
    ensures var t := RouteStep(s, stmt, accept);
      && |t.seen| == |s.seen| + 1 && t.forwarded == s.forwarded
      && |s.requests| <= |t.requests| <= |s.requests| + 1
  {
  }

  lemma InStepRouted(c: Connection, stmt: Statement, accept: set<nat>)
    requires InStep(c) && c.phase.QuerySeen?
    ensures InStep(Routed(c, stmt, accept))
  {
    RouteCounts(c.session, stmt, accept);
    ShapeRoute(c.session, stmt, accept);
    if !RouteStep(c.session, stmt, accept).overflowed {
      BooksStep(c.session, Route(stmt, accept));
    }
  }

  lemma InStepReplied(c: Connection, b: nat)
    requires InStep(c) && c.phase.Idle? && c.session.live && HasReply(c.session, b)
    ensures InStep(Replied(c, b))
  {
    ShapeStep(c.session, Reply(b));
    if !c.session.overflowed {
      BooksStep(c.session, Reply(b));
    }
  }

  lemma InStepFailed(c: Connection, b: nat)
    requires InStep(c) && c.phase.Idle? && c.session.live && b < |c.session.backends|
    ensures InStep(c.(session := ErrorStep(c.session, b)))
  {
    ShapeStep(c.session, Error(b));
    if !c.session.overflowed {
      BooksStep(c.session, Error(b));
    }
  }

  lemma InStepMoved(v: Service, m: Move)
    requires CanMove(v, m) && !m.Connect? && InStep(v.connections[m.i])
    ensures InStep(Moved(v, m))
  {
    var c := v.connections[m.i];
    match m {
      case RouteQuery(_, stmt, accept) => InStepRouted(c, stmt, accept);
      case ReplyArrives(_, b) => InStepReplied(c, b);
      case BackendFails(_, b) => InStepFailed(c, b);
      case _ =>
    }
  }

  /** Only the recording moves change what a connection has contributed, each to one counter. */
  lemma Contributions(v: Service, m: Move)
    requires CanMove(v, m) && !m.Connect? && InStep(v.connections[m.i])
    ensures var c, d := v.connections[m.i], Moved(v, m);
      && QueriesSeen(d) == QueriesSeen(c) + Is(m.SeeQuery?)
      && RepliesSeen(d) == RepliesSeen(c) + Is(m.SeeReply?)
      && Accepted(d) == Accepted(c) + Is(m.RecordQuery? && c.phase == QueryRouted(true))
      && Refused(d) == Refused(c) + Is(m.RecordQuery? && c.phase == QueryRouted(false))
      && Answered(d) == Answered(c) + Is(m.RecordReply?)
  {
    match m {
      case RouteQuery(_, stmt, accept) => RouteCounts(v.connections[m.i].session, stmt, accept);
      case _ =>
    }
  }

  /** A counter that counts a sum keeps counting it when it moves with one term. */
  lemma BumpTally(cs: seq<Connection>, i: nat, d: Connection, f: Connection -> int, n: nat, yes: bool, range: nat)
    requires i < |cs| && (range == U32 || range == U64)
    requires n == Sum(cs, f) % range && f(d) == f(cs[i]) + Is(yes)
    ensures Bump(n, yes, range) == Sum(cs[i := d], f) % range
  {
    var before, after := Sum(cs, f), Sum(cs[i := d], f);
    assert after == before + Is(yes) by {
      SumUpdate(cs, i, d, f);
    }
    if yes {
      if range == U32 {
        Increment32(before);
      } else {
        Increment64(before);
      }
    }
  }

  lemma Increment32(x: int)
    ensures (x % U32 + 1) % U32 == (x + 1) % U32
  {
  }

  lemma Increment64(x: int)
    ensures (x % U64 + 1) % U64 == (x + 1) % U64
  {
  }

  lemma TalliedMove(v: Service, m: Move)
    requires Tallied(v) && CanMove(v, m) && !m.Connect? && InStep(v.connections[m.i])
    ensures Tallied(Next(v, m))
  {
    Contributions(v, m);
    var cs, d, phase := v.connections, Moved(v, m), v.connections[m.i].phase;
    if v.globalCounts {
      BumpTally(cs, m.i, d, QueriesSeen, v.totalQueries, m.SeeQuery?, U32);
      BumpTally(cs, m.i, d, RepliesSeen, v.totalReplies, m.SeeReply?, U32);
    }
    BumpTally(cs, m.i, d, Accepted, v.routingS, m.RecordQuery? && phase == QueryRouted(true), U64);
    BumpTally(cs, m.i, d, Refused, v.routingF, m.RecordQuery? && phase == QueryRouted(false), U64);
    BumpTally(cs, m.i, d, Answered, v.routingC, m.RecordReply?, U64);
  }

  lemma TalliedConnect(v: Service, s: Session)
    requires Tallied(v) && Initial(s)
    ensures Tallied(Next(v, Connect(s)))
  {
    var c := Connection(s, Idle, 0, 0);
    SumAppend(v.connections, c, QueriesSeen);
    SumAppend(v.connections, c, RepliesSeen);
    SumAppend(v.connections, c, Accepted);
    SumAppend(v.connections, c, Refused);
    SumAppend(v.connections, c, Answered);
  }

  lemma OrderlyConnect(v: Service, s: Session)
    requires Orderly(v) && Initial(s)
    ensures Orderly(Next(v, Connect(s)))
  {
    InitialBooks(s);
    TalliedConnect(v, s);
  }

  lemma OrderlyMove(v: Service, m: Move)
    requires Orderly(v) && CanMove(v, m) && !m.Connect?
    ensures Orderly(Next(v, m))
  {
    InStepMoved(v, m);
    TalliedMove(v, m);
    assert Next(v, m).connections == v.connections[m.i := Moved(v, m)];
  }

  lemma OrderlyNext(v: Service, m: Move)
    requires Orderly(v)
    ensures Orderly(Next(v, m))
  {
    if CanMove(v, m) {
      if m.Connect? {
        OrderlyConnect(v, m.session);
      } else {
        OrderlyMove(v, m);
      }
    }
  }

  lemma {:induction false} OrderlyServe(v: Service, ms: seq<Move>)
    requires Orderly(v)
    ensures Orderly(Serve(v, ms)) && Serve(v, ms).globalCounts == v.globalCounts
    decreases |ms|
  {
    if ms != [] {
      OrderlyNext(v, ms[0]);
      OrderlyServe(Next(v, ms[0]), ms[1..]);
    }
  }

  /** For every interleaving: the filter's totals are the sums of the sessions' counts less the sessions that are
      between their two increments, and stay at zero if the filter is not to count. */
  lemma FilterTotals(v: Service, ms: seq<Move>, w: Service)
    requires Fresh(v) && w == Serve(v, ms)
    ensures w.globalCounts ==>
              w.totalQueries == (Sum(w.connections, QueriesOf) - Sum(w.connections, BetweenIncrements)) % U32
    ensures w.globalCounts ==>
              w.totalReplies == (Sum(w.connections, RepliesOf) - Sum(w.connections, BetweenReplyIncrements)) % U32
    ensures !w.globalCounts ==> w.totalQueries == 0 && w.totalReplies == 0
  {
    Totals(v, ms);
    SeenSums(w.connections);
    SeenReplySums(w.connections);
  }

  lemma Totals(v: Service, ms: seq<Move>)
    requires Fresh(v)
    ensures var w := Serve(v, ms);
      && w.totalQueries == (if w.globalCounts then Sum(w.connections, QueriesSeen) % U32 else 0)
      && w.totalReplies == (if w.globalCounts then Sum(w.connections, RepliesSeen) % U32 else 0)
  {
    OrderlyServe(v, ms);
  }

  lemma SeenSums(cs: seq<Connection>)
    ensures Sum(cs, QueriesSeen) % U32 == (Sum(cs, QueriesOf) - Sum(cs, BetweenIncrements)) % U32
  {
    SumOfSums(cs, QueriesSeen, BetweenIncrements, QueriesOf);
  }

  lemma SeenReplySums(cs: seq<Connection>)
    ensures Sum(cs, RepliesSeen) % U32 == (Sum(cs, RepliesOf) - Sum(cs, BetweenReplyIncrements)) % U32
  {
    SumOfSums(cs, RepliesSeen, BetweenReplyIncrements, RepliesOf);
  }

  // ---- One query or reply without interruption ----

  /** The service with another connection number `i`. */
  function With(v: Service, i: nat, c: Connection): Service
    requires i < |v.connections|
  {
    v.(connections := v.connections[i := c])
  }

  lemma StepCountQuery(v: Service, i: nat)
    requires In(v, i, Idle) && v.connections[i].session.live
    ensures var c := v.connections[i];
      Next(v, CountQuery(i)) == With(v, i, c.(queries := c.queries + 1, phase := QueryCounted))
  {
  }

  lemma StepSeeQuery(v: Service, i: nat)
    requires In(v, i, QueryCounted)
    ensures Next(v, SeeQuery(i))
         == With(v, i, v.connections[i].(phase := QuerySeen))
            .(totalQueries := if v.globalCounts then (v.totalQueries + 1) % U32 else v.totalQueries)
  {
  }

  lemma StepRouteQuery(v: Service, i: nat, stmt: Statement, accept: set<nat>)
    requires In(v, i, QuerySeen)
    ensures var c := v.connections[i];
      var t := RouteStep(c.session, stmt, accept);
      Next(v, RouteQuery(i, stmt, accept))
      == With(v, i, c.(session := t, phase := QueryRouted(|t.requests| > |c.session.requests|)))
  {
  }

  lemma StepRecordQuery(v: Service, i: nat, ok: bool)
    requires In(v, i, QueryRouted(ok))
    ensures Next(v, RecordQuery(i))
         == With(v, i, v.connections[i].(phase := Idle))
            .(routingS := if ok then (v.routingS + 1) % U64 else v.routingS,
              routingF := if ok then v.routingF else (v.routingF + 1) % U64)
  {
  }

  lemma StepReplyArrives(v: Service, i: nat, b: nat)
    requires In(v, i, Idle) && v.connections[i].session.live && HasReply(v.connections[i].session, b)
    ensures var c := v.connections[i];
      Next(v, ReplyArrives(i, b))
      == With(v, i, c.(session := ReplyStep(c.session, b),
                       phase := if c.session.repliesToIgnore == 0 then ReplyForwarded else Idle))
  {
  }

  lemma StepCountReply(v: Service, i: nat)
    requires In(v, i, ReplyForwarded)
    ensures var c := v.connections[i];
      Next(v, CountReply(i)) == With(v, i, c.(replies := c.replies + 1, phase := ReplyCounted))
  {
  }

  lemma StepSeeReply(v: Service, i: nat)
    requires In(v, i, ReplyCounted)
    ensures Next(v, SeeReply(i))
         == With(v, i, v.connections[i].(phase := ReplySeen))
            .(totalReplies := if v.globalCounts then (v.totalReplies + 1) % U32 else v.totalReplies)
  {
  }

  lemma StepRecordReply(v: Service, i: nat)
    requires In(v, i, ReplySeen)
    ensures Next(v, RecordReply(i))
         == With(v, i, v.connections[i].(phase := Idle)).(routingC := (v.routingC + 1) % U64)
  {
  }

  /** A session that starts, and a backend that fails, concern no counter. */
  lemma OtherMoves(v: Service, s: Session, i: nat, b: nat)
    ensures Initial(s) ==> Next(v, Connect(s)) == v.(connections := v.connections + [Connection(s, Idle, 0, 0)])
    ensures In(v, i, Idle) && v.connections[i].session.live && b < |v.connections[i].session.backends| ==>
              Next(v, BackendFails(i, b))
              == With(v, i, v.connections[i].(session := ErrorStep(v.connections[i].session, b)))
  {
  }

  function QuerySteps(i: nat, stmt: Statement, accept: set<nat>): seq<Move> {
    [CountQuery(i), SeeQuery(i), RouteQuery(i, stmt, accept), RecordQuery(i)]
  }

  lemma ServeFour(v: Service, ms: seq<Move>)
    requires |ms| == 4
    ensures Serve(v, ms) == Next(Next(Next(Next(v, ms[0]), ms[1]), ms[2]), ms[3])
  {
    var a := Next(v, ms[0]);
    var b := Next(a, ms[1]);
    var c := Next(b, ms[2]);
    assert Serve(v, ms) == Serve(a, ms[1..]) == Serve(b, ms[1..][1..]) == Serve(c, ms[1..][1..][1..]);
    assert ms[1..][1..][1..] == [ms[3]];
    assert Serve(c, [ms[3]]) == Serve(Next(c, ms[3]), [ms[3]][1..]);
  }

  /** The service once a query of connection `i` has been counted, routed and recorded. */
  function QueryServed(v: Service, i: nat, stmt: Statement, accept: set<nat>): Service
    requires i < |v.connections|
  {
    var c := v.connections[i];
    var t := RouteStep(c.session, stmt, accept);
    var ok := |t.requests| > |c.session.requests|;
    v.(connections := v.connections[i := Connection(t, Idle, c.queries + 1, c.replies)],
       totalQueries := if v.globalCounts then (v.totalQueries + 1) % U32 else v.totalQueries,
       routingS := if ok then (v.routingS + 1) % U64 else v.routingS,
       routingF := if ok then v.routingF else (v.routingF + 1) % U64)
  }

  /** A query of an idle connection goes through filter and router: the session takes its step, the filter has counted
      one query and the router one routed or one failed, and the connection is idle again. */
  lemma QueryGoesThrough(v: Service, i: nat, stmt: Statement, accept: set<nat>)
    requires In(v, i, Idle) && v.connections[i].session.live
    ensures Serve(v, QuerySteps(i, stmt, accept)) == QueryServed(v, i, stmt, accept)
  {
    ServeFour(v, QuerySteps(i, stmt, accept));
    QueryCountedBoth(v, i);
    var mid := Next(Next(v, CountQuery(i)), SeeQuery(i));
    QueryRoutedAndRecorded(mid, i, stmt, accept);
    TwoHalves(v, i, mid, Next(Next(mid, RouteQuery(i, stmt, accept)), RecordQuery(i)), stmt, accept);
  }

  /** Counting in the filter, then routing and recording. */
  lemma TwoHalves(v: Service, i: nat, mid: Service, w: Service, stmt: Statement, accept: set<nat>)
    requires i < |v.connections|
    requires var c := v.connections[i];
      mid == With(v, i, c.(queries := c.queries + 1, phase := QuerySeen))
             .(totalQueries := if v.globalCounts then (v.totalQueries + 1) % U32 else v.totalQueries)
    requires var c := mid.connections[i];
      var t := RouteStep(c.session, stmt, accept);
      var ok := |t.requests| > |c.session.requests|;
      w == With(mid, i, c.(session := t, phase := Idle))
           .(routingS := if ok then (mid.routingS + 1) % U64 else mid.routingS,
             routingF := if ok then mid.routingF else (mid.routingF + 1) % U64)
    ensures w == QueryServed(v, i, stmt, accept)
  {
    assert w.connections == QueryServed(v, i, stmt, accept).connections;
  }

  lemma QueryCountedBoth(v: Service, i: nat)
    requires In(v, i, Idle) && v.connections[i].session.live
    ensures var c := v.connections[i];
      Next(Next(v, CountQuery(i)), SeeQuery(i))
      == With(v, i, c.(queries := c.queries + 1, phase := QuerySeen))
         .(totalQueries := if v.globalCounts then (v.totalQueries + 1) % U32 else v.totalQueries)
  {
    var c := v.connections[i];
    var d := c.(queries := c.queries + 1, phase := QueryCounted);
    StepCountQuery(v, i);
    StepSeeQuery(With(v, i, d), i);
    WithTwice(v, i, d, d.(phase := QuerySeen));
  }

  lemma QueryRoutedAndRecorded(v: Service, i: nat, stmt: Statement, accept: set<nat>)
    requires In(v, i, QuerySeen)
    ensures var c := v.connections[i];
      var t := RouteStep(c.session, stmt, accept);
      var ok := |t.requests| > |c.session.requests|;
      Next(Next(v, RouteQuery(i, stmt, accept)), RecordQuery(i))
      == With(v, i, c.(session := t, phase := Idle))
         .(routingS := if ok then (v.routingS + 1) % U64 else v.routingS,
           routingF := if ok then v.routingF else (v.routingF + 1) % U64)
  {
    var c := v.connections[i];
    var t := RouteStep(c.session, stmt, accept);
    var ok := |t.requests| > |c.session.requests|;
    var d := c.(session := t, phase := QueryRouted(ok));
    StepRouteQuery(v, i, stmt, accept);
    StepRecordQuery(With(v, i, d), i, ok);
    WithTwice(v, i, d, d.(phase := Idle));
  }

  function ReplySteps(i: nat, b: nat): seq<Move> {
    [ReplyArrives(i, b), CountReply(i), SeeReply(i), RecordReply(i)]
  }

  /** A reply to an idle connection goes through router and filter: one that is forwarded is counted by both, one that
      is ignored by neither, and the connection is idle again. */
  lemma ReplyGoesThrough(v: Service, i: nat, b: nat)
    requires In(v, i, Idle) && v.connections[i].session.live && HasReply(v.connections[i].session, b)
    ensures var c := v.connections[i];
      var t := ReplyStep(c.session, b);
      var forwarded := c.session.repliesToIgnore == 0;
      Serve(v, ReplySteps(i, b))
      == v.(connections := v.connections[i := Connection(t, Idle, c.queries, c.replies + Is(forwarded))],
            totalReplies := if forwarded && v.globalCounts then (v.totalReplies + 1) % U32 else v.totalReplies,
            routingC := if forwarded then (v.routingC + 1) % U64 else v.routingC)
  {
    ServeFour(v, ReplySteps(i, b));
    StepReplyArrives(v, i, b);
    if v.connections[i].session.repliesToIgnore == 0 {
      ForwardedReply(v, i, b);
    } else {
      NothingToDo(Next(v, ReplyArrives(i, b)), i);
    }
  }

  lemma ForwardedReply(v: Service, i: nat, b: nat)
    requires In(v, i, Idle) && v.connections[i].session.live && HasReply(v.connections[i].session, b)
    requires v.connections[i].session.repliesToIgnore == 0
    ensures var c := v.connections[i];
      Next(Next(Next(Next(v, ReplyArrives(i, b)), CountReply(i)), SeeReply(i)), RecordReply(i))
      == With(v, i, Connection(ReplyStep(c.session, b), Idle, c.queries, c.replies + 1))
         .(totalReplies := if v.globalCounts then (v.totalReplies + 1) % U32 else v.totalReplies,
           routingC := (v.routingC + 1) % U64)
  {
    var c := v.connections[i];
    var d := c.(session := ReplyStep(c.session, b), phase := ReplyForwarded);
    StepReplyArrives(v, i, b);
    ForwardedGoesUp(With(v, i, d), i);
    WithTwice(v, i, d, Connection(d.session, Idle, c.queries, c.replies + 1));
  }

  lemma WithTwice(v: Service, i: nat, c: Connection, d: Connection)
    requires i < |v.connections|
    ensures With(With(v, i, c), i, d) == With(v, i, d)
  {
    assert v.connections[i := c][i := d] == v.connections[i := d];
  }

  lemma ForwardedGoesUp(v: Service, i: nat)
    requires In(v, i, ReplyForwarded)
    ensures var c := v.connections[i];
      Next(Next(Next(v, CountReply(i)), SeeReply(i)), RecordReply(i))
      == With(v, i, c.(replies := c.replies + 1, phase := Idle))
         .(totalReplies := if v.globalCounts then (v.totalReplies + 1) % U32 else v.totalReplies,
           routingC := (v.routingC + 1) % U64)
  {
    var c := v.connections[i];
    StepCountReply(v, i);
    var v1 := Next(v, CountReply(i));
    StepSeeReply(v1, i);
    var v2 := Next(v1, SeeReply(i));
    StepRecordReply(v2, i);
    assert Next(v2, RecordReply(i)).connections == v.connections[i := c.(replies := c.replies + 1, phase := Idle)];
  }

  lemma NothingToDo(v: Service, i: nat)
    requires In(v, i, Idle)
    ensures Next(v, CountReply(i)) == Next(v, SeeReply(i)) == Next(v, RecordReply(i)) == v
  {
  }

  ghost predicate AtRest(w: Service) {
    forall i :: 0 <= i < |w.connections| ==> w.connections[i].phase.Idle?
  }

  /** With the filter in front of the router, at rest: the router has recorded every call of every session as routed
      or failed, and the filter's totals are the router's. */
  lemma FilterAgreesWithRouter(v: Service, ms: seq<Move>, w: Service)
    requires Fresh(v) && w == Serve(v, ms) && AtRest(w)
    ensures (w.routingS + w.routingF) % U64 == Sum(w.connections, Calls) % U64
    ensures w.globalCounts ==> w.totalQueries == (w.routingS + w.routingF) % U32
    ensures w.globalCounts ==> w.totalReplies == w.routingC % U32
  {
    OrderlyServe(v, ms);
    SumsAtRest(w);
    var cs := w.connections;
    Narrow(Sum(cs, Accepted), Sum(cs, Refused), Sum(cs, Answered));
  }

  lemma SumsAtRest(w: Service)
    requires Orderly(w) && AtRest(w)
    ensures Sum(w.connections, Calls) == Sum(w.connections, Accepted) + Sum(w.connections, Refused)
    ensures Sum(w.connections, QueriesSeen) == Sum(w.connections, Calls)
    ensures Sum(w.connections, RepliesSeen) == Sum(w.connections, Answered)
  {
    var cs := w.connections;
    SumOfSums(cs, Accepted, Refused, Calls);
    SumMonotone(cs, QueriesSeen, Calls);
    SumMonotone(cs, Calls, QueriesSeen);
    SumMonotone(cs, RepliesSeen, Answered);
    SumMonotone(cs, Answered, RepliesSeen);
  }

  /** Wrapping at 64 bits first does not matter to a 32-bit counter. */
  lemma Narrow(a: int, b: int, c: int)
    ensures (a % U64 + b % U64) % U64 == (a + b) % U64
    ensures (a % U64 + b % U64) % U32 == (a + b) % U32
    ensures c % U64 % U32 == c % U32
  {
    var p, q, r := a / U64, b / U64, c / U64;
    var x, m := a % U64 + b % U64, U32 * (p + q);
    assert a + b == x + U64 * (p + q) == x + U32 * m;
    assert c == c % U64 + U32 * (U32 * r);
    AddMultiple64(x, p + q);
    AddMultiple32(x, m);
    AddMultiple32(c % U64, U32 * r);
  }

  lemma AddMultiple64(x: int, k: int)
    ensures (x + U64 * k) % U64 == x % U64
  {
  }

  lemma AddMultiple32(x: int, k: int)
    ensures (x + U32 * k) % U32 == x % U32
  {
  }

  function Pending(c: Connection): int { Is(c.phase.QueryRouted?) }
  function Recorded(c: Connection): int { |c.session.seen| - Is(c.phase.QueryRouted?) }

  function Forwarded(c: Connection): int { |c.session.forwarded| }
  function BeingAnswered(c: Connection): int { Is(Answering(c.phase)) }

  /** For any number of sessions, interleaved in any way: routed and failed together count the calls to the router
      that returned, the replies count the forwarded replies that were recorded, and while no counter has wrapped the
      router has never recorded more replies than routed queries. */
  lemma RouterStatistics(v: Service, ms: seq<Move>, w: Service)
    requires Fresh(v) && w == Serve(v, ms)
    ensures (w.routingS + w.routingF) % U64 == (Sum(w.connections, Calls) - Sum(w.connections, Pending)) % U64
    ensures w.routingC == (Sum(w.connections, Forwarded) - Sum(w.connections, BeingAnswered)) % U64
    ensures Sum(w.connections, Calls) < U64 && NoneOverflowed(w) ==> w.routingC <= w.routingS
  {
    CallsServed(v, ms);
    AnswersServed(v, ms);
    RepliesServed(v, ms);
  }

  lemma CallsServed(v: Service, ms: seq<Move>)
    requires Fresh(v)
    ensures var w := Serve(v, ms);
      (w.routingS + w.routingF) % U64 == (Sum(w.connections, Calls) - Sum(w.connections, Pending)) % U64
  {
    OrderlyServe(v, ms);
    RoutedAndFailed(Serve(v, ms));
  }

  lemma AnswersServed(v: Service, ms: seq<Move>)
    requires Fresh(v)
    ensures var w := Serve(v, ms);
      w.routingC == (Sum(w.connections, Forwarded) - Sum(w.connections, BeingAnswered)) % U64
  {
    OrderlyServe(v, ms);
    AnsweredSums(Serve(v, ms).connections);
  }

  lemma RepliesServed(v: Service, ms: seq<Move>)
    requires Fresh(v)
    ensures var w := Serve(v, ms);
      Sum(w.connections, Calls) < U64 && NoneOverflowed(w) ==> w.routingC <= w.routingS
  {
    OrderlyServe(v, ms);
    var w := Serve(v, ms);
    if Sum(w.connections, Calls) < U64 && NoneOverflowed(w) {
      RepliesBelowRouted(w);
    }
  }

  lemma RoutedAndFailed(w: Service)
    requires Tallied(w)
    ensures (w.routingS + w.routingF) % U64 == (Sum(w.connections, Calls) - Sum(w.connections, Pending)) % U64
  {
    RecordedSums(w.connections);
    Narrow(Sum(w.connections, Accepted), Sum(w.connections, Refused), 0);
  }

  lemma AnsweredSums(cs: seq<Connection>)
    ensures Sum(cs, Answered) % U64 == (Sum(cs, Forwarded) - Sum(cs, BeingAnswered)) % U64
  {
    SumOfSums(cs, Answered, BeingAnswered, Forwarded);
  }

  lemma RepliesBelowRouted(w: Service)
    requires Orderly(w) && NoneOverflowed(w) && Sum(w.connections, Calls) < U64
    ensures w.routingC <= w.routingS
  {
    AnsweredBelowAccepted(w);
    InRange(Sum(w.connections, Answered), Sum(w.connections, Accepted));
  }

  lemma RecordedSums(cs: seq<Connection>)
    ensures Sum(cs, Accepted) + Sum(cs, Refused) == Sum(cs, Calls) - Sum(cs, Pending)
  {
    SumOfSums(cs, Accepted, Refused, Recorded);
    SumOfSums(cs, Recorded, Pending, Calls);
  }

  ghost predicate NoneOverflowed(w: Service) {
    forall i :: 0 <= i < |w.connections| ==> !w.connections[i].session.overflowed
  }

  lemma AnsweredBelowAccepted(w: Service)
    requires Orderly(w) && NoneOverflowed(w)
    ensures 0 <= Sum(w.connections, Answered) <= Sum(w.connections, Accepted) <= Sum(w.connections, Calls)
  {
    SumMonotone(w.connections, Answered, Accepted);
    SumMonotone(w.connections, Accepted, Calls);
    SumBoundsTerms(w.connections, Answered);
  }

  lemma InRange(x: int, y: int)
    requires 0 <= x <= y < U64
    ensures x % U64 <= y % U64
  {
  }
}
