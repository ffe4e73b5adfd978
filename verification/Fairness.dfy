/** How evenly a session spreads its balanced reads, over whole runs and over windows of them. */
module Fairness {
  import opened Collections
  import opened QueryTypes
  import opened RouterState
  import opened RouterInvariants
  import opened RoundRobin
  import opened ReplyMatching

  function BalancedIn(log: seq<Delivery>): nat {
    if log == [] then 0
    else BalancedIn(log[..|log| - 1]) + if log[|log| - 1].kind == Balanced then 1 else 0
  }

  lemma BalancedSnoc(log: seq<Delivery>, d: Delivery)
    ensures BalancedIn(log + [d]) == BalancedIn(log) + if d.kind == Balanced then 1 else 0
  {
    assert (log + [d])[..|log|] == log;
  }

  /** The balanced reads a backend has served. */
  function Reads(s: Session, b: nat): nat
    requires b < |s.backends|
  {
    BalancedIn(s.backends[b].log)
  }

  function TotalReads(requests: seq<Request>): nat {
    if requests == [] then 0
    else TotalReads(requests[..|requests| - 1]) + if requests[|requests| - 1].kind == Balanced then 1 else 0
  }

  lemma TotalReadsSnoc(requests: seq<Request>, r: Request)
    ensures TotalReads(requests + [r]) == TotalReads(requests) + if r.kind == Balanced then 1 else 0
  {
    assert (requests + [r])[..|requests|] == requests;
  }

  function CandidatesOf(s: Session): seq<nat> {
    Candidates(s.backends, s.writer)
  }

  // ---- How a step moves candidates and reads ----

  lemma {:induction false} SameCandidates(bs: seq<Backend>, cs: seq<Backend>, writer: Option<nat>)
    requires |bs| == |cs| && forall i :: 0 <= i < |bs| ==> bs[i].open == cs[i].open
    ensures Candidates(bs, writer) == Candidates(cs, writer)
  {
    if bs != [] {
      SameCandidates(bs[..|bs| - 1], cs[..|bs| - 1], writer);
    }
  }

  lemma {:induction false} CloseCandidate(bs: seq<Backend>, b: nat, closed: Backend, writer: Option<nat>)
    requires b < |bs| && !closed.open
    ensures |Candidates(bs[b := closed], writer)|
         == |Candidates(bs, writer)| - if IsCandidate(bs, writer, b) then 1 else 0
    ensures !IsCandidate(bs, writer, b) ==> Candidates(bs[b := closed], writer) == Candidates(bs, writer)
  {
    var n := |bs| - 1;
    var after := bs[b := closed];
    if b == n {
      assert after[..n] == bs[..n];
    } else {
      CloseCandidate(bs[..n], b, closed, writer);
      assert after[..n] == bs[..n][b := closed];
      assert IsCandidate(bs[..n], writer, b) <==> IsCandidate(bs, writer, b);
      assert IsCandidate(after, writer, n) <==> IsCandidate(bs, writer, n);
    }
  }

  /** The read at counter value `c` went to the candidate whose turn it was. */
  ghost predicate ReadServed(s: Session, t: Session) {
    var cs := CandidatesOf(s);
    && |t.backends| == |s.backends|
    && CandidatesOf(t) == cs && cs != []
    && t.routeCount == (s.routeCount + 1) % U32
    && TotalReads(t.requests) == TotalReads(s.requests) + 1
    && forall i :: 0 <= i < |s.backends| ==>
         Reads(t, i) == Reads(s, i) + if i == cs[s.routeCount % |cs|] then 1 else 0
  }

  /** Nothing happened to the reads; a candidate may have closed. */
  ghost predicate ReadsKept(s: Session, t: Session) {
    && |t.backends| == |s.backends|
    && t.routeCount == s.routeCount && TotalReads(t.requests) == TotalReads(s.requests)
    && (forall i :: 0 <= i < |s.backends| ==> Reads(t, i) == Reads(s, i))
    && |CandidatesOf(t)| <= |CandidatesOf(s)|
    && (|CandidatesOf(t)| == |CandidatesOf(s)| ==> CandidatesOf(t) == CandidatesOf(s))
    && |CandidatesOf(s)| <= |CandidatesOf(t)| + 1
    && t.writer == s.writer
    && (forall i :: 0 <= i < |s.backends| && t.backends[i].open ==> s.backends[i].open)
  }

  /** A read was served, or the reads were left alone; a refused read moves the counter all the same and ends the
      session. */
  ghost predicate ServedOrKept(s: Session, t: Session) {
    || ReadServed(s, t)
    || (ReadsKept(s, t.(routeCount := s.routeCount)) && (t.live ==> t.routeCount == s.routeCount))
  }

  lemma RouteReads(s: Session, stmt: Statement, accept: set<nat>)
    ensures ServedOrKept(s, RouteStep(s, stmt, accept))
  {
    var t, r := RouteStep(s, stmt, accept), Attempt(s, stmt, accept);
    RouteReceives(s, stmt, accept);
    if t.requests == s.requests {
      RefusedIsStray(s, stmt, accept);
      RefusedReads(s, t, r);
    } else {
      AcceptedEverywhere(s, stmt, accept);
      RouteCounts(s, stmt, accept);
      AcceptedServesOrKeeps(s, t, r);
    }
  }

  lemma AcceptedServesOrKeeps(s: Session, t: Session, r: Request)
    requires Received(s, t, r) && t.requests != s.requests
    requires r.kind == Balanced ==>
               && CandidatesOf(s) != [] && r.targets == {CandidatesOf(s)[s.routeCount % |CandidatesOf(s)|]}
               && t.routeCount == (s.routeCount + 1) % U32
    requires r.kind != Balanced ==> t.routeCount == s.routeCount
    ensures ServedOrKept(s, t)
  {
    AcceptedReads(s, t, r);
    if r.kind == Balanced {
      assert ReadServed(s, t);
    } else {
      assert t.(routeCount := s.routeCount) == t;
      assert ReadsKept(s, t);
    }
  }

  lemma RefusedReads(s: Session, t: Session, r: Request)
    requires Received(s, t, r) && t.requests == s.requests && Stray(r, |s.backends|)
    ensures ReadsKept(s, t.(routeCount := s.routeCount))
  {
    SameCandidates(s.backends, t.backends, s.writer);
    LoggedReads(s, t, r);
  }

  /** Only a balanced read moves the counter, and it goes to the candidate the counter picks. */
  lemma RouteCounts(s: Session, stmt: Statement, accept: set<nat>)
    requires Decide(s, stmt) != NoTarget
    ensures RequestFor(s, stmt).kind == Balanced ==>
              && RouteStep(s, stmt, accept).routeCount == (s.routeCount + 1) % U32
              && CandidatesOf(s) != []
              && RequestFor(s, stmt).targets == {CandidatesOf(s)[s.routeCount % |CandidatesOf(s)|]}
    ensures RequestFor(s, stmt).kind != Balanced ==> RouteStep(s, stmt, accept).routeCount == s.routeCount
  {
  }

  lemma AcceptedReads(s: Session, t: Session, r: Request)
    requires Received(s, t, r) && t.requests != s.requests
    ensures CandidatesOf(t) == CandidatesOf(s)
    ensures TotalReads(t.requests) == TotalReads(s.requests) + if r.kind == Balanced then 1 else 0
    ensures forall i :: 0 <= i < |s.backends| ==>
              Reads(t, i) == Reads(s, i) + if r.kind == Balanced && i in r.targets then 1 else 0
  {
    SameCandidates(s.backends, t.backends, s.writer);
    TotalReadsSnoc(s.requests, r);
    LoggedReads(s, t, r);
  }

  lemma LoggedReads(s: Session, t: Session, r: Request)
    requires Received(s, t, r)
    ensures forall i :: 0 <= i < |s.backends| ==>
              Reads(t, i) == Reads(s, i) + if r.kind == Balanced && i in r.targets then 1 else 0
  {
    forall i | 0 <= i < |s.backends|
      ensures Reads(t, i) == Reads(s, i) + if r.kind == Balanced && i in r.targets then 1 else 0
    {
      if i in r.targets {
        BalancedSnoc(s.backends[i].log, Delivery(|s.requests|, r.stmt, r.kind));
      } else {
        assert t.backends[i].log == s.backends[i].log;
      }
    }
  }

  lemma StepReads(s: Session, e: Event)
    ensures ServedOrKept(s, Step(s, e))
  {
    if Enabled(s, e) {
      match e {
        case Route(stmt, accept) => RouteReads(s, stmt, accept);
        case Reply(b) => ReplyReads(s, b);
        case Error(b) => ErrorReads(s, b);
      }
    }
  }

  lemma ReplyReads(s: Session, b: nat)
    requires HasReply(s, b)
    ensures ServedOrKept(s, ReplyStep(s, b))
  {
    var t := ReplyStep(s, b);
    SameCandidates(s.backends, t.backends, s.writer);
    assert t.(routeCount := s.routeCount) == t;
    assert ReadsKept(s, t);
  }

  lemma ErrorReads(s: Session, b: nat)
    requires b < |s.backends|
    ensures ServedOrKept(s, ErrorStep(s, b))
  {
    var t := ErrorStep(s, b);
    CloseCandidate(s.backends, b, s.backends[b].(open := false, inflight := []), s.writer);
    assert t.(routeCount := s.routeCount) == t;
    assert ReadsKept(s, t);
  }

  // ---- Whole runs ----

  /** One lead or lag is allowed for each of the `n` candidates that closed and each wrap of the counter. */
  function Slack(s: Session, n: nat): int {
    n - |CandidatesOf(s)| + TotalReads(s.requests) / U32
  }

  /** The lead of candidate number `i` over a later number `j`, less its phase, is within the slack. */
  ghost predicate PairWithin(s: Session, n: nat, i: int, j: int) {
    var cs := CandidatesOf(s);
    0 <= i < j < |cs| && cs[i] < |s.backends| && cs[j] < |s.backends| ==>
      -Slack(s, n) <= Reads(s, cs[i]) - Reads(s, cs[j]) - Phase(s.routeCount, |cs|, i, j) <= Slack(s, n)
  }

  ghost predicate EvenlyRead(s: Session, n: nat) {
    && ListsCandidates(CandidatesOf(s), s.backends, s.writer)
    && |CandidatesOf(s)| <= n
    && s.routeCount == TotalReads(s.requests) % U32
    && forall i, j :: PairWithin(s, n, i, j)
  }

  lemma WrapCounts(total: nat)
    ensures (total + 1) % U32 == (total % U32 + 1) % U32
    ensures total % U32 + 1 < U32 ==> (total + 1) / U32 == total / U32 && (total + 1) % U32 == total % U32 + 1
    ensures total % U32 + 1 == U32 ==> (total + 1) / U32 == total / U32 + 1 && (total + 1) % U32 == 0
  {
  }

  /** The position in the list is the position in the turn. */
  lemma PositionIsUnique(cs: seq<nat>, bs: seq<Backend>, writer: Option<nat>, i: int, j: int)
    requires ListsCandidates(cs, bs, writer) && 0 <= i < |cs| && 0 <= j < |cs|
    ensures cs[i] == cs[j] <==> i == j
    ensures cs[i] < cs[j] <==> i < j
    ensures cs[i] < |bs|
  {
    if i < j {
      assert cs[i] < cs[j];
    } else if j < i {
      assert cs[j] < cs[i];
    }
    assert IsCandidate(bs, writer, cs[i]);
  }

  lemma PhaseAtZero(n: nat, i: nat, j: nat)
    requires i < j < n
    ensures Phase(0, n, i, j) == 0
  {
    DivUnique(0, n, 0, 0);
  }

  lemma PairServed(s: Session, t: Session, n: nat, i: int, j: int)
    requires EvenlyRead(s, n) && ReadServed(s, t) && 0 <= i < j < |CandidatesOf(s)|
    ensures PairWithin(t, n, i, j)
  {
    var cs := CandidatesOf(s);
    var c := s.routeCount;
    var turn := c % |cs|;
    assert PairWithin(s, n, i, j);
    PositionIsUnique(cs, s.backends, s.writer, i, turn);
    PositionIsUnique(cs, s.backends, s.writer, j, turn);
    PhaseStep(c, |cs|, i, j);
    PhaseAtZero(|cs|, i, j);
    WrapCounts(TotalReads(s.requests));
    assert t.routeCount == if c + 1 < U32 then c + 1 else 0;
    assert Slack(t, n) == Slack(s, n) + if c + 1 < U32 then 0 else 1;
    assert Reads(t, cs[i]) == Reads(s, cs[i]) + if turn == i then 1 else 0;
    assert Reads(t, cs[j]) == Reads(s, cs[j]) + if turn == j then 1 else 0;
  }

  lemma EvenReadServed(s: Session, t: Session, n: nat)
    requires EvenlyRead(s, n) && ReadServed(s, t) && t.writer == s.writer
    ensures EvenlyRead(t, n)
  {
    WrapCounts(TotalReads(s.requests));
    CandidatesAreExact(t.backends, t.writer);
    forall i, j ensures PairWithin(t, n, i, j) {
      if 0 <= i < j < |CandidatesOf(s)| {
        PairServed(s, t, n, i, j);
      }
    }
  }

  lemma PairKept(s: Session, t: Session, n: nat, i: int, j: int)
    requires EvenlyRead(s, n) && ReadsKept(s, t) && 0 <= i < j < |CandidatesOf(t)|
    requires ListsCandidates(CandidatesOf(t), t.backends, t.writer)
    ensures PairWithin(t, n, i, j)
  {
    var cs, ds := CandidatesOf(s), CandidatesOf(t);
    PositionIsUnique(ds, t.backends, t.writer, i, j);
    PositionIsUnique(ds, t.backends, t.writer, j, i);
    if |ds| == |cs| {
      assert PairWithin(s, n, i, j);
    } else {
      assert IsCandidate(t.backends, t.writer, ds[i]) && IsCandidate(t.backends, t.writer, ds[j]);
      assert IsCandidate(s.backends, s.writer, ds[i]) && IsCandidate(s.backends, s.writer, ds[j]);
      var p :| 0 <= p < |cs| && cs[p] == ds[i];
      var q :| 0 <= q < |cs| && cs[q] == ds[j];
      PositionIsUnique(cs, s.backends, s.writer, p, q);
      assert PairWithin(s, n, p, q);
      assert Slack(t, n) == Slack(s, n) + 1;
    }
  }

  lemma EvenReadsKept(s: Session, t: Session, n: nat)
    requires EvenlyRead(s, n) && ReadsKept(s, t)
    ensures EvenlyRead(t, n)
  {
    CandidatesAreExact(t.backends, t.writer);
    forall i, j ensures PairWithin(t, n, i, j) {
      if 0 <= i < j < |CandidatesOf(t)| {
        PairKept(s, t, n, i, j);
      }
    }
  }

  /** The same without the phase, and whatever the counter is. */
  ghost predicate PairClose(s: Session, n: nat, i: int, j: int) {
    var cs := CandidatesOf(s);
    0 <= i < j < |cs| && cs[i] < |s.backends| && cs[j] < |s.backends| ==>
      -Slack(s, n) <= Reads(s, cs[i]) - Reads(s, cs[j]) <= Slack(s, n) + 1
  }

  ghost predicate CloselyRead(s: Session, n: nat) {
    && ListsCandidates(CandidatesOf(s), s.backends, s.writer)
    && |CandidatesOf(s)| <= n
    && forall i, j :: PairClose(s, n, i, j)
  }

  lemma EvenIsClose(s: Session, n: nat)
    requires EvenlyRead(s, n)
    ensures CloselyRead(s, n)
  {
    forall i, j ensures PairClose(s, n, i, j) {
      assert PairWithin(s, n, i, j);
    }
  }

  lemma CounterDoesNotMatter(s: Session, t: Session, n: nat)
    requires CloselyRead(s, n) && t == s.(routeCount := t.routeCount)
    ensures CloselyRead(t, n)
  {
    forall i, j ensures PairClose(t, n, i, j) {
      assert PairClose(s, n, i, j);
    }
  }

  lemma EvenStep(s: Session, e: Event, n: nat)
    requires Shape(s) && EvenlyRead(s, n)
    ensures CloselyRead(Step(s, e), n)
    ensures Step(s, e).live ==> EvenlyRead(Step(s, e), n)
  {
    var t := Step(s, e);
    ShapeStep(s, e);
    StepReads(s, e);
    if ReadServed(s, t) {
      EvenReadServed(s, t, n);
      EvenIsClose(t, n);
    } else {
      var u := t.(routeCount := s.routeCount);
      EvenReadsKept(s, u, n);
      EvenIsClose(u, n);
      CounterDoesNotMatter(u, t, n);
    }
  }

  lemma {:induction false} EvenRun(s: Session, es: seq<Event>, n: nat)
    requires Shape(s) && EvenlyRead(s, n)
    ensures CloselyRead(Exec(s, es), n)
    decreases |es|
  {
    if es == [] {
      EvenIsClose(s, n);
    } else {
      var u := Step(s, es[0]);
      ShapeStep(s, es[0]);
      EvenStep(s, es[0], n);
      if u.live {
        EvenRun(u, es[1..], n);
      } else {
        DeadStays(u, es[1..]);
      }
    }
  }

  lemma InitialEven(s: Session)
    requires Initial(s)
    ensures EvenlyRead(s, |CandidatesOf(s)|)
  {
    CandidatesAreExact(s.backends, s.writer);
  }

  /** Over any run, ended or not, with any failures and anything else in between: of two read backends still open, the
      earlier listed leads by at most one read for each candidate that closed and each wrap of the counter, and one
      more; it trails by at most one for each. So a session that started with n candidates keeps any two within n - 1
      until its counter wraps. */
  lemma FairUnderFailures(s: Session, es: seq<Event>, t: Session, a: nat, b: nat)
    requires Run(s, es, t)
    requires a < b && IsCandidate(t.backends, t.writer, a) && IsCandidate(t.backends, t.writer, b)
    ensures var n, wraps := |CandidatesOf(s)|, TotalReads(t.requests) / U32;
      var slack := n - |CandidatesOf(t)| + wraps;
      && -slack <= Reads(t, a) - Reads(t, b) <= slack + 1
      && -(n - 1 + wraps) <= Reads(t, a) - Reads(t, b) <= n - 1 + wraps
      && (TotalReads(t.requests) < U32 ==> -(n - 1) <= Reads(t, a) - Reads(t, b) <= n - 1)
  {
    InitialEven(s);
    InitialHistory(s);
    EvenRun(s, es, |CandidatesOf(s)|);
    var cs := CandidatesOf(t);
    var i :| 0 <= i < |cs| && cs[i] == a;
    var j :| 0 <= j < |cs| && cs[j] == b;
    PositionIsUnique(cs, t.backends, t.writer, i, j);
    assert PairClose(t, |CandidatesOf(s)|, i, j);
  }

  // ---- What becomes of the next statement ----

  lemma {:induction false} CounterRun(s: Session, es: seq<Event>)
    requires s.routeCount == TotalReads(s.requests) % U32
    ensures Exec(s, es).live ==> Exec(s, es).routeCount == TotalReads(Exec(s, es).requests) % U32
    decreases |es|
  {
    if es != [] {
      var u := Step(s, es[0]);
      StepReads(s, es[0]);
      if u.live {
        CounterStepReads(s, u);
        CounterRun(u, es[1..]);
      } else {
        DeadStays(u, es[1..]);
      }
    }
  }

  lemma CounterStepReads(s: Session, t: Session)
    requires ServedOrKept(s, t) && t.live && s.routeCount == TotalReads(s.requests) % U32
    ensures t.routeCount == TotalReads(t.requests) % U32
  {
    if ReadServed(s, t) {
      WrapCounts(TotalReads(s.requests));
    }
  }

  /** Where the next statement of this kind has to go: to the write backend, to the read backend whose turn it is by the
      number of reads so far, or to every open backend. */
  ghost function WhereTo(t: Session, kind: Kind): set<nat> {
    match kind
    case Pinned => if t.writer.Some? then {t.writer.value} else {}
    case Balanced =>
      var cs := CandidatesOf(t);
      if cs == [] then {} else {cs[TotalReads(t.requests) % U32 % |cs|]}
    case Broadcast => OpenSet(t.backends)
  }

  /** The next statement, by what the client has sent: it is accepted exactly when there is somewhere for it to go, all
      of that is open and takes it, and a broadcast has a session bit. It then goes there and nowhere else, and the
      session lives on unless it was COM_QUIT. Otherwise the session ends. */
  lemma NextStatement(s: Session, es: seq<Event>, t: Session, stmt: Statement, accept: set<nat>)
    requires Run(s, es, t) && t.live
    ensures var kind := KindOf(t.seen + [stmt], |t.seen|, t.writer.Some?);
      var u, to := Step(t, Route(stmt, accept)), WhereTo(t, kind);
      var fine :=
        && to != {} && (kind == Broadcast ==> stmt.traits.session)
        && forall b :: b in to ==> b < |t.backends| && t.backends[b].open && b in accept;
      && (fine ==> u.requests == t.requests + [Request(stmt, kind, to)] && (u.live <==> !stmt.command.Quit?))
      && (!fine ==> u.requests == t.requests && !u.live)
  {
    InitialHistory(s);
    ShapeRun(s, es);
    KindsRun(s, es);
    CounterRun(s, es);
    AcceptedIff(t, stmt, accept);
    NextDecision(t, stmt);
    SomeOpen(t.backends);
  }

  lemma SomeOpen(bs: seq<Backend>)
    requires AnyOpen(bs)
    ensures OpenSet(bs) != {}
  {
    var i :| 0 <= i < |bs| && bs[i].open;
    assert i in OpenSet(bs);
  }

  /** The decision on the next statement, by what the client has sent. */
  lemma NextDecision(t: Session, stmt: Statement)
    requires t.onTransaction <==> TransactionOpen(t.seen)
    requires t.routeCount == TotalReads(t.requests) % U32
    ensures var kind := KindOf(t.seen + [stmt], |t.seen|, t.writer.Some?);
      if (kind == Broadcast && !stmt.traits.session) || (kind != Broadcast && WhereTo(t, kind) == {})
      then Decide(t, stmt) == NoTarget
      else Decide(t, stmt) != NoTarget && RequestFor(t, stmt) == Request(stmt, kind, WhereTo(t, kind))
  {
    assert (t.seen + [stmt])[..|t.seen|] == t.seen;
  }

  // ---- Windows ----

  lemma {:induction false} CandidatesShrink(s: Session, es: seq<Event>)
    ensures |CandidatesOf(Exec(s, es))| <= |CandidatesOf(s)|
    ensures TotalReads(s.requests) <= TotalReads(Exec(s, es).requests)
    decreases |es|
  {
    if es != [] {
      var u := Step(s, es[0]);
      StepReads(s, es[0]);
      assert |CandidatesOf(u)| <= |CandidatesOf(s)| && TotalReads(s.requests) <= TotalReads(u.requests);
      CandidatesShrink(u, es[1..]);
    }
  }

  lemma HitsOne(s: Session, u: Session, i: nat, k: nat)
    requires ReadServed(s, u) && s.routeCount < U32 && i < |CandidatesOf(s)|
    requires ListsCandidates(CandidatesOf(s), s.backends, s.writer)
    ensures CandidatesOf(s)[i] < |s.backends| && u.routeCount == Next(s.routeCount)
    ensures Hits(s.routeCount, k + 1, |CandidatesOf(s)|, i)
         == Reads(u, CandidatesOf(s)[i]) - Reads(s, CandidatesOf(s)[i]) + Hits(u.routeCount, k, |CandidatesOf(s)|, i)
  {
    PositionIsUnique(CandidatesOf(s), s.backends, s.writer, i, s.routeCount % |CandidatesOf(s)|);
  }

  /** Between `s` and `t`, candidate number `i` served the reads whose counter value picks it. */
  ghost predicate ServedItsTurns(s: Session, t: Session, i: nat)
    requires i < |CandidatesOf(s)|
  {
    && CandidatesOf(s)[i] < |s.backends| == |t.backends|
    && TotalReads(s.requests) <= TotalReads(t.requests)
    && Reads(t, CandidatesOf(s)[i]) - Reads(s, CandidatesOf(s)[i])
       == Hits(s.routeCount, TotalReads(t.requests) - TotalReads(s.requests), |CandidatesOf(s)|, i)
  }

  lemma ServedOneMore(s: Session, u: Session, t: Session, i: nat)
    requires ReadServed(s, u) || ReadsKept(s, u)
    requires CandidatesOf(u) == CandidatesOf(s) && i < |CandidatesOf(s)| && s.routeCount < U32
    requires ServedItsTurns(u, t, i)
    ensures ServedItsTurns(s, t, i)
  {
    CandidatesAreExact(s.backends, s.writer);
    if ReadServed(s, u) {
      HitsOne(s, u, i, TotalReads(t.requests) - TotalReads(u.requests));
    }
  }

  lemma ServedNothing(s: Session, t: Session, i: nat)
    requires |t.backends| == |s.backends| && t.requests == s.requests && i < |CandidatesOf(s)|
    requires forall b :: 0 <= b < |s.backends| ==> t.backends[b].log == s.backends[b].log
    ensures ServedItsTurns(s, t, i)
  {
    CandidatesAreExact(s.backends, s.writer);
    PositionIsUnique(CandidatesOf(s), s.backends, s.writer, i, i);
  }

  /** The step that ends a session. */
  lemma ServedLast(s: Session, t: Session, i: nat)
    requires ServedOrKept(s, t) && CandidatesOf(t) == CandidatesOf(s) && i < |CandidatesOf(s)| && s.routeCount < U32
    ensures ServedItsTurns(s, t, i)
  {
    var u := if ReadServed(s, t) then t else t.(routeCount := s.routeCount);
    ServedNothing(u, t, i);
    ServedOneMore(s, u, t, i);
  }

  /** A step that keeps the number of candidates keeps the candidates. */
  lemma CandidatesSame(s: Session, t: Session)
    requires ServedOrKept(s, t) && |CandidatesOf(t)| == |CandidatesOf(s)|
    ensures CandidatesOf(t) == CandidatesOf(s)
  {
    var u := t.(routeCount := s.routeCount);
    assert CandidatesOf(u) == CandidatesOf(t);
  }

  /** While no candidate closes, each candidate serves the reads whose counter value picks it; the last event may end
      the session. */
  lemma {:induction false} WindowReads(s: Session, es: seq<Event>, t: Session, i: nat)
    requires Shape(s) && t == Exec(s, es)
    requires |CandidatesOf(t)| == |CandidatesOf(s)| && i < |CandidatesOf(s)|
    ensures ServedItsTurns(s, t, i)
    decreases |es|
  {
    if es == [] {
      ServedNothing(s, t, i);
    } else {
      var u := Step(s, es[0]);
      ShapeStep(s, es[0]);
      StepReads(s, es[0]);
      CandidatesShrinkOnce(s, u);
      CandidatesShrink(u, es[1..]);
      CandidatesSame(s, u);
      if u.live {
        WindowReads(u, es[1..], t, i);
        ServedOneMore(s, u, t, i);
      } else {
        DeadStays(u, es[1..]);
        ServedLast(s, u, i);
      }
    }
  }

  lemma CandidatesShrinkOnce(s: Session, t: Session)
    requires ServedOrKept(s, t)
    ensures |CandidatesOf(t)| <= |CandidatesOf(s)|
    ensures t.live ==> ReadServed(s, t) || ReadsKept(s, t)
  {
    var u := t.(routeCount := s.routeCount);
    assert CandidatesOf(u) == CandidatesOf(t);
    if t.live && !ReadServed(s, t) {
      assert u == t;
    }
  }

  /** From any state, while the n candidates stay the same and whether or not the session then ends: k consecutive
      balanced reads give each candidate k/n of them, rounded down or up, if the counter does not wrap or n divides
      2^32; a window of at most 2^32 reads that wraps leaves two candidates at most 2 apart. */
  lemma WindowFairness(s: Session, es: seq<Event>, t: Session, i: nat, j: nat)
    requires Shape(s) && t == Exec(s, es)
    requires |CandidatesOf(t)| == |CandidatesOf(s)| && i < |CandidatesOf(s)| && j < |CandidatesOf(s)|
    ensures var n := |CandidatesOf(s)|;
      var a, b := CandidatesOf(s)[i], CandidatesOf(s)[j];
      var k := TotalReads(t.requests) - TotalReads(s.requests);
      && a < |s.backends| == |t.backends| && b < |s.backends| && k >= 0
      && (s.routeCount + k <= U32 || U32 % n == 0 ==> k / n <= Reads(t, a) - Reads(s, a) <= Ceil(k, n))
      && (k <= U32 ==> -2 <= (Reads(t, a) - Reads(s, a)) - (Reads(t, b) - Reads(s, b)) <= 2)
  {
    WindowReads(s, es, t, i);
    WindowReads(s, es, t, j);
    var k := TotalReads(t.requests) - TotalReads(s.requests);
    HitsAreFair(s.routeCount, k, |CandidatesOf(s)|, i, j);
  }

  lemma HitsAreFair(c: nat, k: nat, n: nat, i: nat, j: nat)
    requires n > 0 && i < n && j < n && c < U32
    ensures c + k <= U32 || U32 % n == 0 ==> k / n <= Hits(c, k, n, i) <= Ceil(k, n)
    ensures k <= U32 ==> -2 <= Hits(c, k, n, i) - Hits(c, k, n, j) <= 2
  {
    if c + k <= U32 || U32 % n == 0 {
      WindowIsFair(c, k, n, i);
    }
    if k <= U32 {
      CrossingWindowSpread(c, k, n, i, j);
    }
  }

  // ---- A session that reaches the unfair window ----

  /** Nothing is open or on its way, and the counter is the number of reads so far. */
  ghost predicate Quiet(s: Session) {
    && Shape(s) && s.live && !s.onTransaction && s.repliesToIgnore == 0 && Owed(s) == 0
    && (forall b :: 0 <= b < |s.backends| ==> s.backends[b].inflight == [])
    && s.routeCount == TotalReads(s.requests) % U32
    && CandidatesOf(s) != []
  }

  /** A read that every open backend would take, and its reply. */
  function ReadAndReply(s: Session, stmt: Statement): seq<Event> {
    var cs := CandidatesOf(s);
    [Route(stmt, OpenSet(s.backends)), Reply(if cs == [] then 0 else cs[s.routeCount % |cs|])]
  }

  lemma QuietRoute(s: Session, stmt: Statement, b: nat)
    requires Quiet(s) && stmt.traits == READ_TRAITS && !stmt.command.Quit?
    requires b == CandidatesOf(s)[s.routeCount % |CandidatesOf(s)|]
    ensures var u := RouteStep(s, stmt, OpenSet(s.backends));
      && ReadServed(s, u) && HasReply(u, b) && u.live && u.backends[b].inflight == [|s.requests|]
      && (forall c :: 0 <= c < |u.backends| && c != b ==> u.backends[c].inflight == [])
      && u.repliesToIgnore == 0 && !u.onTransaction && Owed(u) == 1
  {
    CandidatesAreExact(s.backends, s.writer);
    assert IsCandidate(s.backends, s.writer, b);
    assert b in OpenSet(s.backends);
    RouteReads(s, stmt, OpenSet(s.backends));
  }

  lemma QuietReply(s: Session, b: nat)
    requires Shape(s) && s.live && !s.onTransaction && s.repliesToIgnore == 0 && Owed(s) == 1 && HasReply(s, b)
    requires |s.backends[b].inflight| == 1
    requires forall c :: 0 <= c < |s.backends| && c != b ==> s.backends[c].inflight == []
    requires s.routeCount == TotalReads(s.requests) % U32 && CandidatesOf(s) != []
    ensures Quiet(ReplyStep(s, b)) && CandidatesOf(ReplyStep(s, b)) == CandidatesOf(s)
    ensures ReplyStep(s, b).requests == s.requests
  {
    ShapeStep(s, Reply(b));
    SameCandidates(s.backends, ReplyStep(s, b).backends, s.writer);
  }

  lemma QuietRead(s: Session, stmt: Statement) returns (t: Session)
    requires Quiet(s) && stmt.traits == READ_TRAITS && !stmt.command.Quit?
    ensures t == Exec(s, ReadAndReply(s, stmt)) && Quiet(t) && Waits(s, ReadAndReply(s, stmt))
    ensures CandidatesOf(t) == CandidatesOf(s) && TotalReads(t.requests) == TotalReads(s.requests) + 1
  {
    var es := ReadAndReply(s, stmt);
    var b := es[1].backend;
    QuietRoute(s, stmt, b);
    var u := RouteStep(s, stmt, OpenSet(s.backends));
    ShapeStep(s, es[0]);
    CounterFollows(s, u);
    QuietReply(u, b);
    t := ReplyStep(u, b);
    SendAndReply(s, es[0], b);
  }

  lemma CounterFollows(s: Session, t: Session)
    requires ReadServed(s, t) && s.routeCount == TotalReads(s.requests) % U32
    ensures t.routeCount == TotalReads(t.requests) % U32
  {
    WrapCounts(TotalReads(s.requests));
  }

  lemma SendAndReply(s: Session, e: Event, b: nat)
    requires e.Route? ==> Owed(s) == 0
    ensures Exec(s, [e, Reply(b)]) == Step(Step(s, e), Reply(b)) && Waits(s, [e, Reply(b)])
  {
    var u := Step(s, e);
    assert [e, Reply(b)][1..] == [Reply(b)] && [Reply(b)][1..] == [];
    assert Exec(u, [Reply(b)]) == Exec(Step(u, Reply(b)), []);
    assert Waits(u, [Reply(b)]);
  }

  lemma {:induction false} WaitsConcat(s: Session, es: seq<Event>, fs: seq<Event>)
    requires Waits(s, es) && Waits(Exec(s, es), fs)
    ensures Waits(s, es + fs)
    decreases |es|
  {
    if es == [] {
      assert es + fs == fs;
    } else {
      assert (es + fs)[1..] == es[1..] + fs;
      WaitsConcat(Step(s, es[0]), es[1..], fs);
    }
  }

  /** A waiting client can have any number of reads served. */
  lemma {:induction false} ManyReads(s: Session, stmt: Statement, k: nat) returns (es: seq<Event>, t: Session)
    requires Quiet(s) && stmt.traits == READ_TRAITS && !stmt.command.Quit?
    ensures t == Exec(s, es) && Quiet(t) && Waits(s, es)
    ensures CandidatesOf(t) == CandidatesOf(s) && TotalReads(t.requests) == TotalReads(s.requests) + k
    decreases k
  {
    if k == 0 {
      es, t := [], s;
    } else {
      var first := ReadAndReply(s, stmt);
      var u := QuietRead(s, stmt);
      var rest;
      rest, t := ManyReads(u, stmt, k - 1);
      es := first + rest;
      ExecConcat(s, first, rest);
      WaitsConcat(s, first, rest);
    }
  }

  lemma InitialQuiet(s: Session)
    requires Initial(s) && CandidatesOf(s) != []
    ensures Quiet(s) && s.routeCount == 0 == TotalReads(s.requests)
  {
  }

  /** Between `t` and `u` the first candidate served two reads and the last none. */
  ghost predicate TwoAndNone(t: Session, u: Session) {
    var cs := CandidatesOf(t);
    && cs != [] && cs[0] < |t.backends| == |u.backends| && cs[|cs| - 1] < |t.backends|
    && Reads(u, cs[0]) - Reads(t, cs[0]) == 2 && Reads(u, cs[|cs| - 1]) - Reads(t, cs[|cs| - 1]) == 0
  }

  lemma UnfairReads(t: Session, fs: seq<Event>, u: Session, k: nat)
    requires Shape(t) && u == Exec(t, fs) && CandidatesOf(u) == CandidatesOf(t) != []
    requires TotalReads(u.requests) == TotalReads(t.requests) + k
    requires var n := |CandidatesOf(t)|; Hits(t.routeCount, k, n, 0) == 2 && Hits(t.routeCount, k, n, n - 1) == 0
    ensures TwoAndNone(t, u)
  {
    WindowReads(t, fs, u, 0);
    WindowReads(t, fs, u, |CandidatesOf(t)| - 1);
  }

  /** From counter value 2^32 - r on, r + 1 reads. */
  lemma SomeUnfairWindow(n: nat) returns (c: nat, k: nat)
    requires n > 0 && U32 % n != 0
    ensures c % U32 == c && Hits(c, k, n, 0) == 2 && Hits(c, k, n, n - 1) == 0
  {
    var r := U32 % n;
    c, k := U32 - r, r + 1;
    UnfairWindow(n);
  }

  /** A quiet session can have the reads of such a window served next. */
  lemma UnfairReadsNext(s: Session, stmt: Statement, k: nat) returns (es: seq<Event>, t: Session)
    requires Quiet(s) && stmt.traits == READ_TRAITS && !stmt.command.Quit?
    requires var n := |CandidatesOf(s)|; Hits(s.routeCount, k, n, 0) == 2 && Hits(s.routeCount, k, n, n - 1) == 0
    ensures t == Exec(s, es) && Waits(s, es) && t.live && CandidatesOf(t) == CandidatesOf(s) && TwoAndNone(s, t)
  {
    es, t := ManyReads(s, stmt, k);
    UnfairReads(s, es, t, k);
  }

  /** Every new session whose number of candidates does not divide 2^32 can reach a window of reads of which the first
      candidate serves two and the last none, even if its client waits for every answer and nothing fails. */
  lemma UnfairRun(s: Session, stmt: Statement) returns (es: seq<Event>, fs: seq<Event>, t: Session, u: Session)
    requires Initial(s) && CandidatesOf(s) != [] && U32 % |CandidatesOf(s)| != 0
    requires stmt.traits == READ_TRAITS && !stmt.command.Quit?
    ensures t == Exec(s, es) && u == Exec(s, es + fs) && Waits(s, es + fs) && u.live
    ensures CandidatesOf(t) == CandidatesOf(s) == CandidatesOf(u) && TwoAndNone(t, u)
  {
    var c, k := SomeUnfairWindow(|CandidatesOf(s)|);
    InitialQuiet(s);
    es, t := ManyReads(s, stmt, c);
    fs, u := UnfairReadsNext(t, stmt, k);
    ExecConcat(s, es, fs);
    WaitsConcat(s, es, fs);
  }

  /** If the candidates stay those of `s`, numbers `i` and `j` serve within one read of each other during `fs`. */
  ghost predicate FairWindow(s: Session, es: seq<Event>, fs: seq<Event>, i: nat, j: nat) {
    var cs, t, u := CandidatesOf(s), Exec(s, es), Exec(s, es + fs);
    CandidatesOf(t) == cs == CandidatesOf(u) && i < |cs| && j < |cs|
    && cs[i] < |t.backends| == |u.backends| && cs[j] < |t.backends| ==>
      (Reads(u, cs[i]) - Reads(t, cs[i])) - (Reads(u, cs[j]) - Reads(t, cs[j])) <= 1
  }

  /** Fair windows of counter values make fair windows of reads. */
  lemma FairReads(t: Session, fs: seq<Event>, u: Session, i: nat, j: nat)
    requires Shape(t) && u == Exec(t, fs) && CandidatesOf(u) == CandidatesOf(t)
    requires i < |CandidatesOf(t)| && j < |CandidatesOf(t)| && AllWindowsFair(|CandidatesOf(t)|)
    ensures var a, b := CandidatesOf(t)[i], CandidatesOf(t)[j];
      && a < |t.backends| == |u.backends| && b < |t.backends|
      && (Reads(u, a) - Reads(t, a)) - (Reads(u, b) - Reads(t, b)) <= 1
  {
    WindowReads(t, fs, u, i);
    WindowReads(t, fs, u, j);
    var k := TotalReads(u.requests) - TotalReads(t.requests);
    assert Hits(t.routeCount, k, |CandidatesOf(t)|, i) - Hits(t.routeCount, k, |CandidatesOf(t)|, j) <= 1;
  }

  lemma FairWindows(s: Session, es: seq<Event>, fs: seq<Event>, i: nat, j: nat)
    requires Initial(s) && CandidatesOf(s) != [] && AllWindowsFair(|CandidatesOf(s)|)
    ensures FairWindow(s, es, fs, i, j)
  {
    var cs, t, u := CandidatesOf(s), Exec(s, es), Exec(s, es + fs);
    if CandidatesOf(t) == cs == CandidatesOf(u) && i < |cs| && j < |cs| {
      ExecConcat(s, es, fs);
      ShapeRun(s, es);
      FairReads(t, fs, u, i, j);
    }
  }

  /** For every new session: in every window of every run in which no read backend has closed, even one that ends the
      session, any two read backends serve within one read of each other, exactly when their number divides 2^32. */
  lemma SessionWindowsFairIffDividing(s: Session)
    requires Initial(s) && CandidatesOf(s) != []
    ensures (forall es, fs, i, j :: FairWindow(s, es, fs, i, j)) <==> U32 % |CandidatesOf(s)| == 0
  {
    AllWindowsFairIffDividing(|CandidatesOf(s)|);
    if U32 % |CandidatesOf(s)| == 0 {
      forall es, fs, i, j ensures FairWindow(s, es, fs, i, j) {
        FairWindows(s, es, fs, i, j);
      }
    } else {
      CommandRules(FieldList, 0, false, false, false);
      var es, fs, t, u := UnfairRun(s, Classify(FieldList, 0));
      assert !FairWindow(s, es, fs, 0, |CandidatesOf(s)| - 1);
    }
  }
}
