/** Concrete runs on which an unconditional claim about the router fails. */
module Witnesses {
  import opened Collections
  import opened QueryTypes
  import opened RouterState
  import opened RouterInvariants
  import opened ReplyMatching

  /** Two open backends and no write backend. */
  function Pair(): Session {
    var idle := Backend(true, [], []);
    Session(true, [idle, idle], None, 0, false, 0, [], [], None, [], 0, false)
  }

  lemma PairIsInitial()
    ensures Initial(Pair())
  {
    assert Pair().backends[0].open;
  }

  /** COM_INIT_DB and COM_FIELD_LIST, as they are classified. */
  function UseDb(): Statement { Statement(InitDb, SESSION_TRAITS) }
  function ListFields(): Statement { Statement(FieldList, READ_TRAITS) }

  lemma Classified(mask: bv32)
    ensures Classify(InitDb, mask) == UseDb() && Classify(FieldList, mask) == ListFields()
  {
    CommandRules(InitDb, mask, false, false, false);
    CommandRules(FieldList, mask, false, false, false);
  }

  // ---- A session statement that one read backend gets ----

  /** The mask of a select that assigns a user variable. */
  const SELECT_WITH_ASSIGNMENT: bv32 := TYPE_READ | TYPE_USERVAR_WRITE

  lemma SelectWithAssignment()
    ensures Classify(Query, SELECT_WITH_ASSIGNMENT) == Statement(Query, Traits(false, false, false, true, true))
  {
    var types := SELECT_WITH_ASSIGNMENT;
    assert types & ROUTE_TO_WRITE == 0 && types & TRX_BEGIN == 0 && types & TRX_END == 0;
    assert types & ROUTE_TO_RR != 0 && types & ROUTE_TO_ALL != 0;
  }

  /** A statement that reads and also writes session state goes to one read backend, and the two then differ. */
  lemma SessionWriteIsBalanced() returns (es: seq<Event>, t: Session)
    ensures es == [Route(Classify(Query, SELECT_WITH_ASSIGNMENT), {0, 1})]
    ensures Run(Pair(), es, t) && t.live && |t.backends| == 2
    ensures t.backends[0].log == [Delivery(0, Classify(Query, SELECT_WITH_ASSIGNMENT), Balanced)]
    ensures t.backends[1].log == [] && t.backends[0].open && t.backends[1].open
    ensures SessionRead(t, 0) && !ReadersAgree(t)
  {
    var stmt := Classify(Query, SELECT_WITH_ASSIGNMENT);
    SelectWithAssignment();
    es := [Route(stmt, {0, 1})];
    t := OneRead(Pair(), stmt);
    assert es[1..] == [];
    assert Exec(Pair(), es) == Exec(Step(Pair(), es[0]), []);
    PairIsInitial();
    assert t.backends[0].log[0].stmt.traits.session;
    SessionPartMembers(t.backends[0].log, t.backends[0].log[0]);
    assert SessionPart(t.backends[1].log) == [];
    assert IsCandidate(t.backends, t.writer, 0) && IsCandidate(t.backends, t.writer, 1);
  }

  /** The first read of two open backends goes to the first. */
  lemma OneRead(s: Session, stmt: Statement) returns (t: Session)
    requires s.live && |s.backends| == 2 && s.backends[0].open && s.backends[1].open && s.writer == None
    requires s.routeCount == 0 && stmt.traits.read && !stmt.traits.write && !stmt.command.Quit?
    ensures t == Step(s, Route(stmt, {0, 1})) && t.live && t.writer == None
    ensures t.backends == s.backends[0 := Deliver(s.backends[0], Delivery(|s.requests|, stmt, Balanced))]
    ensures t.repliesToIgnore == s.repliesToIgnore && t.forwarded == s.forwarded
    ensures t.lost == s.lost && t.overflowed == s.overflowed
  {
    var cs := Candidates(s.backends, None);
    CandidatesAreExact(s.backends, None);
    assert IsCandidate(s.backends, None, 0) && 0 in cs;
    assert cs[0] == 0;
    t := RouteStep(s, stmt, {0, 1});
  }

  // ---- Replies that reach the wrong request, or nobody ----

  /** A client that pipelines a COM_FIELD_LIST behind a COM_INIT_DB can get the second reply for the first. */
  lemma PipeliningMismatch(mask: bv32) returns (es: seq<Event>, t: Session)
    ensures es == [Route(Classify(InitDb, mask), {0, 1}), Route(Classify(FieldList, mask), {0, 1}), Reply(0), Reply(0)]
    ensures Run(Pair(), es, t)
    ensures t.live && t.lost == 0 && !t.overflowed && t.forwarded == [1] && !Matched(t)
  {
    Classified(mask);
    es := [Route(UseDb(), {0, 1}), Route(ListFields(), {0, 1}), Reply(0), Reply(0)];
    var u := PairBroadcast();
    var v := OneRead(u, ListFields());
    assert v.backends[0].inflight == [0, 1];
    t := TwoReplies(v);
    ExecFour(Pair(), es);
    PairIsInitial();
  }

  lemma TwoReplies(s: Session) returns (t: Session)
    requires s.live && s.repliesToIgnore == 1 && s.forwarded == [] && |s.backends| == 2
    requires s.backends[0].open && s.backends[0].inflight == [0, 1]
    ensures t == Step(Step(s, Reply(0)), Reply(0))
    ensures t.live && t.lost == s.lost && t.overflowed == s.overflowed && t.forwarded == [1] && !Matched(t)
  {
    var u := ReplyStep(s, 0);
    assert u.backends[0].inflight == [1];
    t := ReplyStep(u, 0);
    assert t.forwarded[0] == 1;
  }

  lemma PairBroadcast() returns (s: Session)
    ensures s == Step(Pair(), Route(UseDb(), {0, 1}))
    ensures s.live && s.repliesToIgnore == 1 && |s.requests| == 1 && s.forwarded == [] && s.lost == 0 && !s.overflowed
    ensures s.writer == None && !s.onTransaction && s.routeCount == 0 && |s.backends| == 2
    ensures forall b :: 0 <= b < 2 ==> s.backends[b].open && s.backends[b].inflight == [0]
  {
    var p := Pair();
    assert p.backends[0].open && p.backends[1].open;
    assert Takers(p.backends, {0, 1}) == {0, 1} == OpenSet(p.backends);
    s := Step(p, Route(UseDb(), {0, 1}));
  }

  /** A backend that dies in the middle of a broadcast strands the client: the reply of the other backend is
      ignored in its place, and nothing is left on its way. */
  lemma FailureStrandsClient(mask: bv32) returns (es: seq<Event>, t: Session)
    ensures es == [Route(Classify(InitDb, mask), {0, 1}), Error(0), Reply(1)]
    ensures Run(Pair(), es, t)
    ensures t.live && Owed(t) == 1 && InFlight(t) == 0 && t.repliesToIgnore == 0
  {
    Classified(mask);
    es := [Route(UseDb(), {0, 1}), Error(0), Reply(1)];
    var s := PairBroadcast();
    var u := ErrorStep(s, 0);
    assert u.backends[1].open;
    t := ReplyStep(u, 1);
    SumOfZeros(t.backends, InFlightOf);
    PairIsInitial();
    ExecThree(Pair(), es);
  }

  lemma ExecThree(s: Session, es: seq<Event>)
    requires |es| == 3
    ensures Exec(s, es) == Step(Step(Step(s, es[0]), es[1]), es[2])
  {
    var fs := es[1..];
    assert Exec(s, es) == Exec(Step(s, es[0]), fs);
    var u := Step(s, es[0]);
    assert fs[0] == es[1] && Exec(u, fs) == Exec(Step(u, fs[0]), fs[1..]);
    var v := Step(u, es[1]);
    assert fs[1..] == [es[2]] && Exec(v, [es[2]]) == Exec(Step(v, es[2]), []);
  }

  lemma ExecFour(s: Session, es: seq<Event>)
    requires |es| == 4
    ensures Exec(s, es) == Step(Step(Step(Step(s, es[0]), es[1]), es[2]), es[3])
  {
    ExecThree(Step(s, es[0]), es[1..]);
  }
}
