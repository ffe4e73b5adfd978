/** Which request a forwarded reply answers: always the right one when the client waits for its answers, and
    exactly when pipelining keeps that true. */
module ReplyMatching {
  import opened Collections
  import opened QueryTypes
  import opened RouterState
  import opened RouterInvariants

  /** The k-th reply the client got is the reply to its k-th accepted request. */
  ghost predicate Matched(s: Session) {
    forall k :: 0 <= k < |s.forwarded| ==> s.forwarded[k] == k
  }

  /** The client sends a statement only when it is owed no reply. */
  ghost predicate Waits(s: Session, es: seq<Event>)
    decreases |es|
  {
    es != [] ==> (es[0].Route? ==> Owed(s) == 0) && Waits(Step(s, es[0]), es[1..])
  }

  /** With a waiting client at most one request is open and only its replies are on their way. */
  ghost predicate WaitingState(s: Session) {
    && Books(s) && !s.overflowed && Matched(s)
    && (s.live ==>
          && 0 <= Owed(s) <= 1
          && s.repliesToIgnore <= |s.backends| - 1
          && (Owed(s) == 0 ==> s.repliesToIgnore == 0 && s.lost == 0 && InFlight(s) == 0)
          && (Owed(s) == 1 ==> OnlyLatest(s)))
  }

  /** Each backend owes nothing but, at most, the reply to the latest request. */
  ghost predicate OnlyLatest(s: Session) {
    forall b :: 0 <= b < |s.backends| ==> s.backends[b].inflight == [] || s.backends[b].inflight == [|s.requests| - 1]
  }

  lemma WaitingRoute(s: Session, stmt: Statement, accept: set<nat>)
    requires WaitingState(s) && s.live && Owed(s) == 0
    ensures WaitingState(RouteStep(s, stmt, accept))
  {
    var t := RouteStep(s, stmt, accept);
    WaitingCounter(s, stmt, accept);
    BooksStep(s, Route(stmt, accept));
    if t.live {
      RouteSends(s, stmt, accept);
      SumBoundsTerms(s.backends, InFlightOf);
      forall b | 0 <= b < |t.backends|
        ensures t.backends[b].inflight == [] || t.backends[b].inflight == [|t.requests| - 1]
      {
        assert InFlightOf(s.backends[b]) <= 0;
      }
    }
  }

  lemma WaitingCounter(s: Session, stmt: Statement, accept: set<nat>)
    requires Shape(s) && s.live && s.repliesToIgnore == 0 && !s.overflowed
    ensures var t := RouteStep(s, stmt, accept);
      !t.overflowed && t.forwarded == s.forwarded && (t.live ==> t.repliesToIgnore <= |s.backends| - 1)
  {
    TakersCount(s.backends, accept);
    var i :| 0 <= i < |s.backends| && s.backends[i].open;
    assert i in OpenSet(s.backends);
  }

  lemma WaitingReply(s: Session, b: nat)
    requires WaitingState(s) && s.live && HasReply(s, b)
    ensures WaitingState(ReplyStep(s, b))
  {
    BooksStep(s, Reply(b));
    ReplyBalance(s, b);
    SumBoundsTerms(s.backends, InFlightOf);
    SumBoundsTerms(ReplyStep(s, b).backends, InFlightOf);
    assert InFlightOf(s.backends[b]) <= InFlight(s);
  }

  lemma WaitingError(s: Session, b: nat)
    requires WaitingState(s) && s.live && b < |s.backends|
    ensures WaitingState(ErrorStep(s, b))
  {
    BooksStep(s, Error(b));
    SumBoundsTerms(s.backends, InFlightOf);
    SumUpdate(s.backends, b, s.backends[b].(open := false, inflight := []), InFlightOf);
    assert InFlightOf(s.backends[b]) <= InFlight(s);
  }

  lemma {:induction false} WaitingRun(s: Session, es: seq<Event>)
    requires WaitingState(s) && Waits(s, es)
    ensures WaitingState(Exec(s, es))
    decreases |es|
  {
    if es != [] {
      var e := es[0];
      if Enabled(s, e) {
        match e {
          case Route(stmt, accept) => WaitingRoute(s, stmt, accept);
          case Reply(b) => WaitingReply(s, b);
          case Error(b) => WaitingError(s, b);
        }
      }
      WaitingRun(Step(s, e), es[1..]);
    }
  }

  lemma InitialWaiting(s: Session)
    requires Initial(s)
    ensures WaitingState(s)
  {
    InitialBooks(s);
  }

  /** In every run of a waiting client, whatever order the replies arrive in and whichever backends fail: each
      forwarded reply belongs to the request it is taken to answer, at most one request is open, the counter
      stays below the number of backends, and when the client has its answer nothing is on its way or to be
      ignored. While no reply was lost the open request has exactly one reply more than will be ignored. */
  lemma WaitingClientGetsMatchingReplies(s: Session, es: seq<Event>, t: Session)
    requires Run(s, es, t) && Waits(s, es)
    ensures Matched(t) && |t.forwarded| <= |t.requests|
    ensures t.live ==>
              && Owed(t) <= 1
              && t.repliesToIgnore <= |t.backends| - 1
              && (Owed(t) == 0 ==> t.repliesToIgnore == 0 && InFlight(t) == 0)
              && (Owed(t) == 1 && t.lost == 0 ==> InFlight(t) == t.repliesToIgnore + 1)
  {
    InitialWaiting(s);
    WaitingRun(s, es);
  }

  // ---- Draining ----

  predicate OnlyReplies(rs: seq<Event>) {
    forall i :: 0 <= i < |rs| ==> rs[i].Reply?
  }

  /** `t` is `s` after some replies: nothing else changed, and a reply was forwarded only once none was left to
      ignore. */
  ghost predicate AfterReplies(s: Session, t: Session) {
    && t.live == s.live && t.requests == s.requests && t.lost == s.lost && |t.backends| == |s.backends|
    && Shape(t) && Balance(t) == Balance(s)
    && s.forwarded <= t.forwarded && t.repliesToIgnore <= s.repliesToIgnore
    && (t.repliesToIgnore > 0 ==> t.forwarded == s.forwarded)
  }

  lemma AfterReply(s: Session, b: nat)
    requires Shape(s) && s.live && HasReply(s, b)
    ensures AfterReplies(s, ReplyStep(s, b))
  {
    ReplyBalance(s, b);
    ShapeStep(s, Reply(b));
  }

  /** The last reply a backend owes is all that is left of its queue if the backend is kept. */
  ghost predicate DrainedTo(s: Session, t: Session, keep: set<nat>)
    requires |t.backends| == |s.backends|
  {
    forall b :: 0 <= b < |s.backends| ==>
      var q := s.backends[b].inflight;
      t.backends[b].inflight == if b in keep && q != [] then [q[|q| - 1]] else []
  }

  lemma AfterMoreReplies(s: Session, u: Session, t: Session)
    requires AfterReplies(s, u) && AfterReplies(u, t)
    ensures AfterReplies(s, t)
  {
  }

  lemma DrainedFrom(s: Session, b: nat, t: Session, keep: set<nat>)
    requires HasReply(s, b) && |s.backends[b].inflight| > (if b in keep then 1 else 0)
    requires |t.backends| == |s.backends| && DrainedTo(ReplyStep(s, b), t, keep)
    ensures DrainedTo(s, t, keep)
  {
    var u := ReplyStep(s, b);
    forall c | 0 <= c < |s.backends|
      ensures var q := s.backends[c].inflight;
        t.backends[c].inflight == if c in keep && q != [] then [q[|q| - 1]] else []
    {
      assert u.backends[c].inflight == if c == b then s.backends[c].inflight[1..] else s.backends[c].inflight;
    }
  }

  /** One more reply at the start of a drain. */
  lemma ReplyFirst(s: Session, b: nat, rest: seq<Event>)
    requires s.live && HasReply(s, b) && OnlyReplies(rest)
    ensures Exec(s, [Reply(b)] + rest) == Exec(ReplyStep(s, b), rest) && OnlyReplies([Reply(b)] + rest)
  {
    assert ([Reply(b)] + rest)[1..] == rest;
  }

  /** Replies can arrive so that the last ones are those of chosen backends. */
  lemma DrainTo(s: Session, keep: set<nat>) returns (rs: seq<Event>, t: Session)
    requires Shape(s) && s.live
    ensures OnlyReplies(rs) && t == Exec(s, rs) && AfterReplies(s, t) && DrainedTo(s, t, keep)
    decreases InFlight(s)
  {
    if b :| 0 <= b < |s.backends| && |s.backends[b].inflight| > if b in keep then 1 else 0 {
      var u := ReplyStep(s, b);
      SumBoundsTerms(u.backends, InFlightOf);
      ReplyBalance(s, b);
      AfterReply(s, b);
      var rest;
      rest, t := DrainTo(u, keep);
      AfterMoreReplies(s, u, t);
      DrainedFrom(s, b, t, keep);
      ReplyFirst(s, b, rest);
      rs := [Reply(b)] + rest;
    } else {
      rs, t := [], s;
    }
  }

  /** One more reply at the end of a drain. */
  lemma DrainOrder(s: Session, t: Session, rs: seq<Event>, b: nat)
    requires t == Exec(s, rs) && OnlyReplies(rs) && t.live && HasReply(t, b)
    ensures Exec(s, rs + [Reply(b)]) == ReplyStep(t, b) && OnlyReplies(rs + [Reply(b)])
  {
    ExecConcat(s, rs, [Reply(b)]);
    assert [Reply(b)][1..] == [];
  }

  /** For a waiting client the open request can still be answered exactly when no reply was lost; once one is
      lost, no continuation answers it. */
  lemma AnswerableIffNothingLost(s: Session, es: seq<Event>, t: Session)
    requires Run(s, es, t) && Waits(s, es) && t.live && Owed(t) == 1
    ensures (exists rs :: OnlyReplies(rs) && Owed(Exec(t, rs)) == 0) <==> t.lost == 0
    ensures t.lost > 0 ==> forall fs :: Waits(t, fs) && Exec(t, fs).live ==> Owed(Exec(t, fs)) == 1
  {
    InitialWaiting(s);
    WaitingRun(s, es);
    if t.lost == 0 {
      var rs, u := DrainTo(t, {});
      SumOfZeros(u.backends, InFlightOf);
      assert OnlyReplies(rs) && Owed(Exec(t, rs)) == 0;
    }
    forall fs | Waits(t, fs) && Exec(t, fs).live && t.lost > 0 ensures Owed(Exec(t, fs)) == 1 {
      WaitingRun(t, fs);
      ShapeRun(t, fs);
    }
    forall rs | OnlyReplies(rs) && t.lost > 0 ensures Owed(Exec(t, rs)) != 0 {
      RepliesWait(t, rs);
      WaitingRun(t, rs);
      ShapeRun(t, rs);
    }
  }

  lemma {:induction false} RepliesWait(s: Session, rs: seq<Event>)
    requires OnlyReplies(rs) && s.live
    ensures Waits(s, rs) && Exec(s, rs).live
    decreases |rs|
  {
    if rs != [] {
      RepliesWait(Step(s, rs[0]), rs[1..]);
    }
  }

  // ---- Pipelining ----

  /** A live session that has lost nothing and matched every reply so far. */
  ghost predicate Tidy(s: Session) {
    Shape(s) && s.live && Balance(s) == 0 && s.lost == 0 && Owed(s) >= 0 && Matched(s)
  }

  /** However the replies on their way arrive, every open request gets its own. */
  ghost predicate AllDrainsMatch(s: Session) {
    forall rs :: OnlyReplies(rs) && InFlight(Exec(s, rs)) == 0 ==> Matched(Exec(s, rs))
  }

  /** The ids of the requests that have no reply yet. */
  function Pending(s: Session): seq<nat>
    requires Owed(s) >= 0
  {
    seq(Owed(s), i requires 0 <= i => |s.forwarded| + i)
  }

  /** No backend but `b` owes a reply. */
  ghost predicate Alone(s: Session, b: nat) {
    b < |s.backends| && forall c :: 0 <= c < |s.backends| && c != b ==> s.backends[c].inflight == []
  }

  /** Nothing is open; or one request is open and it is the last that any backend answers; or everything on its
      way comes from one backend, whose last replies are those to the open requests in order. */
  ghost predicate Safe(s: Session)
    requires Owed(s) >= 0
  {
    if Owed(s) == 0 then true
    else if Owed(s) == 1 then LatestLast(s)
    else exists b: nat :: Alone(s, b) && EndsWith(s.backends[b].inflight, Pending(s))
  }

  ghost predicate LatestLast(s: Session) {
    forall b :: 0 <= b < |s.backends| && s.backends[b].inflight != [] ==>
      s.backends[b].inflight[|s.backends[b].inflight| - 1] == |s.requests| - 1
  }

  predicate EndsWith(q: seq<nat>, suffix: seq<nat>) {
    |suffix| <= |q| && q[|q| - |suffix|..] == suffix
  }

  lemma AloneCount(s: Session, b: nat)
    requires Alone(s, b)
    ensures InFlight(s) == |s.backends[b].inflight|
  {
    SumOfOne(s.backends, b, InFlightOf);
  }

  lemma SafeReply(s: Session, b: nat)
    requires Tidy(s) && Safe(s) && HasReply(s, b)
    ensures Tidy(ReplyStep(s, b)) && Safe(ReplyStep(s, b))
  {
    AfterReply(s, b);
    if Owed(s) >= 2 {
      SafeReplyMany(s, b);
    } else {
      SafeReplyOne(s, b);
    }
  }

  lemma SafeReplyOne(s: Session, b: nat)
    requires Tidy(s) && Safe(s) && HasReply(s, b) && Owed(s) <= 1
    ensures var t := ReplyStep(s, b); Owed(t) >= 0 && Matched(t) && Safe(t)
  {
    var q := s.backends[b].inflight;
    SumBoundsTerms(s.backends, InFlightOf);
    assert 1 <= InFlightOf(s.backends[b]) <= InFlight(s);
    if Owed(s) == 1 && s.repliesToIgnore == 0 {
      assert |q| == 1 && q[|q| - 1] == |s.requests| - 1;
    }
  }

  lemma SafeReplyMany(s: Session, b: nat)
    requires Tidy(s) && Safe(s) && HasReply(s, b) && Owed(s) >= 2
    ensures Matched(ReplyStep(s, b)) && Safe(ReplyStep(s, b))
  {
    var c: nat :| Alone(s, c) && EndsWith(s.backends[c].inflight, Pending(s));
    assert b == c;
    AloneCount(s, b);
    if s.repliesToIgnore > 0 {
      IgnoreInOrder(s, b);
    } else {
      ForwardInOrder(s, b);
    }
  }

  lemma IgnoreInOrder(s: Session, b: nat)
    requires Alone(s, b) && HasReply(s, b) && Owed(s) >= 2 && s.repliesToIgnore > 0
    requires EndsWith(s.backends[b].inflight, Pending(s)) && |s.backends[b].inflight| > Owed(s)
    ensures Safe(ReplyStep(s, b))
  {
    var t := ReplyStep(s, b);
    var q := s.backends[b].inflight;
    assert Pending(t) == Pending(s);
    assert q[1..][|q| - 1 - Owed(s)..] == q[|q| - Owed(s)..];
    assert Alone(t, b) && EndsWith(t.backends[b].inflight, Pending(t));
  }

  lemma ForwardInOrder(s: Session, b: nat)
    requires Alone(s, b) && HasReply(s, b) && Owed(s) >= 2 && s.repliesToIgnore == 0 && Matched(s)
    requires s.backends[b].inflight == Pending(s)
    ensures Matched(ReplyStep(s, b)) && Safe(ReplyStep(s, b))
  {
    var t := ReplyStep(s, b);
    var q := s.backends[b].inflight;
    assert q[0] == |s.forwarded| && q[|q| - 1] == |s.requests| - 1;
    assert Pending(t) == q[1..];
    assert Alone(t, b) && EndsWith(t.backends[b].inflight, Pending(t));
  }

  lemma {:induction false} SafeDrains(s: Session, rs: seq<Event>)
    requires Tidy(s) && Safe(s) && OnlyReplies(rs)
    ensures Matched(Exec(s, rs))
    decreases |rs|
  {
    if rs != [] {
      if Enabled(s, rs[0]) {
        SafeReply(s, rs[0].backend);
      }
      SafeDrains(Step(s, rs[0]), rs[1..]);
    }
  }

  /** One request is open and `b` would end on another reply: let that one arrive last. */
  lemma UnsafeOne(s: Session, b: nat)
    requires Tidy(s) && Owed(s) == 1 && b < |s.backends|
    requires s.backends[b].inflight != []
    requires s.backends[b].inflight[|s.backends[b].inflight| - 1] != |s.requests| - 1
    ensures !AllDrainsMatch(s)
  {
    var rs, t := DrainTo(s, {b});
    assert Alone(t, b);
    AloneCount(t, b);
    LastOne(s, t, rs, b);
  }

  lemma LastOne(s: Session, t: Session, rs: seq<Event>, b: nat)
    requires Tidy(s) && Owed(s) == 1 && AfterReplies(s, t) && OnlyReplies(rs) && t == Exec(s, rs)
    requires b < |t.backends| && InFlight(t) == 1 && |t.backends[b].inflight| == 1
    ensures AllDrainsMatch(s) ==> t.backends[b].inflight[0] == |s.requests| - 1
  {
    assert t.repliesToIgnore == 0 && Owed(t) == 1;
    DrainOrder(s, t, rs, b);
    ReplyBalance(t, b);
    if AllDrainsMatch(s) {
      var u := ReplyStep(t, b);
      assert Matched(u) && u.forwarded[|s.requests| - 1] == t.backends[b].inflight[0];
    }
  }

  lemma TwoQueues(t: Session, a: nat, b: nat)
    requires a < |t.backends| && b < |t.backends| && a != b
    requires |t.backends[a].inflight| == 1 && |t.backends[b].inflight| == 1
    requires forall c :: 0 <= c < |t.backends| && c != a && c != b ==> t.backends[c].inflight == []
    ensures InFlight(t) == 2
  {
    var e := t.backends[b].(inflight := []);
    SumUpdate(t.backends, b, e, InFlightOf);
    SumOfOne(t.backends[b := e], a, InFlightOf);
  }

  /** Several requests are open and two backends owe replies: their last two replies can arrive either way. */
  lemma UnsafeTwo(s: Session, a: nat, b: nat)
    requires Tidy(s) && Owed(s) >= 2 && a < |s.backends| && b < |s.backends| && a != b
    requires s.backends[a].inflight != [] && s.backends[b].inflight != []
    ensures !AllDrainsMatch(s)
  {
    var rs, t := DrainTo(s, {a, b});
    LastTwoQueues(s, t, a, b);
    LastTwo(s, t, rs, a, b);
    LastTwo(s, t, rs, b, a);
  }

  lemma LastTwoQueues(s: Session, t: Session, a: nat, b: nat)
    requires |t.backends| == |s.backends| && a < |s.backends| && b < |s.backends| && a != b
    requires s.backends[a].inflight != [] && s.backends[b].inflight != [] && DrainedTo(s, t, {a, b})
    ensures InFlight(t) == 2 && |t.backends[a].inflight| == 1 && |t.backends[b].inflight| == 1
  {
    TwoQueues(t, a, b);
  }

  lemma LastTwo(s: Session, t: Session, rs: seq<Event>, a: nat, b: nat)
    requires Tidy(s) && Owed(s) >= 2 && AfterReplies(s, t) && OnlyReplies(rs) && t == Exec(s, rs)
    requires a < |t.backends| && b < |t.backends| && a != b && InFlight(t) == 2
    requires |t.backends[a].inflight| == 1 && |t.backends[b].inflight| == 1
    ensures AllDrainsMatch(s) ==> t.backends[b].inflight[0] == |s.requests| - 1
    ensures AllDrainsMatch(s) ==> t.backends[a].inflight[0] == |s.requests| - 2
  {
    assert t.repliesToIgnore == 0 && Owed(t) == 2;
    DrainOrder(s, t, rs, a);
    var u := ReplyStep(t, a);
    ReplyBalance(t, a);
    DrainOrder(s, u, rs + [Reply(a)], b);
    var v := ReplyStep(u, b);
    ReplyBalance(u, b);
    if AllDrainsMatch(s) {
      var all := rs + [Reply(a)] + [Reply(b)];
      assert Exec(s, all) == v && Matched(v);
      assert v.forwarded[|s.requests| - 2] == t.backends[a].inflight[0];
      assert v.forwarded[|s.requests| - 1] == t.backends[b].inflight[0];
    }
  }

  /** Replies from one backend arrive in order, so the client gets what follows the ignored ones. */
  lemma {:induction false} DrainQueue(s: Session, b: nat) returns (rs: seq<Event>, t: Session)
    requires Shape(s) && s.live && Alone(s, b) && s.repliesToIgnore <= |s.backends[b].inflight|
    ensures OnlyReplies(rs) && t == Exec(s, rs) && InFlight(t) == 0
    ensures t.forwarded == s.forwarded + s.backends[b].inflight[s.repliesToIgnore..]
    decreases |s.backends[b].inflight|
  {
    AloneCount(s, b);
    var q := s.backends[b].inflight;
    if q == [] {
      rs, t := [], s;
    } else {
      QueueAfterReply(s, b);
      var u, rest := ReplyStep(s, b), [];
      rest, t := DrainQueue(u, b);
      ReplyFirst(s, b, rest);
      rs := [Reply(b)] + rest;
    }
  }

  lemma QueueAfterReply(s: Session, b: nat)
    requires Shape(s) && s.live && Alone(s, b) && HasReply(s, b) && s.repliesToIgnore <= |s.backends[b].inflight|
    ensures var u := ReplyStep(s, b);
      && Shape(u) && u.live && Alone(u, b) && u.backends[b].inflight == s.backends[b].inflight[1..]
      && u.repliesToIgnore <= |u.backends[b].inflight|
      && u.forwarded + u.backends[b].inflight[u.repliesToIgnore..]
         == s.forwarded + s.backends[b].inflight[s.repliesToIgnore..]
  {
    ShapeStep(s, Reply(b));
    var q := s.backends[b].inflight;
    if s.repliesToIgnore > 0 {
      assert q[1..][s.repliesToIgnore - 1..] == q[s.repliesToIgnore..];
    } else {
      assert [q[0]] + q[1..] == q && q[1..][0..] == q[1..] && q[0..] == q;
    }
  }

  lemma UnsafeQueue(s: Session, b: nat)
    requires Tidy(s) && Owed(s) >= 2 && Alone(s, b) && AllDrainsMatch(s)
    ensures EndsWith(s.backends[b].inflight, Pending(s))
  {
    AloneCount(s, b);
    var rs, t := DrainQueue(s, b);
    var q := s.backends[b].inflight[s.repliesToIgnore..];
    assert Matched(t);
    forall i | 0 <= i < |q| ensures q[i] == Pending(s)[i] {
      assert t.forwarded[|s.forwarded| + i] == q[i];
    }
    assert q == Pending(s);
  }

  /** Exactly when every arrival order matches: at most one request is open and every backend ends on it, or all
      replies on their way come in order from one backend. */
  lemma AllDrainsMatchIffSafe(s: Session)
    requires Tidy(s)
    ensures AllDrainsMatch(s) <==> Safe(s)
  {
    if Safe(s) {
      forall rs | OnlyReplies(rs) && InFlight(Exec(s, rs)) == 0 ensures Matched(Exec(s, rs)) {
        SafeDrains(s, rs);
      }
    } else if Owed(s) == 1 {
      var b :| 0 <= b < |s.backends| && s.backends[b].inflight != []
        && s.backends[b].inflight[|s.backends[b].inflight| - 1] != |s.requests| - 1;
      UnsafeOne(s, b);
    } else if AllDrainsMatch(s) {
      var b := SomeQueue(s);
      if a :| 0 <= a < |s.backends| && a != b && s.backends[a].inflight != [] {
        UnsafeTwo(s, a, b);
      } else {
        assert Alone(s, b);
        UnsafeQueue(s, b);
      }
    }
  }

  lemma SomeQueue(s: Session) returns (b: nat)
    requires InFlight(s) > 0
    ensures b < |s.backends| && s.backends[b].inflight != []
  {
    if forall c :: 0 <= c < |s.backends| ==> s.backends[c].inflight == [] {
      SumOfZeros(s.backends, InFlightOf);
      assert false;
    }
    b :| 0 <= b < |s.backends| && s.backends[b].inflight != [];
  }

  /** When a client may send before its answers are in: a statement sent while requests are open keeps every
      arrival order matching exactly when it goes to one backend and no other backend owes a reply. */
  lemma PipelineIffOneBackend(s: Session, stmt: Statement, accept: set<nat>)
    requires Tidy(s) && AllDrainsMatch(s) && Owed(s) >= 1
    requires RouteStep(s, stmt, accept).live && !RouteStep(s, stmt, accept).overflowed
    ensures AllDrainsMatch(RouteStep(s, stmt, accept)) <==>
            exists b: nat :: Destinations(s, stmt) == {b} && Alone(s, b)
  {
    var t := RouteStep(s, stmt, accept);
    RouteSends(s, stmt, accept);
    TidyRoute(s, stmt, accept);
    AllDrainsMatchIffSafe(s);
    AllDrainsMatchIffSafe(t);
    if b: nat :| Destinations(s, stmt) == {b} && Alone(s, b) {
      PipelineOne(s, t, RequestFor(s, stmt), b);
    }
    if Safe(t) {
      RequestIsWellPlaced(s, stmt);
      PipelineOnlyOne(s, t, RequestFor(s, stmt));
    }
  }

  lemma PipelineOne(s: Session, t: Session, r: Request, b: nat)
    requires Tidy(s) && Safe(s) && Owed(s) >= 1 && Alone(s, b) && Sent(s, t, r) && r.targets == {b}
    ensures Safe(t)
  {
    OneQueueIsPending(s, b);
    EndsWithMore(s.backends[b].inflight, Pending(s), |s.requests|);
    PendingGrows(s, t);
    assert t.backends[b].inflight == s.backends[b].inflight + [|s.requests|];
    assert Alone(t, b);
  }

  lemma OneQueueIsPending(s: Session, b: nat)
    requires Tidy(s) && Safe(s) && Owed(s) >= 1 && Alone(s, b)
    ensures EndsWith(s.backends[b].inflight, Pending(s))
  {
    var q := s.backends[b].inflight;
    AloneCount(s, b);
    if Owed(s) == 1 {
      assert q[|q| - 1..] == [|s.requests| - 1] == Pending(s);
    } else {
      var c: nat :| Alone(s, c) && EndsWith(s.backends[c].inflight, Pending(s));
      assert c == b;
    }
  }

  lemma PendingGrows(s: Session, t: Session)
    requires Owed(s) >= 0 && |t.requests| == |s.requests| + 1 && t.forwarded == s.forwarded
    ensures Pending(t) == Pending(s) + [|s.requests|]
  {
  }

  lemma EndsWithMore(q: seq<nat>, suffix: seq<nat>, x: nat)
    requires EndsWith(q, suffix)
    ensures EndsWith(q + [x], suffix + [x])
  {
    assert (q + [x])[|q| - |suffix|..] == q[|q| - |suffix|..] + [x];
  }

  lemma PipelineOnlyOne(s: Session, t: Session, r: Request)
    requires Owed(s) >= 1 && Sent(s, t, r) && r.targets != {} && Safe(t)
    ensures exists b: nat :: r.targets == {b} && Alone(s, b)
  {
    var b: nat :| Alone(t, b) && EndsWith(t.backends[b].inflight, Pending(t));
    forall c | 0 <= c < |s.backends| && c != b ensures c !in r.targets && s.backends[c].inflight == [] {
      assert t.backends[c].inflight == [];
    }
    assert r.targets == {b} && Alone(s, b);
  }

  /** The statement may be sent: nothing is owed, or it goes to the one backend that owes all replies on their way. */
  ghost predicate MaySend(s: Session, stmt: Statement) {
    Owed(s) == 0 || exists b: nat :: Destinations(s, stmt) == {b} && Alone(s, b)
  }

  /** The client sends no other statement that the session outlives. */
  ghost predicate Disciplined(s: Session, es: seq<Event>)
    decreases |es|
  {
    es != [] ==>
      && (Enabled(s, es[0]) && es[0].Route? && Step(s, es[0]).live ==> MaySend(s, es[0].stmt))
      && Disciplined(Step(s, es[0]), es[1..])
  }

  /** What a disciplined run keeps while the session lives and nothing is lost. */
  ghost predicate Steady(s: Session) {
    Matched(s) && (s.live ==> Tidy(s) && Safe(s) && (Owed(s) == 0 ==> InFlight(s) == 0))
  }

  lemma SteadyRoute(s: Session, stmt: Statement, accept: set<nat>)
    requires Steady(s) && s.live && !RouteStep(s, stmt, accept).overflowed
    requires RouteStep(s, stmt, accept).live ==> MaySend(s, stmt)
    ensures Steady(RouteStep(s, stmt, accept))
  {
    var t := RouteStep(s, stmt, accept);
    assert t.forwarded == s.forwarded;
    if t.live {
      RouteSends(s, stmt, accept);
      TidyRoute(s, stmt, accept);
      if Owed(s) == 0 {
        FirstRequestIsSafe(s, t, RequestFor(s, stmt));
      } else {
        var b: nat :| Destinations(s, stmt) == {b} && Alone(s, b);
        PipelineOne(s, t, RequestFor(s, stmt), b);
      }
    }
  }

  lemma TidyRoute(s: Session, stmt: Statement, accept: set<nat>)
    requires Tidy(s) && RouteStep(s, stmt, accept).live && !RouteStep(s, stmt, accept).overflowed
    ensures Tidy(RouteStep(s, stmt, accept))
  {
    RouteSends(s, stmt, accept);
    ShapeStep(s, Route(stmt, accept));
    BalanceStep(s, Route(stmt, accept));
  }

  lemma FirstRequestIsSafe(s: Session, t: Session, r: Request)
    requires Owed(s) == 0 && InFlight(s) == 0 && Sent(s, t, r)
    ensures Safe(t)
  {
    SumBoundsTerms(s.backends, InFlightOf);
    forall b | 0 <= b < |t.backends| && t.backends[b].inflight != []
      ensures t.backends[b].inflight[|t.backends[b].inflight| - 1] == |t.requests| - 1
    {
      assert InFlightOf(s.backends[b]) <= 0;
    }
  }

  lemma SteadyReply(s: Session, b: nat)
    requires Steady(s) && s.live && HasReply(s, b)
    ensures Steady(ReplyStep(s, b))
  {
    SafeReply(s, b);
    SumBoundsTerms(s.backends, InFlightOf);
    assert 1 <= InFlightOf(s.backends[b]) <= InFlight(s);
  }

  /** Closing a backend that owes nothing. */
  lemma SteadyError(s: Session, b: nat)
    requires Steady(s) && s.live && b < |s.backends| && s.backends[b].inflight == []
    ensures Steady(ErrorStep(s, b))
  {
    var t := ErrorStep(s, b);
    ShapeStep(s, Error(b));
    ErrorBalance(s, b);
    SameQueues(s, t);
  }

  lemma SameQueues(s: Session, t: Session)
    requires |t.backends| == |s.backends| && t.requests == s.requests && t.forwarded == s.forwarded && Owed(s) >= 0
    requires forall c :: 0 <= c < |s.backends| ==> t.backends[c].inflight == s.backends[c].inflight
    requires Safe(s)
    ensures Safe(t)
  {
    if Owed(s) >= 2 {
      var c: nat :| Alone(s, c) && EndsWith(s.backends[c].inflight, Pending(s));
      assert Alone(t, c) && Pending(t) == Pending(s);
    }
  }

  lemma SteadyStep(s: Session, e: Event)
    requires Shape(s) && Steady(s) && Step(s, e).lost == s.lost && !Step(s, e).overflowed
    requires Enabled(s, e) && e.Route? && Step(s, e).live ==> MaySend(s, e.stmt)
    ensures Steady(Step(s, e))
  {
    if Enabled(s, e) {
      match e {
        case Route(stmt, accept) => SteadyRoute(s, stmt, accept);
        case Reply(b) => SteadyReply(s, b);
        case Error(b) => SteadyError(s, b);
      }
    }
  }

  lemma {:induction false} SteadyRun(s: Session, es: seq<Event>)
    requires Shape(s) && Steady(s) && Disciplined(s, es)
    requires s.lost == Exec(s, es).lost && !Exec(s, es).overflowed
    ensures Steady(Exec(s, es))
    decreases |es|
  {
    if es != [] {
      var u := Step(s, es[0]);
      ShapeStep(s, es[0]);
      ShapeRun(u, es[1..]);
      SteadyStep(s, es[0]);
      SteadyRun(u, es[1..]);
    }
  }

  /** In every disciplined run in which no reply is lost, each reply the client got is the reply to its request, and
      so is each one still to come, in whatever order they arrive. */
  lemma DisciplinedClientGetsMatchingReplies(s: Session, es: seq<Event>, t: Session)
    requires Run(s, es, t) && Disciplined(s, es) && t.lost == 0 && !t.overflowed
    ensures Matched(t) && (t.live ==> AllDrainsMatch(t))
  {
    InitialBooks(s);
    SteadyRun(s, es);
    if t.live {
      AllDrainsMatchIffSafe(t);
    }
  }

  /** At every moment of the run, every arrival order of what is then on its way matches. */
  ghost predicate AlwaysMatches(s: Session, es: seq<Event>) {
    forall k :: 0 <= k <= |es| ==> AllDrainsMatch(Exec(s, es[..k]))
  }

  lemma AlwaysMatchesStep(s: Session, es: seq<Event>)
    requires es != []
    ensures AlwaysMatches(s, es) <==> AllDrainsMatch(s) && AlwaysMatches(Step(s, es[0]), es[1..])
  {
    assert es[..0] == [];
    forall k | 0 <= k < |es| ensures Exec(s, es[..k + 1]) == Exec(Step(s, es[0]), es[1..][..k]) {
      assert es[..k + 1][1..] == es[1..][..k];
    }
    if AlwaysMatches(s, es) {
      assert AllDrainsMatch(Exec(s, es[..0]));
      forall k | 0 <= k <= |es[1..]| ensures AllDrainsMatch(Exec(Step(s, es[0]), es[1..][..k])) {
        assert AllDrainsMatch(Exec(s, es[..k + 1]));
      }
    }
    if AllDrainsMatch(s) && AlwaysMatches(Step(s, es[0]), es[1..]) {
      forall k | 0 <= k <= |es| ensures AllDrainsMatch(Exec(s, es[..k])) {
        if k > 0 {
          assert AllDrainsMatch(Exec(Step(s, es[0]), es[1..][..k - 1]));
        }
      }
    }
  }

  /** A steady state, alive or not, has only matching arrival orders. */
  lemma SteadyMatches(s: Session)
    requires Steady(s)
    ensures AllDrainsMatch(s)
  {
    if s.live {
      AllDrainsMatchIffSafe(s);
    } else {
      forall rs ensures Exec(s, rs) == s {
        DeadStays(s, rs);
      }
    }
  }

  /** The first statement that breaks the discipline makes some arrival order mismatch. */
  lemma {:induction false} AlwaysMatchesRun(s: Session, es: seq<Event>)
    requires Shape(s) && Steady(s)
    requires s.lost == Exec(s, es).lost && !Exec(s, es).overflowed
    ensures AlwaysMatches(s, es) <==> Disciplined(s, es)
    decreases |es|
  {
    SteadyMatches(s);
    if es == [] {
      assert es[..0] == [];
    } else {
      var u := Step(s, es[0]);
      ShapeStep(s, es[0]);
      ShapeRun(u, es[1..]);
      AlwaysMatchesStep(s, es);
      if Enabled(s, es[0]) && es[0].Route? && u.live && !MaySend(s, es[0].stmt) {
        PipelineIffOneBackend(s, es[0].stmt, es[0].accept);
        assert !AllDrainsMatch(u);
        assert es[1..][..0] == [];
        assert !AlwaysMatches(u, es[1..]) by {
          assert Exec(u, es[1..][..0]) == u;
        }
      } else {
        SteadyStep(s, es[0]);
        AlwaysMatchesRun(u, es[1..]);
      }
    }
  }

  /** For every run without loss or overflow: every arrival order matches at every moment exactly when the client is
      disciplined. */
  lemma AlwaysMatchesIffDisciplined(s: Session, es: seq<Event>, t: Session)
    requires Run(s, es, t) && t.lost == 0 && !t.overflowed
    ensures AlwaysMatches(s, es) <==> Disciplined(s, es)
  {
    InitialBooks(s);
    AlwaysMatchesRun(s, es);
  }
}
