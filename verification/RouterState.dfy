/** A round-robin router session as a transition system over whole runs.

    `Session` holds the fields of the router session, its backends with what they have received and
    not yet answered, and the history an observer of the run would write down. */
module RouterState {
  import opened Collections
  import opened QueryTypes

  /** Why a statement went to a backend. */
  datatype Kind = Pinned | Balanced | Broadcast

  datatype Delivery = Delivery(id: nat, stmt: Statement, kind: Kind)

  /** One backend: its log of statements, oldest first, and the ids whose replies it still owes. */
  datatype Backend = Backend(open: bool, log: seq<Delivery>, inflight: seq<nat>)

  /** An accepted statement and the backends that took it. The k-th accepted request has id k. */
  datatype Request = Request(stmt: Statement, kind: Kind, targets: set<nat>)

  datatype Session = Session(
    live: bool,
    backends: seq<Backend>,
    writer: Option<nat>,
    routeCount: nat,
    onTransaction: bool,
    repliesToIgnore: nat,
    // History: statements handed to the router, accepted requests, the statement that was refused and ended
    // the session with the backends that took it all the same, ids of the replies the client got, replies
    // that died with a closed backend, and whether the addition to `repliesToIgnore` ever wrapped.
    seen: seq<Statement>,
    requests: seq<Request>,
    refused: Option<Request>,
    forwarded: seq<nat>,
    lost: nat,
    overflowed: bool)

  /** What can happen to a session. `accept` holds the backends whose connection would take a statement. */
  datatype Event =
    | Route(stmt: Statement, accept: set<nat>)
    | Reply(backend: nat)
    | Error(backend: nat)

  // ---- Choosing a target ----

  predicate IsCandidate(bs: seq<Backend>, writer: Option<nat>, i: nat) {
    i < |bs| && bs[i].open && writer != Some(i)
  }

  /** The read candidates: indexes of open backends other than the write backend, in order. */
  function Candidates(bs: seq<Backend>, writer: Option<nat>): seq<nat> {
    if bs == [] then []
    else
      var n := |bs| - 1;
      Candidates(bs[..n], writer) + if IsCandidate(bs, writer, n) then [n] else []
  }

  /** `cs` lists exactly the candidates, in increasing order. */
  ghost predicate ListsCandidates(cs: seq<nat>, bs: seq<Backend>, writer: Option<nat>) {
    && (forall i :: 0 <= i < |cs| ==> IsCandidate(bs, writer, cs[i]))
    && (forall i, j :: 0 <= i < j < |cs| ==> cs[i] < cs[j])
    && (forall b: nat :: IsCandidate(bs, writer, b) ==> b in cs)
  }

  /** The candidates are exactly the open backends other than the write backend. */
  lemma CandidateIff(bs: seq<Backend>, writer: Option<nat>, b: nat)
    ensures b in Candidates(bs, writer) <==> b < |bs| && bs[b].open && writer != Some(b)
  {
    CandidatesAreExact(bs, writer);
  }

  lemma {:induction false} CandidatesAreExact(bs: seq<Backend>, writer: Option<nat>)
    ensures ListsCandidates(Candidates(bs, writer), bs, writer)
  {
    if bs != [] {
      var n := |bs| - 1;
      var cs := Candidates(bs[..n], writer);
      CandidatesAreExact(bs[..n], writer);
      forall i | 0 <= i < |cs| ensures IsCandidate(bs, writer, cs[i]) && cs[i] < n {
        assert IsCandidate(bs[..n], writer, cs[i]);
      }
      forall b: nat | IsCandidate(bs, writer, b) ensures b in Candidates(bs, writer) {
        if b != n {
          assert IsCandidate(bs[..n], writer, b);
        }
      }
    }
  }

  datatype Decision = One(backend: nat, kind: Kind) | All | NoTarget

  function Decide(s: Session, stmt: Statement): Decision {
    var cs := Candidates(s.backends, s.writer);
    match RuleFor(stmt.traits, s.onTransaction, s.writer.Some?, cs != [])
    case ToWriter => One(s.writer.value, Pinned)
    case RoundRobin => One(cs[s.routeCount % |cs|], Balanced)
    case ToAll => All
    case Reject => NoTarget
  }

  /** What a decision for one backend means. */
  lemma DecideOne(s: Session, stmt: Statement)
    requires Decide(s, stmt).One?
    ensures var d := Decide(s, stmt);
      match d.kind
      case Pinned => s.writer == Some(d.backend)
      case Balanced => IsCandidate(s.backends, s.writer, d.backend) && !stmt.traits.write
      case Broadcast => false
  {
    CandidatesAreExact(s.backends, s.writer);
    var cs := Candidates(s.backends, s.writer);
    if cs != [] {
      assert IsCandidate(s.backends, s.writer, cs[s.routeCount % |cs|]);
    }
  }

  // ---- Delivering ----

  /** The reply to COM_QUIT is that the connection goes away; every other statement gets one reply. */
  function Deliver(b: Backend, d: Delivery): Backend {
    b.(log := b.log + [d], inflight := b.inflight + if d.stmt.command.Quit? then [] else [d.id])
  }

  predicate Takes(bs: seq<Backend>, accept: set<nat>, i: nat) {
    i < |bs| && bs[i].open && i in accept
  }

  function Takers(bs: seq<Backend>, accept: set<nat>): set<nat> {
    set i | 0 <= i < |bs| && Takes(bs, accept, i)
  }

  function OpenSet(bs: seq<Backend>): set<nat> {
    set i | 0 <= i < |bs| && bs[i].open
  }

  function DeliverAll(bs: seq<Backend>, accept: set<nat>, d: Delivery): (r: seq<Backend>)
    ensures |r| == |bs|
    ensures forall i :: 0 <= i < |bs| ==> r[i] == if Takes(bs, accept, i) then Deliver(bs[i], d) else bs[i]
  {
    seq(|bs|, i requires 0 <= i < |bs| => if Takes(bs, accept, i) then Deliver(bs[i], d) else bs[i])
  }

  function SendOne(s: Session, stmt: Statement, b: nat, kind: Kind, accept: set<nat>): Session {
    if Takes(s.backends, accept, b) then
      s.(backends := s.backends[b := Deliver(s.backends[b], Delivery(|s.requests|, stmt, kind))],
         requests := s.requests + [Request(stmt, kind, {b})],
         live := !stmt.command.Quit?)
    else
      s.(refused := Some(Request(stmt, kind, {})), live := false)
  }

  function SendAll(s: Session, stmt: Statement, accept: set<nat>): Session {
    var takers := Takers(s.backends, accept);
    var ok := takers == OpenSet(s.backends);
    s.(backends := DeliverAll(s.backends, accept, Delivery(|s.requests|, stmt, Broadcast)),
       repliesToIgnore := (s.repliesToIgnore + |takers| - 1) % U32,
       overflowed := s.overflowed || s.repliesToIgnore + |takers| - 1 >= U32,
       requests := if ok then s.requests + [Request(stmt, Broadcast, takers)] else s.requests,
       refused := if ok then s.refused else Some(Request(stmt, Broadcast, takers)),
       live := ok && !stmt.command.Quit?)
  }

  /** There is no backend to send to. */
  function SendNone(s: Session, stmt: Statement): Session {
    s.(refused := Some(Request(stmt, Broadcast, {})), live := false)
  }

  // ---- Steps ----

  /** The router session's own bookkeeping when it decides on a statement. */
  function Note(s: Session, stmt: Statement): Session {
    s.(seen := s.seen + [stmt],
       onTransaction := TransactionAfter(stmt.traits, s.onTransaction),
       routeCount := if Decide(s, stmt).One? && Decide(s, stmt).kind.Balanced?
                     then (s.routeCount + 1) % U32 else s.routeCount)
  }

  function RouteStep(s: Session, stmt: Statement, accept: set<nat>): Session {
    match Decide(s, stmt)
    case One(b, kind) => SendOne(Note(s, stmt), stmt, b, kind, accept)
    case All => SendAll(Note(s, stmt), stmt, accept)
    case NoTarget => SendNone(Note(s, stmt), stmt)
  }

  predicate HasReply(s: Session, b: nat) {
    b < |s.backends| && s.backends[b].open && s.backends[b].inflight != []
  }

  function ReplyStep(s: Session, b: nat): Session
    requires HasReply(s, b)
  {
    var q := s.backends[b].inflight;
    var t := s.(backends := s.backends[b := s.backends[b].(inflight := q[1..])]);
    if s.repliesToIgnore > 0 then t.(repliesToIgnore := s.repliesToIgnore - 1)
    else t.(forwarded := s.forwarded + [q[0]])
  }

  predicate AnyOpen(bs: seq<Backend>) {
    exists i :: 0 <= i < |bs| && bs[i].open
  }

  function ErrorStep(s: Session, b: nat): Session
    requires b < |s.backends|
  {
    var bs := s.backends[b := s.backends[b].(open := false, inflight := [])];
    s.(backends := bs, lost := s.lost + |s.backends[b].inflight|, live := AnyOpen(bs))
  }

  predicate Enabled(s: Session, e: Event) {
    s.live &&
    match e
    case Route(_, _) => true
    case Reply(b) => HasReply(s, b)
    case Error(b) => b < |s.backends|
  }

  /** An event that cannot happen changes nothing. */
  function Step(s: Session, e: Event): Session {
    if !Enabled(s, e) then s
    else
      match e
      case Route(stmt, accept) => RouteStep(s, stmt, accept)
      case Reply(b) => ReplyStep(s, b)
      case Error(b) => ErrorStep(s, b)
  }

  function Exec(s: Session, es: seq<Event>): Session
    decreases |es|
  {
    if es == [] then s else Exec(Step(s, es[0]), es[1..])
  }

  lemma {:induction false} ExecConcat(s: Session, es: seq<Event>, fs: seq<Event>)
    ensures Exec(s, es + fs) == Exec(Exec(s, es), fs)
    decreases |es|
  {
    if es == [] {
      assert es + fs == fs;
    } else {
      assert (es + fs)[1..] == es[1..] + fs;
      ExecConcat(Step(s, es[0]), es[1..], fs);
    }
  }

  lemma {:induction false} DeadStays(s: Session, es: seq<Event>)
    requires !s.live
    ensures Exec(s, es) == s
    decreases |es|
  {
    if es != [] {
      DeadStays(s, es[1..]);
    }
  }

  /** A new session: some backend is connected and nothing has happened. `int` counters count backends. */
  predicate Initial(s: Session) {
    && s.live && AnyOpen(s.backends)
    && |s.backends| < 0x8000_0000
    && (s.writer.Some? ==> s.writer.value < |s.backends|)
    && (forall i :: 0 <= i < |s.backends| ==> s.backends[i].log == [] && s.backends[i].inflight == [])
    && s.routeCount == 0 && !s.onTransaction && s.repliesToIgnore == 0
    && s.seen == [] && s.requests == [] && s.refused == None && s.forwarded == [] && s.lost == 0 && !s.overflowed
  }

  function InFlightOf(b: Backend): int { |b.inflight| }

  /** How many replies are on their way. */
  function InFlight(s: Session): int { Sum(s.backends, InFlightOf) }

  /** The session once it is destroyed: every backend is closed and what was on its way is lost. */
  function Shut(s: Session): Session {
    SumBoundsTerms(s.backends, InFlightOf);
    s.(live := false,
       backends := seq(|s.backends|, i requires 0 <= i < |s.backends| =>
                       s.backends[i].(open := false, inflight := [])),
       lost := s.lost + InFlight(s))
  }

  /** Destroying a session closes every backend with its log as it is, loses what was on its way and changes nothing
      else. */
  lemma ShutEffect(s: Session)
    ensures var t := Shut(s);
      && !t.live && |t.backends| == |s.backends|
      && (forall b :: 0 <= b < |s.backends| ==> t.backends[b] == Backend(false, s.backends[b].log, []))
      && InFlight(t) == 0 && t.lost == s.lost + InFlight(s)
      && t == s.(live := false, backends := t.backends, lost := t.lost)
  {
    SumOfZeros(Shut(s).backends, InFlightOf);
  }

  /** How many accepted requests the client has no reply to yet. */
  function Owed(s: Session): int { |s.requests| - |s.forwarded| }
}
