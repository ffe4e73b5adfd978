# MaxScale round-robin router: a Dafny model

This project models the round-robin query router of `examples/roundrobinrouter.cpp` together with the counting
filter of `examples/examplefilter.cc`, and three list-processing parts of the repository: the docker environment
generator `script/make-docker-env.py`, the release-note generator `Documentation/process.py`, and the string
splitter of `system-test/local_address.cc`. `dafny verify dfyconfig.toml` checks everything.

## How it is organised

| file | contents |
|---|---|
| `Collections.dfy` | options, word sizes, sums over sequences |
| `QueryTypes.dfy` | type masks, the router's bit tests, the declarative routing table |
| `RouterState.dfy` | a router session as a transition system: `Step` over `Route`, `Reply` and `Error` events, `Exec` over runs |
| `RouterInvariants.dfy` | what every run keeps: reply conservation, logs as projections of one history, session-command agreement and when it fails, placement, pinning, liveness |
| `ReplyMatching.dfy` | which request a forwarded reply answers; when pipelining is safe; when a client is stranded |
| `RoundRobin.dfy` | arithmetic of the 32-bit turn counter |
| `Fairness.dfy` | fairness of balanced reads over whole runs and over windows, and runs that reach an unfair window |
| `Witnesses.dfy` | concrete runs on which an unconditional claim fails |
| `RoundRobinRouter.dfy` | the router, its sessions and the endpoints as classes; every method is proved to take the step of the transition system |
| `Service.dfy` | many connections through one filter and one router, interleaved between any two accesses to shared counters |
| `Text.dfy` | find, split, join, `to_collection` |
| `IssueReport.dfy` | rows from CSV lines with repeated headers, CVE labels |
| `DockerEnv.dfy` | reading servers, sorting by address, generating files |
| `Parameters.dfy` | parameter dictionaries |

A `RouterSession` object carries a ghost `model` of type `RouterState.Session`, the state `start` it began in and the
`trace` of what has happened to it. `Valid()` ties each field and each endpoint to the model and says that `start` is an
`Initial` state and that, until the object is destroyed, `model == Exec(start, trace)`. `RouteQuery`, `ClientReply` and
`HandleError` each extend the trace by one event and keep `Valid()`. So the theorems about `Exec` hold of the model of any
object after any sequence of calls.

A session records, besides the router's own fields, the statements handed to it (`seen`), the accepted requests with
their target backends (`requests`; the k-th accepted request has id k), the statement that was refused and ended the
session, with the backends that took it all the same (`refused`), the ids of the replies the client got (`forwarded`),
how many replies died with a closed backend (`lost`), and whether the addition to the `m_replies_to_ignore` counter ever
exceeded 32 bits (`overflowed`). Each backend has its log and its queue of replies on their way. Statements about logs
hold in every reachable state, those of ended sessions included.

## Assumptions about the surroundings

- A backend answers each statement it has taken with one reply, in order; COM_QUIT gets none. This is what
  `RCAP_TYPE_RESULTSET_OUTPUT` asks for (`examples/roundrobinrouter.cpp:156`).
- An endpoint that is closed, or whose `routeQuery` returns false, has delivered nothing
  (`server/core/server.cc:1262-1330`). Whether an open endpoint takes a statement is an arbitrary input.
- A session ends when `routeQuery` returns false, when COM_QUIT was accepted, or when the base `handleError` is
  reached because no backend is open. Nothing is sent to or reported to a session that has ended, until it is
  destroyed; the methods of `RouterSession` ask for this as `model.live`.
- Replies of a backend that closes are lost.
- The endpoints of a session are distinct and fewer than 2^31, the range of the `int` counters of the broadcast loop.
- The type mask of a COM_QUERY is an arbitrary 32-bit value.

## Results that differ from a first reading of the code

- The comment at the head of the router says that session operations go to all slaves and the master. The router tests
  the write bits, the transaction and the read bits before the session bits, so a session statement that also writes,
  falls in a transaction or reads goes to one backend. The classifier sets these bits independently of each other, so a
  select that assigns a user variable has a read bit and a session bit
  (`server/modules/parser_plugin/pp_sqlite/pp_sqlite.cc:874-876`).
  `SessionWriteIsBalanced` is a run in which two read backends then differ. `SessionStatementsAgreeIff` and
  `ReadersAgreeIff` say exactly when open backends hold the same session statements. `KindsFollowHistory` says which
  statements are diverted in terms of what the client sent, and `ReadersAgreeIffNoSessionReads` gives the condition a
  client can keep to: send no session statement that is routed as a balanced read.
- The router assumes, in a comment, that the client waits for its answers. `PipeliningMismatch` shows that without
  this a client can get the reply to another request. `AllDrainsMatchIffSafe` and `PipelineIffOneBackend` give the
  exact condition: a statement sent while requests are open keeps replies matched for every arrival order exactly when
  it goes to one backend and no other backend owes a reply. `AlwaysMatchesIffDisciplined` says the same of whole runs.
- `handleError` does not adjust the counter of replies to ignore. `FailureStrandsClient` shows the consequence;
  `AnswerableIffNothingLost` says exactly when the open request of a waiting client can still be answered.
- Every window of balanced reads is fair exactly when the number of candidates divides 2^32, because the counter wraps.
  `AllWindowsFairIffDividing` says so of the counter and `SessionWindowsFairIffDividing` of the runs of a session;
  `UnfairRun` gives the run, with a client that waits for every answer.
- The comment at the head of the router says that the master can be in the slave list and take its turn. The code
  never balances a read to the write backend (`Placement`); the model follows the code.
- The router reads `max_backends` but never uses it, so no result depends on it.
- `server_list` is the join of the server names exactly when there is at most one server or the first name is not empty
  (`ServerListIff`).
- `to_collection` followed by a join, and the other way round, are inverse exactly under the conditions of
  `CollectJoinIff`; with a delimiter of several characters it is not enough that the parts do not contain it
  (`LongDelimiterFindsMore`).

## Model

| member | source | states |
|---|---|---|
| `QueryTypes.MaskTests` | examples/roundrobinrouter.cpp:66-80 | each grouped mask test is a test on the set of flags the mask stands for |
| `QueryTypes.MaskRoutingRefinesTable` | examples/roundrobinrouter.cpp:518-561 | for every mask and state the bit tests choose the row of the table write, transaction, balanced read, broadcast, reject, and follow begin and end as the flags say |
| `QueryTypes.QueryIsItsMask` | examples/roundrobinrouter.cpp:484-488 | a COM_QUERY is classified by the flags its mask stands for, group by group |
| `QueryTypes.QueryRoutingRefinesTable` | examples/roundrobinrouter.cpp:484-561 | for every COM_QUERY and state the row of the table that its flags choose decides |
| `QueryTypes.SingleBits` | include/maxscale/parser.hh:33-57 | what a COM_QUERY with a single bit is, bit by bit |
| `QueryTypes.CommandRules` | examples/roundrobinrouter.cpp:479-516 | COM_INIT_DB and COM_QUIT are broadcast, COM_FIELD_LIST is balanced, other commands are rejected, unless a transaction is pinned |
| `RouterState.CandidatesAreExact` | examples/roundrobinrouter.cpp:541-549 | the candidate list is exactly the open backends other than the write backend, in order |
| `RouterState.CandidateIff` | examples/roundrobinrouter.cpp:541-549 | a backend is a candidate exactly if it is open and not the write backend |
| `RouterState.DecideOne` | examples/roundrobinrouter.cpp:518-555 | a single target is the write backend or, for a statement without write bit, a candidate |
| `RoundRobinRouter.Endpoint.Connect` | server/core/server.cc:1159-1200 | an endpoint is open after connecting exactly when the connection came up |
| `RoundRobinRouter.Endpoint.Close` | server/core/server.cc:1202-1238 | closing loses the replies on their way and keeps the log |
| `RoundRobinRouter.Endpoint.RouteQuery` | server/core/server.cc:1262-1296 | a statement is delivered exactly when the endpoint is open and takes it; otherwise nothing changes |
| `RoundRobinRouter.Router.ConnectAll` | examples/roundrobinrouter.cpp:247-258 | every endpoint is connected once, the write backend is the last endpoint of the write server |
| `RoundRobinRouter.Router.NewSession` | examples/roundrobinrouter.cpp:241-271 | a session exists exactly when some endpoint connected; it is at the start of its trace, in an initial state |
| `RoundRobinRouter.Router.Record` | examples/roundrobinrouter.cpp:378-386 | one of the two routing statistics moves by one modulo 2^64, the other and the reply statistics do not |
| `RoundRobinRouter.RouterSession.constructor` | examples/roundrobinrouter.cpp:433-444 | the new object shows its initial model, with all counters at zero and nothing in its trace |
| `RoundRobinRouter.RouterSession.ReadCandidates` | examples/roundrobinrouter.cpp:541-549 | the loop collects exactly the candidates of the model, in order |
| `RoundRobinRouter.RouterSession.NextReader` | examples/roundrobinrouter.cpp:551-554 | the candidate the counter picks, and the counter moved by one modulo 2^32; nothing without candidates |
| `RoundRobinRouter.RouterSession.TrackTransaction` | examples/roundrobinrouter.cpp:525-537 | the flag after the statement, and whether the statement falls in a transaction |
| `RoundRobinRouter.RouterSession.DecideTarget` | examples/roundrobinrouter.cpp:518-561 | target, broadcast flag, counter and transaction flag are those of the model's decision |
| `RoundRobinRouter.RouterSession.Broadcast` | examples/roundrobinrouter.cpp:353-367 | exactly the open endpoints that take the statement receive it; both counts are the sizes of the two sets |
| `RoundRobinRouter.RouterSession.SendTo` | examples/roundrobinrouter.cpp:334-344 | one endpoint receives the statement or none changes |
| `RoundRobinRouter.RouterSession.Send` | examples/roundrobinrouter.cpp:334-377 | endpoints, counter and result after sending to one, to all or to none |
| `RoundRobinRouter.RouterSession.RouteOpen` | examples/roundrobinrouter.cpp:328-377 | the object takes the model's step for this statement, notes it in its trace and keeps `Valid`; the result says whether the request was accepted |
| `RoundRobinRouter.RouterSession.RouteQuery` | examples/roundrobinrouter.cpp:321-388 | the step of the model, noted in the trace, or none when closed; success exactly when the session is not closed, there is a destination and all destinations are open and take the statement; one statistics counter moves by one |
| `RoundRobinRouter.RouterSession.ClientReply` | examples/roundrobinrouter.cpp:400-421 | the oldest reply of the backend goes to the client exactly when the counter is zero, otherwise the counter goes down; the reply statistics move exactly with forwarded replies |
| `RoundRobinRouter.RouterSession.HandleError` | examples/roundrobinrouter.cpp:423-431 | the failed endpoint is closed with its log kept; the session goes on while a backend is open, otherwise the base class decides |
| `RoundRobinRouter.RouterSession.Destroy` | examples/roundrobinrouter.cpp:446-468 | every endpoint is closed with its log as it was, what was on its way is lost, and nothing else of the history changes |
| `RoundRobinRouter.RouterSession.CloseAll` | examples/roundrobinrouter.cpp:456-462 | the loop closes every endpoint and keeps its log |
| `RouterState.ShutEffect` | examples/roundrobinrouter.cpp:446-468 | what destroying does to the model: all backends closed, what was on its way lost, everything else as it was |
| `RouterInvariants.ShapeRun` | examples/roundrobinrouter.cpp:423-431 | over any run backends only close, a dead session stays dead, a live one has an open backend, counters stay in range |
| `RouterInvariants.LiveSessionHasOpenBackend` | examples/roundrobinrouter.cpp:353-370 | in every reachable live state an accepted broadcast has at least one target, so the unsigned addition never goes below zero |
| `RouterInvariants.RouteSends` | examples/roundrobinrouter.cpp:334-371 | an accepted statement is appended to the log and queue of exactly its destinations |
| `RouterInvariants.RouteReceives` | examples/roundrobinrouter.cpp:334-376 | accepted or refused, a statement is logged by exactly the backends that take it, and they owe its reply |
| `RouterInvariants.AcceptedIff` | examples/roundrobinrouter.cpp:334-387 | a statement is accepted exactly when it has a destination and every destination is open and takes it; accepted, it ends the session only if it is COM_QUIT, refused, it always does |
| `Fairness.NextStatement` | examples/roundrobinrouter.cpp:479-561 | in every reachable state, by what the client has sent: when the next statement is accepted, which backends it then goes to, and whether the session lives on |
| `RouterInvariants.ReplyEffect` | examples/roundrobinrouter.cpp:402-414 | a reply takes the oldest id off its backend's queue; the client gets it exactly when no reply is to be ignored, otherwise there is one less to ignore |
| `RouterInvariants.ErrorEffect` | examples/roundrobinrouter.cpp:423-431 | a failure closes its backend, keeps its log and loses what it owed; the others are as they were, and the session lives exactly if one of them is open |
| `RouterInvariants.FailedBackendIsDone` | examples/roundrobinrouter.cpp:428 | whatever happens after a failure, the backend stays closed, receives nothing and answers nothing |
| `RouterInvariants.BroadcastFanOut` | examples/roundrobinrouter.cpp:356-369 | the replies a broadcast puts on their way are as many as the backends that took it |
| `RouterInvariants.ReplyConservationModulo` | examples/roundrobinrouter.cpp:353-371 | for every interleaving with pipelining and failures, the counter equals replies on their way plus lost minus owed, modulo 2^32 |
| `RouterInvariants.ReplyConservation` | examples/roundrobinrouter.cpp:402-414 | without counter overflow the law is exact; the client never gets more replies than accepted requests, and a drained session without losses has answered every request |
| `RouterInvariants.ShortRunsDoNotOverflow` | examples/roundrobinrouter.cpp:369 | the counter cannot overflow while the length of the run times the number of backends is below 2^32 |
| `RouterInvariants.LogsAreProjections` | examples/roundrobinrouter.cpp:334-376 | in every reachable state each backend's log is exactly its share of what was offered, which is everything the client sent: the accepted requests and at most one refused statement |
| `RouterInvariants.SessionCommandAgreement` | examples/roundrobinrouter.cpp:356-367 | every open backend has received exactly the whole sequence of broadcast requests, each by its id, and after it the refused one if it took it |
| `RouterInvariants.SessionStatementsAgreeIff` | examples/roundrobinrouter.cpp:518-560 | any two open backends hold the same statements with a session bit exactly when neither got one that was not broadcast and both or neither took the refused one |
| `RouterInvariants.ReadersAgreeIff` | examples/roundrobinrouter.cpp:539-560 | with two read backends open, all of them hold the same session statements exactly when none was given one as a balanced read and all or none took the refused one |
| `RouterInvariants.ReadersAgreeIffNoSessionReads` | examples/roundrobinrouter.cpp:518-560 | the same by what the client sent: exactly when no accepted session statement that the write, transaction and read tests make a balanced read went to a backend still open; if no used read backend has closed, exactly when the client sent none |
| `RouterInvariants.SessionPartsIff` | examples/roundrobinrouter.cpp:539-560 | two shares of one history have the same session part exactly when each session statement went to both or to neither |
| `RouterInvariants.ReadBackendsAgree` | examples/roundrobinrouter.cpp:557-560 | under that condition two open read backends reach the same session state by replaying their logs, for every effect of each single statement of the client on that state, as long as balanced statements without session bit have none |
| `RouterInvariants.Placement` | examples/roundrobinrouter.cpp:518-560 | in every reachable state statements with a write bit are only in the write backend's log, balanced reads never, and no log holds a request twice |
| `RouterInvariants.SingleRoutingIsUnique` | examples/roundrobinrouter.cpp:334-344 | an accepted statement that was not broadcast is in exactly one log |
| `RouterInvariants.LogLengthsSum` | examples/roundrobinrouter.cpp:334-376 | the log lengths add up to one per single routing, one per broadcast target and one per backend that took the refused statement |
| `RouterInvariants.KindsFollowHistory` | examples/roundrobinrouter.cpp:518-560 | how each accepted statement was routed follows from what the client had sent up to it |
| `RouterInvariants.TransactionFlagIsHistory` | examples/roundrobinrouter.cpp:518-537 | in every run the flag says that some statement without write bit opened a transaction that none has closed |
| `RouterInvariants.TransactionIsPinned` | examples/roundrobinrouter.cpp:525-537 | with a write backend, every statement from a begin to the next end is in the write backend's log and in no other; a refused one is in none |
| `RouterInvariants.PinnedStepFrame` | examples/roundrobinrouter.cpp:518-533 | routing in a transaction changes neither counter and no other backend |
| `ReplyMatching.WaitingClientGetsMatchingReplies` | examples/roundrobinrouter.cpp:402-414 | in every run of a waiting client, with any failures and arrival order, the k-th reply answers the k-th request; the counter stays below the number of backends, and an answered client leaves nothing on its way or to ignore |
| `ReplyMatching.AnswerableIffNothingLost` | examples/roundrobinrouter.cpp:423-431 | the open request of a waiting client can be answered exactly when no reply was lost; after a loss no continuation answers it |
| `ReplyMatching.AllDrainsMatchIffSafe` | examples/roundrobinrouter.cpp:402-414 | exact condition on the queues under which every arrival order gives each open request its own reply |
| `ReplyMatching.PipelineIffOneBackend` | examples/roundrobinrouter.cpp:404-407 | sending while requests are open keeps every arrival order matching exactly when the statement goes to one backend and no other owes a reply |
| `ReplyMatching.DisciplinedClientGetsMatchingReplies` | examples/roundrobinrouter.cpp:404-407 | in every run that follows that condition and loses nothing, all replies so far and to come match |
| `ReplyMatching.AlwaysMatchesIffDisciplined` | examples/roundrobinrouter.cpp:404-407 | for every run without loss or overflow, every arrival order matches at every moment exactly when each statement the session outlives follows that condition |
| `Witnesses.SessionWriteIsBalanced` | examples/roundrobinrouter.cpp:539-560 | a select that assigns a user variable, as it is classified, goes to one of two read backends, which then differ |
| `Witnesses.PipeliningMismatch` | examples/roundrobinrouter.cpp:404-407 | a run of classified statements in which the first request gets the second reply |
| `Witnesses.FailureStrandsClient` | examples/roundrobinrouter.cpp:428-429 | a run of classified statements in which a failure in mid-broadcast leaves the client without an answer |
| `RoundRobin.WindowIsFair` | examples/roundrobinrouter.cpp:553 | a window below the wrap, or any window when n divides 2^32, picks each of n candidates k/n times rounded down or up |
| `RoundRobin.CrossingWindowSpread` | examples/roundrobinrouter.cpp:553 | a window of at most 2^32 reads keeps two candidates within 2 |
| `RoundRobin.UnfairWindow` | examples/roundrobinrouter.cpp:553 | for every n that does not divide 2^32, the counter values around the wrap with spread 2 |
| `RoundRobin.AllWindowsFairIffDividing` | examples/roundrobinrouter.cpp:553 | every window of counter values is fair exactly when n divides 2^32 |
| `Fairness.FairUnderFailures` | examples/roundrobinrouter.cpp:539-555 | over any run, ended or not, the lead of one open read backend over another is bounded by the candidates that closed and the wraps; within n - 1 without a wrap |
| `Fairness.WindowReads` | examples/roundrobinrouter.cpp:539-555 | while no candidate closes, and even if the session ends, each candidate serves exactly the reads whose counter value picks it |
| `Fairness.WindowFairness` | examples/roundrobinrouter.cpp:539-555 | window fairness of any stretch of any run with unchanged candidates, ended or not |
| `Fairness.UnfairRun` | examples/roundrobinrouter.cpp:539-555 | every new session whose number of candidates does not divide 2^32 can reach a window in which one candidate serves two reads and another none, with a waiting client and no failure |
| `Fairness.SessionWindowsFairIffDividing` | examples/roundrobinrouter.cpp:539-555 | for every new session, all windows of all runs with unchanged candidates, ended or not, are fair exactly when their number divides 2^32 |
| `Service.FilterTotals` | examples/examplefiltersession.cc:46-61 | for every interleaving the filter's totals are the sums of the sessions' counts less the sessions between their two increments, or zero if it is not to count |
| `Service.QueryGoesThrough` | examples/examplefiltersession.cc:46-53 | a query of an idle connection goes through filter and router: one step of the session, one query counted, one routed or failed recorded |
| `Service.ReplyGoesThrough` | examples/examplefiltersession.cc:55-61 | a forwarded reply is counted by filter and router, an ignored one by neither |
| `Service.OtherMoves` | examples/roundrobinrouter.cpp:423-431 | a new session and a failing backend concern no counter |
| `Service.FilterAgreesWithRouter` | examples/examplefilter.cc:130-144 | at rest the filter's totals equal the router's statistics, in their word sizes |
| `Service.RouterStatistics` | examples/roundrobinrouter.cpp:378-386 | for any number of interleaved sessions routed plus failed counts the finished calls, the reply statistics count the forwarded replies that were recorded, and replies never exceed routed queries while no counter wraps |
| `Text.JoinSplit` | system-test/local_address.cc:31-46 | joining the parts of a string gives it back |
| `Text.PartsAreFree` | system-test/local_address.cc:36-40 | no part contains the delimiter |
| `Text.SplitJoinIff` | system-test/local_address.cc:36-40 | splitting a join gives the parts back exactly when they are separable |
| `Text.OneCharacterSeparable` | system-test/local_address.cc:36-40 | for a one-character delimiter separable means that no part contains it |
| `Text.ToCollection` | system-test/local_address.cc:31-46 | terminates and appends the parts, without a last part that is empty |
| `Text.JoinCollected` | system-test/local_address.cc:31-46 | the collected parts contain no delimiter and join to the string up to one trailing delimiter |
| `Text.CollectJoinIff` | system-test/local_address.cc:42-45 | collecting a join gives the parts back exactly when they are separable and the last is not empty |
| `Text.LongDelimiterFindsMore` | system-test/local_address.cc:36-40 | parts that do not contain a delimiter of two characters and still do not come back |
| `IssueReport.RowByColumns` | Documentation/process.py:49-50 | a row has a field exactly if the line reaches a column with that header; its value is the comma-join of the cells under the last stretch of such columns |
| `IssueReport.RowOfOneColumn` | Documentation/process.py:49-50 | a field with one column has the cell of that column |
| `IssueReport.FindCves` | Documentation/process.py:11-25 | the loops list, issue by issue, the labels that start with CVE- |
| `IssueReport.AddCves` | Documentation/process.py:18-23 | the inner loop appends one entry for each such label, in order |
| `IssueReport.CveFoundIff` | Documentation/process.py:11-25 | an entry is found exactly if its issue is among the issues and its id is a label of it that starts with CVE- |
| `IssueReport.RowCves` | Documentation/process.py:15-23 | joining the label cells and splitting them again finds the CVEs of the cells themselves |
| `IssueReport.RowCvesAreCells` | Documentation/process.py:46-50 | with adjacent label columns and no comma in a label, exactly the label cells starting with CVE-, in order, with duplicates |
| `IssueReport.ReadIssues` | Documentation/process.py:46-57 | the three lists are the built rows of each type, in order; a line without issue type is an error |
| `IssueReport.ReportedCves` | Documentation/process.py:59-71 | for every export the CVEs found for a type are the CVE labels of that type's lines, in order, each with the row of its line |
| `DockerEnv.ReadServers` | script/make-docker-env.py:126-133 | the servers are the server sections in order, numbered from 0; a missing address is an error |
| `DockerEnv.ServerSectionsIff` | script/make-docker-env.py:129-131 | the sections read are exactly those whose type is server |
| `DockerEnv.SortOrders` | script/make-docker-env.py:183 | sorting orders the servers by address and keeps their number |
| `DockerEnv.LeIsLexicographic` | script/make-docker-env.py:183 | the order of the addresses is that of their first difference, a prefix first |
| `DockerEnv.SortKeepsGroups` | script/make-docker-env.py:183 | sorting keeps, for each address, its servers in configuration order |
| `DockerEnv.OutDir.OpenFile` | script/make-docker-env.py:244-278 | a new file is created empty; an existing one is an error and changes nothing |
| `DockerEnv.OutDir.StartDockerFile` | script/make-docker-env.py:222-226 | the compose file of an unseen address is started, or was there from the start |
| `DockerEnv.OutDir.FinishDockerFile` | script/make-docker-env.py:234-239 | called with the join of the roles at the address, it creates exactly the SQL files that the address needs |
| `DockerEnv.OutDir.AddServer` | script/make-docker-env.py:197-214 | the server is listed once and its role is joined to the host's |
| `DockerEnv.OutDir.SwitchHost` | script/make-docker-env.py:191-195 | the finished address has all its files and the next one its compose file, or a needed file was there from the start |
| `DockerEnv.OutDir.WriteServer` | script/make-docker-env.py:190-214 | one more server is written at its address, with the files of the address before finished if it changed, or a needed file was there from the start |
| `DockerEnv.OutDir.WriteHosts` | script/make-docker-env.py:185-216 | for servers ordered by address, exactly the files they need, or a needed file was there from the start |
| `DockerEnv.OutDir.GenerateFiles` | script/make-docker-env.py:181-216 | an error exactly when there is no server or a needed file was there; otherwise exactly the files needed by the servers grouped by address, each compose file listing its servers in configuration order, each server with its name, SQL volume, id from 1000 on and port |
| `DockerEnv.ListedIsServer` | script/make-docker-env.py:205-214 | whatever a generated compose file lists is a server at its address |
| `DockerEnv.OneMasterHost` | script/make-docker-env.py:198-203 | a compose file for exactly the addresses of the servers, master SQL on exactly the host of server 0, slave SQL on exactly the hosts of the other servers |
| `DockerEnv.ServerIdsAreUnique` | script/make-docker-env.py:213 | across all compose files a server id belongs to one server |
| `DockerEnv.NamesAreDistinct` | script/make-docker-env.py:244-270 | files that differ in kind or address have different path names |
| `Parameters.DecimalRoundTrip` | script/make-docker-env.py:295 | a decimal index determines the number |
| `Parameters.KeysAreDistinct` | script/make-docker-env.py:284-305 | no two dictionary keys collide |
| `Parameters.ServerListIff` | script/make-docker-env.py:288-293 | the server list is the join of the names exactly when there is at most one or the first is not empty |
| `Parameters.CreateParameterDicts` | script/make-docker-env.py:283-307 | in both dictionaries every key looks up its own server's value, local values as configured and test placeholders counted from 1, and there is nothing else |

## Left out

- The query classifier, buffers, DCBs and the endpoint's own connection states: type masks and whether an endpoint takes a statement are arbitrary inputs.
- Base-class behaviour beyond the assumptions above, in particular how an ended session is torn down.
- A `clientReply` that carries only part of a result: the router asks for complete results.
- RoundRobinRouter.Endpoint.RouteQuery: does not model pooled connections; there a failed reconnect closes the endpoint, and a statement can wait for a connection. The router ends the session after such a failure.
- Overflow of the filter sessions' own `int` counters, which is undefined in C++; they are unbounded here.
- The filter as classes: its two methods are modelled as the separate increments of `Service.Next`, so that other threads can run between them.
- Log messages, diagnostics, configuration specification, module registration and the example module command.
- `ltrim`, `rtrim`, `trim` and `extract_ip` in system-test/local_address.cc: easy members.
- An empty delimiter in `to_collection`, on which the original does not terminate.
- File permissions, directory creation, YAML and SQL text, prompts, and the rewriting of the configuration template in script/make-docker-env.py; parsing of a port number.
- File system aliases of a path such as `a` and `./a`: addresses are compared as strings, as the script compares them.
- Printing of the release notes, and CSV parsing.
- Everything else in the repository: other routers, filters, monitors, protocols, system tests and user interfaces.
