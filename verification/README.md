# fap2-srv: sessions, proxies and iteration

fap2-srv lets a client work on a model that lives in a server. A client sends "context call" as one
line of text; the context is a handle, and each connection's session keeps a table from handles to
interfaces. On the client side a tree of proxies stands for the model's nodes, each proxy holding one
handle. This project models that server as a state machine over all interleavings of its threads, the
text protocol between the two ends, the proxies, and the two loops of the remote agents, and proves
what holds over every run.

- `Wire.dfy`: framing, the fixed buffers at both ends, replies.
- `Sessions.dfy`: sessions as values and what one message does to them.
- `SessionClient.dfy`: `SessionClient` as objects with pointers, and the static vector, proved against `Sessions`.
- `Server.dfy`: the accepting thread and the handlers, mutex included, with the invariant and its preservation.
- `Runs.dfy`, `Ownership.dfy`, `Order.dfy`, `Ids.dfy`: the registry, ids and mutex over runs; when a session finds its
  own entry; the order of the entries; sequences of ids.
- `Histories.dfy`, `Locality.dfy`, `Scenarios.dfy`: what stays, changes and is answered over runs; what a message
  depends on; concrete runs.
- `Overlap.dfy`, `Interleaved.dfy`: CreateEnv calls on one provider that overlap, access by access, by themselves and
  in runs of the whole server.
- `Remote.dfy`, `Answers.dfy`, `Connection.dfy`, `Attachment.dfy`: one remote call from end to end; what each request
  is answered; a client's calls within a run of the whole server; sharing an environment by id.
- `Proxies.dfy`, `MelemPx.dfy`: the proxy forest as values; `MelemPx` and `ARenv` as objects.
- `Walk.dfy`, `Tree.dfy`, `Reading.dfy`, `RemoteRoot.dfy`: in every run of the server, walks and trees of proxies
  against those on the model, names and contents read through them, and the remote root of a connection.
- `EndToEnd.dfy`: from a fresh session, through the mutations, to walks and trees from the remote root.
- `Children.dfy`, `Mutations.dfy`: child iteration; mutation dispatch.

Sessions and proxies are named by their order of construction, which stands for their address: neither
kind of object is ever freed while it is in use. A message is handled in one step, as is the registry
scan inside `AttachEnv`; everything done under the mutex is stepped statement by statement. A receive
error leaves a handler where it is and is no step of its own.

What the libraries outside the repository do is a parameter: calls on model interfaces, parsing of call
specifications, construction of environments, and conversion of numbers. The `Library` may differ from
message to message; only uids are fixed. Assumed of uids (`UidsOk`): non-empty, without a space, and
different from "EnvProvider" and "MEnv#0"; where the text of a uid has to arrive (`UidsTravel`),
NUL-free and at most 510 characters. Walks assume that a remote GetNode returns an interface or throws;
the remote root, that "Root" does, and that no uid is the first word of an error text; both, that one
library serves all the messages of the session. A connection of proxies is served by a run (`ServedBy`)
when its answers are those the run gives to the session; every run serves some connection
(`SomeService`), and a call that arrives can always be the next of the session (`CallCanBeMade`).

Where a property fails, the code is kept and the condition is proved:

- Ids are the size of the registry and so repeat: `IdsRepeat` reaches two served sessions with id 1, and
  `LeaverErasesAnother` continues with a leaver erasing the other's entry. A leaver erases its own entry,
  and an attach by id reaches the session that was told it, exactly when that session has an entry and
  none before it has the same id (`LeaverErasesItselfIff`, `AttachByGivenId`). It is so for every
  registered session all through a run exactly when no number is given that an entry has by then
  (`SettledRunIff`). The ids are 0..n-1 all through a run exactly when every leaver holds the largest
  (`CoveredRunIff`); a run that breaks this may come back to it, if only by emptying the registry.
- The server dies exactly when a model call returns an interface that the requester has registered
  before (`KilledIff`); `SecondRootKills` is a run in which it does. So a walk that comes to the same
  node twice ends it, and no walk ever finds a handle in a proxy's cache.
- A request arrives whole exactly when it is NUL-free and below 231 characters, a reply exactly when it
  is NUL-free and at most 510.
- A session attached elsewhere registers what it is returned in its own table but looks in the other's
  (`RootThroughAttachment`).
- A session's environment need not be bound: the member is assigned before the construction can throw,
  as in the run of `UnboundReached`.
  It is bound exactly when the construction that made it was completed (`ConstructionBinds` for one
  message, `EnvironmentOrigin` for every later state of a run).
- Two CreateEnv calls that overlap on one provider can both assign an environment, whenever two sessions
  look in a provider without one (`RivalsReplace`). There is only one, whatever the interleaving, exactly
  when at most one call has yet to assign, or there is one already and no call has passed its test
  (`SingleEnvironmentIff`); so it is in every run of the server in which the calls on one provider do
  not overlap (`ApartSingle`).
- The node relation of `CompsIter` compares the name and then overwrites the result: where there is a
  root, it gives what is asked for exactly when the name happens to be right (`NodeRelationIff`).
- The iterator comparison never reports the end of the children (`NeverEqualsEnd`), although a begin and
  an end function are offered as a pair.

## Model

| member | source | states |
|---|---|---|
| Wire.ParseFramed | server/sclient.cpp:79-92 | a framed request is taken apart into exactly the context and arguments sent if and only if the context is non-empty and has no space |
| Wire.ParseFramedText | server/sclient.cpp:79-92 | an arbitrary text used as context is cut at its first space, what follows it joining the arguments; a leading space makes the context missing |
| Wire.CStringCut | server/sclient.cpp:213-215 | what stands before the first terminator is all that is taken over |
| Wire.ReceivedWhole | server/sclient.cpp:181-216 | a message reaches the handler unchanged if and only if it is NUL-free and at most 230 long |
| Wire.ReplyTransparent | client/bclient.cpp:57-68 | a reply is decoded as sent if and only if its text is NUL-free and at most 510 long; the success flag always arrives |
| Wire.EncodedIs | server/sclient.cpp:116-128 | a reply is sent as its code, one space and its text |
| Wire.ReceiveMessage | server/sclient.cpp:193-216 | clearing the buffer, receiving and copying yields the text up to the first terminator, or none exactly when 231 characters without one come |
| Wire.ReadReply | client/bclient.cpp:57-68 | the client's buffer and assignment yield the flag of the first character and the text from the third on, at most 510 of it, or none exactly when the read is too short to assign |
| Wire.FrameRequest | client/bclient.cpp:71-77 | what is sent for a context and arguments is parsed back into them if and only if the context is non-empty and has no space |
| Sessions.FindById | server/sclient.cpp:227-244 | the first registry entry with the id, or one past the end when none has it |
| Sessions.HandleFramed | server/sclient.cpp:76-114 | a framed request with an admissible context is dispatched with context and arguments as sent |
| Sessions.HandleFrame | server/sclient.cpp:76-114 | a message changes nothing, or registers one uid in its own session's table, or sets the environment (and its handle) or the attachment of the session it looks in; it goes wrong only if that session has no number yet |
| Sessions.ProviderFrame | server/sclient.cpp:299-330 | a provider call never returns an interface, and changes at most the environment or the attachment of its session |
| Sessions.FrameKeepsTables | server/sclient.cpp:246-264 | such changes keep every table either empty or with its own provider, its own environment, and interfaces under their uid |
| SessionObjects.SessionClient.constructor | server/sclient.cpp:25-30 | a new session has no environment, no attachment and an empty table |
| SessionObjects.SessionClient.AddContext | server/sclient.cpp:246-253 | binds a fresh handle and nothing else, or refuses and changes nothing |
| SessionObjects.SessionClient.GetContext | server/sclient.cpp:255-264 | finds what `Sessions.Lookup` finds from all sessions, and never a session unknown to the server |
| SessionObjects.SessionClient.CreateEnv | server/sclient.cpp:152-175 | the in-place version does what `Sessions.CreateEnv` says to all sessions, in each of its endings |
| SessionObjects.SessionClient.AttachEnv | server/sclient.cpp:273-285 | the in-place version does what `Sessions.AttachEnv` says to all sessions |
| SessionObjects.SessionClient.Call | server/sclient.cpp:299-330 | the in-place dispatch on the method name does what `Sessions.ProviderCall` says, and never returns an interface |
| SessionObjects.SessionClient.PerformOnModel | server/sclient.cpp:96-111 | calling a model and registering the result outside the try block, with the death of the server when the uid is taken |
| SessionObjects.SessionClient.PerformOn | server/sclient.cpp:96-111 | the call on either kind of interface ends as `Sessions.Perform` says |
| SessionObjects.SessionClient.HandleMessage | server/sclient.cpp:76-114 | one message changes the sessions and is answered as `Sessions.Handle` says |
| SessionObjects.SessionServer.Accept | server/sclient.cpp:25-26 | construction appends one fresh session and leaves the others and the registry alone |
| SessionObjects.SessionServer.Install | server/sclient.cpp:29-29 | the end of the constructor binds the session as its own provider, or throws, exactly when the handle is taken, and changes nothing |
| SessionObjects.SessionServer.FindSessionClientIndex | server/sclient.cpp:227-233 | the loop returns the first index with the client's number, or -1 if and only if there is none |
| SessionObjects.SessionServer.FindSessionClientById | server/sclient.cpp:236-244 | the loop returns the first registered client with the id, or null |
| SessionObjects.SessionServer.Register | server/sclient.cpp:185-192 | the client is given the size of the registry as number and appended; nothing else changes |
| SessionObjects.SessionServer.Unregister | server/sclient.cpp:201-206 | exactly the first entry with the client's number is erased, and every other entry keeps its place or moves up by one; no session changes |
| Server.LeaverFindsEntry | server/sclient.cpp:201-205 | a registered session's lookup succeeds, from the equality of the two multisets of ids |
| Server.StepFrame | server/sclient.cpp:178-221 | a step moves no other thread, and only lock and unlock events move the mutex |
| Server.StepSessions | server/sclient.cpp:25-36 | the complete list of what a step may do to the sessions |
| Server.IdKeptInside | server/sclient.cpp:185-206 | critical sections keep numbers set, the entry found valid, and never go out of range |
| Server.CountKeptPush | server/sclient.cpp:187-191 | registering adds the same id to the registry's multiset and to that of the registered sessions |
| Server.CountKeptErase | server/sclient.cpp:201-205 | erasing removes the same id from both, even when the entry is another session's |
| Server.HoleKeptPush | server/sclient.cpp:187-191 | a number taken from the registry's size never fills the hole below a repeated or abandoned larger id |
| Server.HoleKeptErase | server/sclient.cpp:201-205 | an entry left behind by an erase has a missing id below it |
| Server.MessageReadsNumber | server/sclient.cpp:157-167 | no message ever reads a session number that is not set |
| Server.StepKeepsInv | server/sclient.cpp:178-221 | every step of every thread keeps the whole invariant |
| Server.ReachableInv | server/sclient.cpp:178-221 | every state of every run satisfies the invariant |
| ServerRuns.TraceStep | server/sclient.cpp:178-221 | consecutive states of a run are related by the enabled event between them, and satisfy the invariant |
| ServerRuns.RegistryConserved | server/sclient.cpp:185-208 | in every interleaving the ids in the registry are, as a multiset, those of the registered sessions; a leaver's lookup never fails and nothing undefined happens |
| ServerRuns.RegistrationSteps | server/sclient.cpp:185-192 | the statements of the first critical section together do what `Register` does |
| ServerRuns.ErasureSteps | server/sclient.cpp:201-206 | the statements of the last critical section together do what `Unregister` does, order included, or corrupt the vector when no entry has the number |
| ServerRuns.CoveredIdsAttach | server/sclient.cpp:273-285 | while the ids cover 0..n-1, attaching by id succeeds if and only if the id is below n, and reaches the only registered session with it |
| ServerRuns.ConnectKeepsCover | server/sclient.cpp:187-191 | connecting keeps the ids a permutation of 0..n-1 |
| ServerRuns.LeaveKeepsCoverIff | server/sclient.cpp:201-205 | leaving keeps it if and only if the leaver holds id n-1 |
| ServerOwnership.CoveredRunIff | server/sclient.cpp:187-205 | the ids cover 0..n-1 in every state of a run if and only if every leaver of the run holds the largest id |
| ServerOwnership.FindsItselfIff | server/sclient.cpp:227-233 | a registered session's lookup finds its own entry if and only if it has one and none before has the same id |
| ServerOwnership.LeaverErasesItselfIff | server/sclient.cpp:201-205 | a leaver takes exactly its own entry out of the registry if and only if the same holds |
| ServerOwnership.SettledIffTidy | server/sclient.cpp:227-233 | every registered session finds itself if and only if the registry lists exactly the registered sessions, under different ids |
| ServerOwnership.CoveredIsSettled | server/sclient.cpp:201-205 | while the ids cover 0..n-1 every registered session finds its own entry |
| ServerOwnership.PushKeepsDistinctIff | server/sclient.cpp:187-191 | connecting keeps the ids different if and only if the registry's size is not among them |
| ServerOwnership.StepKeepsTidyIff | server/sclient.cpp:185-206 | a step of any thread keeps such a registry so if and only if it does not append a session under an id in use |
| ServerOwnership.SettledRunIff | server/sclient.cpp:185-206 | every session finds itself in every state of a run if and only if no number given in the run is in use when it is appended |
| ServerOrder.NeverReturns | server/sclient.cpp:185-206 | over every stretch of every run, an entry once taken out of the registry never comes back |
| ServerOrder.OrderLasts | server/sclient.cpp:201-205 | of two entries that stay, the one ahead stays ahead |
| ServerOrder.OlderFirst | server/sclient.cpp:187-205 | in every state of every run, of two sessions in the registry the one appended first stands first |
| ServerOrder.EntryAppended | server/sclient.cpp:187-191 | every entry was appended by an event of the run |
| ServerOrder.AttachReachesOldest | server/sclient.cpp:236-244 | in every state of every run, attaching by an id that some entry has reaches, of the sessions under that id, the one appended first |
| Ids.CoversIffPermutation | server/sclient.cpp:187-187 | covering 0..n-1 is the same as being a permutation of it |
| ServerRuns.IdsBelowPeak | server/sclient.cpp:187-191 | an id is the number of registered sessions when given, and from its registration on below the largest number so far |
| ServerRuns.PeakIsLargest | server/sclient.cpp:187-205 | the peak is attained in the run and never exceeded before |
| ServerRuns.TablesHoldOwnProvider | server/sclient.cpp:25-36 | in every reachable state a table is empty, just while its constructor has not returned, or binds the provider handle to its own session, and no other handle denotes a session |
| ServerRuns.InstallNeverThrows | server/sclient.cpp:29-29 | the constructor's late registration finds its handle free in every reachable state |
| ServerRuns.EmptyTableRefuses | server/sclient.cpp:81-90 | a request looked up in an empty table is answered with an error and changes nothing |
| ServerRuns.MutualExclusion | server/sclient.cpp:130-136 | at most one handler is in a critical section, it is the holder of the mutex, and a handler that waits for the mutex does not hold it |
| ServerRuns.RegistryWrittenUnderLock | server/sclient.cpp:185-206 | every step that changes the registry is one of the mutex holder |
| ServerRuns.HolderReleases | server/sclient.cpp:185-206 | the holder's own next steps, at most three, are enabled and release the mutex, moving no one else |
| ServerRuns.WaiterAcquires | server/sclient.cpp:130-136 | from every state satisfying the invariant a waiting handler has a continuation in which it holds the mutex |
| ServerHistories.RunGrows | server/sclient.cpp:246-264 | over every stretch of every run, numbers, environments and handles once bound keep their meaning |
| ServerHistories.HandlePersists | server/sclient.cpp:94-111 | a uid handed out denotes the same interface in every later state in which its session looks in its own table, and attached elsewhere never another one |
| ServerHistories.HandleOrigin | server/sclient.cpp:246-264 | in every state of every run each handle of a table, but for the two fixed ones, was given to the table's own session by one of its own messages |
| ServerHistories.HandleResolvesIff | server/sclient.cpp:246-264 | a uid used as handle denotes its interface if and only if the session looked in, attached to or the own, was once returned that interface itself |
| ServerHistories.SingleEnvironment | server/sclient.cpp:152-175 | with messages handled one at a time, a session's environment is set once, whoever asked, and a bound environment handle denotes it |
| ServerHistories.ConstructionBinds | server/sclient.cpp:152-175 | a message that gets as far as a construction assigns the environment if and only if it is allocated, binds its handle if and only if it is completed, and touches no other session's |
| ServerHistories.NoConstruction | server/sclient.cpp:299-330 | every other message leaves all environments and environment handles alone |
| ServerHistories.EnvironmentOrigin | server/sclient.cpp:152-175 | in every state of every run an environment comes from one message's construction, and its handle is bound if and only if that was completed |
| ServerHistories.FailedEnvironmentStaysUnbound | server/sclient.cpp:154-156 | and the handle stays unbound in every later state of every run |
| OverlappingCalls.SingleEnvironmentIff | server/sclient.cpp:152-175 | with CreateEnv calls taken apart into their accesses, the environment is never replaced and a bound handle denotes it in every interleaving if and only if at most one call has yet to assign, or there is an environment and none has passed the test |
| OverlappingCalls.BoundOnce | server/sclient.cpp:246-253 | whatever the interleaving, a handle once bound keeps its meaning |
| OverlappingCalls.UninterruptedIsCreateEnv | server/sclient.cpp:152-175 | the accesses of one call in a row do what `Sessions.CreateEnv` does |
| InterleavedCalls.ApartSingle | server/sclient.cpp:152-175 | in every run of the server with CreateEnv stepped access by access, as long as no call starts on a provider on which another is under way, numbers, environments and handles keep their meaning and the whole invariant holds |
| InterleavedCalls.ApartFromStart | server/sclient.cpp:152-175 | in such runs from the start a bound environment handle always denotes its session's environment |
| InterleavedCalls.RivalsReplace | server/sclient.cpp:152-175 | whenever two waiting sessions look in the same provider without an environment, overlapping calls of theirs can replace it |
| InterleavedCalls.RivalsMisbind | server/sclient.cpp:152-175 | or bind the handle to the environment of the other call |
| InterleavedCalls.AccessKeepsHandles | server/sclient.cpp:246-253 | no access of CreateEnv, overlapping or not, changes what a bound handle means |
| InterleavedCalls.WholeCallIsStep | server/sclient.cpp:152-175 | the accesses of a CreateEnv message in a row are the one step that the state machine makes of it |
| ServerHistories.MessageTouches | server/sclient.cpp:76-114 | every message handled in a run respects the frame of `HandleFrame` |
| ServerHistories.UnconcernedUnchanged | server/sclient.cpp:246-285 | over any stretch of a run, a session that neither sends, nor is looked in, nor is being set up keeps its whole state |
| ServerHistories.AttachThroughAttachment | server/sclient.cpp:273-285 | an AttachEnv sent by an attached session rewires the session it is attached to; its own attachment stays |
| SessionLocality.MessageIsLocal | server/sclient.cpp:255-264 | a message has the same end, reply and effect on any two servers that agree on its session, on the session it looks in but for where that is attached, and on the ids in the registry |
| SessionLocality.CycleIsHarmless | server/sclient.cpp:255-264 | where the session looked in is attached itself, be it back, makes no difference |
| ServerHistories.HandleTerminatesIff | server/sclient.cpp:96-108 | a message kills the server if and only if its call returns an interface whose uid the requester's own table has |
| ServerHistories.KilledIff | server/sclient.cpp:76-114 | and no other step of a reachable server kills it; every other message gets an answer |
| ServerHistories.AnswerOrigin | server/sclient.cpp:209-217 | the k-th answer of a session is what its k-th message gave when it was handled |
| ServerHistories.RepliesConserved | server/sclient.cpp:209-217 | what has been sent on a session is the answers to its messages, one each and in order, but for one under way |
| ServerScenarios.ConnectLeads | server/sclient.cpp:185-192 | the events of a connecting client can be taken from any idle state and lead to the state with one more served session |
| ServerScenarios.LeaveLeads | server/sclient.cpp:197-207 | the events of a leaving session can be taken from any idle state and erase the first entry with its id |
| ServerScenarios.IdsRepeat | server/sclient.cpp:187-191 | a run (connect, connect, id 0 leaves, connect) after which two served sessions have id 1 |
| ServerScenarios.LeaverErasesAnother | server/sclient.cpp:201-205 | its continuation in which a leaver erases the entry of the session that stays |
| ServerScenarios.UnboundReached | server/sclient.cpp:162-174 | a run (connect, CreateEnv whose construction throws) after which a session has an environment without a handle |
| ServerScenarios.SecondRootKills | server/sclient.cpp:105-108 | a run (connect, CreateEnv, the same request on the environment twice) after which the server is dead |
| Remote.CallTransparent | client/bclient.cpp:47-77 | for a request that fits, the client gets the outcome of the dispatched call, and the reply as it was meant if and only if it fits too |
| Remote.UnfitNotReceived | server/sclient.cpp:181-216 | a framed request is received whole if and only if it fits |
| Remote.ModelCallTransparent | server/sclient.cpp:94-111 | of a remote model call, a text arrives as it is, an empty one as OK, and what is thrown as an error with its text; an interface gives its uid and is registered, or kills the server when it is registered already; otherwise nothing changes |
| Answers.RemoteGetEnv | server/sclient.cpp:305-309 | GetEnv names the environment handle if and only if the provider looked in has an environment |
| Answers.RemoteCreateEnv | server/sclient.cpp:152-175 | CreateEnv constructs from its argument and the session's number; environment, handle and answer are those of the construction's ending |
| Answers.RemoteGetId | server/sclient.cpp:266-271 | GetId is answered by the number of the provider looked in |
| Answers.RemoteAttachEnv | server/sclient.cpp:273-285 | AttachEnv attaches the provider looked in to the session of the first entry with the id read from its argument, or names that id in an error |
| Answers.RemoteUnknownMethod | server/sclient.cpp:326-328 | a method the provider does not know is an error and changes nothing |
| Answers.RemoteWrongArguments | server/sclient.cpp:310-325 | so is a wrong number of arguments |
| Answers.RemoteUnparsed | server/sclient.cpp:96-104 | so is a specification that cannot be parsed, with the parser's text |
| Answers.RemoteUnknownContext | server/sclient.cpp:86-88 | so is a context that the table looked in does not have |
| Answers.NoRequest | server/sclient.cpp:79-92 | a message with a leading space, without any, or with an unknown context only is refused, each with its own text |
| Remote.OthersLeaveTable | server/sclient.cpp:76-114 | over any stretch of a run without messages of a session, its table changes at most by its environment handle |
| Connection.MessageHandled | server/sclient.cpp:209-217 | a message event of a run leaves its reply as the session's last answer and the server running, or kills it, as `Sessions.Handle` says |
| Connection.CallInRun | client/bclient.cpp:47-77 | a call in a run, read off the states around the event that handles it, is the remote call in the state that its message finds |
| Connection.SomeService | client/bclient.cpp:47-77 | for every run there is a connection whose answers are what the session hears in it |
| Connection.LostStays | client/bclient.cpp:47-77 | once the run has not answered a call, no later exchange of the connection counts |
| Connection.CallCanBeMade | server/sclient.cpp:193-217 | from a state in which the session waits, a request that arrives can be the next handled, and the session then waits again unless the server dies |
| Attachment.GivenId | server/sclient.cpp:266-271 | a remote GetId yields the session's number |
| Attachment.AttachByGivenId | server/sclient.cpp:273-285 | attaching by the id of a session, however that is attached itself, reaches the session of the first entry that has it, or fails when none has; it is the session itself if and only if it has an entry and none before has the same id |
| Attachment.CoveredIdsAttachOwner | test/ut_base.cpp:241-242 | while the ids cover 0..n-1 it is the session that was asked |
| Attachment.ToldThenAttached | test/ut_base.cpp:241-242 | over a run: what a session was told its id is, used later by another to attach, reaches the session of the first entry that has it by then, which is the one that was told if and only if it has an entry and none before has the same id |
| Attachment.RootThroughAttachment | test/ut_base.cpp:245-246 | the attached session gets the root of the other's environment, and can use its handle if and only if the other has it too |
| Proxies.ApplyKeepsCoherent | dmas/daaproxy.cpp:24-39 | GetNode, Name and a new root keep every cache key the context of its proxy, every child's manager its cache owner, and managers older than their children |
| Proxies.ProxiesCoherent | dmas/daaproxy.cpp:24-39 | so does every sequence of them |
| Proxies.ProxiesGrow | dmas/daaproxy.cpp:29-33 | no sequence of operations changes a context, a manager or a cached entry |
| Proxies.FetchedIsChild | dmas/melempx.cpp:49-64 | whether cached or new, the proxy that GetNode gives has the answer as context and the asked proxy as manager |
| Proxies.SameHandleSameProxy | dmas/melempx.cpp:49-64 | two GetNodes of one proxy, any operations apart, give the identical proxy if and only if the handles are equal, and it has that handle and that manager |
| Proxies.NameIsLast | dmas/melempx.cpp:28-35 | after a Name that succeeds a proxy has that name until another one succeeds, whatever else is done |
| ProxyObjects.FailingNameRemembers | dmas/melempx.cpp:28-35 | a Name that fails gives what the last one that succeeded gave |
| Proxies.CachesDisjoint | dmas/daaproxy.cpp:24-39 | two cache entries hold the same proxy if and only if they are the same entry of the same proxy |
| Proxies.SubtreesNestOrDisjoint | dmas/melempx.cpp:49-64 | two subtrees with a proxy in common are nested |
| Proxies.SiblingSubtreesDisjoint | dmas/melempx.cpp:49-64 | the subtrees of two children of one proxy have no proxy in common |
| Proxies.Chain | dmas/melempx.cpp:18-22 | from every proxy the managers form a finite chain without repetition that ends at the connection |
| ProxyObjects.ARenv.Request | dmas/renv.cpp:367-370 | the connection passes context and request on once and returns the answer |
| ProxyObjects.ARenv.AddElemRmt | dmas/renv.cpp:342-365 | two exchanges in order: CreateEnv with the text of the node under the provider's handle, and Root under the answer to that; a root proxy with the second answer as context if and only if that succeeds |
| ProxyObjects.ARenv.DoMutation | dmas/renv.cpp:205-260 | the loop keeps and calls exactly the lists of `Pick`, in order, and drives the connection once for each node; nothing is kept at run time, no inactive mutation of an optimising agent is lost otherwise, and each call suits the kind of its mutation |
| ProxyObjects.MutatedByAllIs | dmas/renv.cpp:217-259 | repeating the loop body is keeping one sublist and performing another |
| ProxyObjects.MelemPx.Request | dmas/melempx.cpp:18-22 | from any depth the request reaches the connection exactly once and unchanged, and its answer returns unchanged |
| ProxyObjects.MelemPx.Adopt | dmas/melempx.cpp:55-58 | a handle that is not cached gets a new proxy, managed and cached here, under the source's assertion; all other proxies stay |
| ProxyObjects.MelemPx.GetNode | dmas/melempx.cpp:49-64 | one exchange under the own context; the connection, all proxies and the result are as `NodeFetched` says; neither cache assertion can fail |
| ProxyObjects.MelemPx.Name | dmas/melempx.cpp:28-35 | one exchange; the stored name is replaced only on success and returned in both cases; all other proxies stay |
| ProxyObjects.MelemPx.GetCont | dmas/melempx.cpp:79-82 | one exchange; the content is the answer's text, error or not |
| Walk.NextStands | dmas/melempx.cpp:49-64 | a node not seen before gets a new proxy that stands for it, never a cached one |
| Walk.ProxyWalkSimulates | dmas/melempx.cpp:49-64 | in every run of the server with any other clients, a walk of `GetNode` through proxies ends at a proxy whose handle denotes, in the state reached, the object that the direct walk reaches, or stops at the same step: NULL for an exception, a dead server for a node seen before, an overrun for a request too long |
| TreeWalk.TreeSimulates | dmas/melempx.cpp:49-64 | in every run of the server with any other clients, any sequence of `GetNode` on any proxies held leaves a forest of the same shape as the tree that the same calls grow on the model, in which every proxy, old or new, stands for the object of its node; it stops where the direct calls meet an object seen before or a request too long |
| Reading.ReadInRun | client/bclient.cpp:47-77 | in every run, a call on the object that a proxy stands for is answered as the object says: its text, OK for an empty one, or an error with what it throws |
| Reading.NameIsModels | dmas/melempx.cpp:28-35 | the name read through a proxy is the one that the object gives, or the last one when that throws |
| Reading.ContIsModels | dmas/melempx.cpp:79-82 | the content read through a proxy is the one that the object gives, or the text of what it throws |
| RemoteRoot.ErrorTextResolvesToNothing | dmas/renv.cpp:348-364 | an error text used as context gives an error and changes nothing |
| RemoteRoot.CreateEnvEffect | server/sclient.cpp:152-175 | the CreateEnv of a node mutation does to its session what the construction for its argument comes to, and answers the environment handle, or a text that names nothing |
| RemoteRoot.MadeOfText | dmas/renv.cpp:347-349 | for a NUL-free text of at most 206 characters, the construction is the one of the argument parsed from that text and of the session's number |
| RemoteRoot.FirstAllocatedIs | dmas/renv.cpp:217-239 | the construction that counts is that of the first node mutation for which one allocates an environment |
| RemoteRoot.OneRemoteRoot | dmas/renv.cpp:342-365 | in every run in which nobody else talks to or through its session, whatever `DoMutation` performs from a fresh session on: the session's environment is that of the first construction that allocates one, bound if and only if it was completed; at most one proxy is made, if and only if that environment returns a root besides, and its handle denotes that root; the server never dies of it |
| RemoteRoot.RemoteRootIsFinal | dmas/renv.cpp:342-365 | once there is an environment, no further sequence of node mutations changes the session, the proxies or the root |
| EndToEnd.RemoteRootStands | dmas/renv.cpp:342-365 | the one proxy that mutations of a fresh connection leave stands for the object that the environment constructed from the first such mutation returns as its root |
| EndToEnd.WalkFromRemoteRoot | dmas/melempx.cpp:49-64 | a walk from it simulates the walk of the model from the root of the session's environment |
| EndToEnd.TreeFromRemoteRoot | dmas/melempx.cpp:49-64 | so does every sequence of `GetNode` on the remote root and on what they give |
| Children.EqualRangeHoldsKey | dmas/renv.cpp:41-41 | in a multimap sorted by string order the equal range is exactly where the key is |
| Children.IterationSelects | dmas/renv.cpp:37-62 | iterating from the constructor's position until the end of the range visits, in order and once each, exactly the selected children |
| Children.SelectedExact | dmas/renv.cpp:47-58 | the selected places are ascending and exactly those that the filter passes |
| Children.OwnerAsked | dmas/renv.cpp:47-58 | for an extension of an owner's name and a node separator, the iteration visits exactly the children of the name asked for that are not removed and have this owner |
| Children.OwnerNotAsked | dmas/renv.cpp:47-50 | for no extension, one that ends otherwise, or one without a name or with the wildcard, the owner does not matter |
| Children.LessIff | dmas/renv.cpp:41-41 | the order of the multimap is that of strings: a common beginning, then the end or the smaller character |
| Children.NthElement | dmas/renv.cpp:88-135 | after n increments the iterator stands at the n-th of the selected children, or at the end of the range when there are no more |
| Children.NeverEqualsEnd | dmas/renv.cpp:114-122 | no number of increments makes a begin iterator equal to the end iterator, even though its position reaches the end |
| Children.CompsIter.constructor | dmas/renv.cpp:10-62 | in the child relation the two loops stop at the first passing child, or the end of the range; in the node relation the flag is set for an end iterator, or when a parent is asked for and there is no root |
| Children.CompsIter.PostIncr | dmas/renv.cpp:88-107 | the two loops move to the next passing child and the remaining range shrinks; in the node relation the flag is set |
| Children.NodeRelationIff | dmas/renv.cpp:19-36 | with a root, the node relation gives what is asked for by name if and only if the name asked for is the wildcard or the root's |
| Children.ParentAsked | dmas/renv.cpp:29-29 | in the node relation a parent is asked for exactly by a name before a parent separator |
| Children.FlagsDiffer | dmas/renv.cpp:114-122 | for iterator objects, the comparison with the end iterator is false wherever the iteration stands |
| Children.SameStepsEqual | dmas/renv.cpp:114-122 | begin iterators incremented as often are equal |
| Mutations.StablePartition | dmas/renv.cpp:217-259 | every mutation is performed, kept or dropped, exactly one of the three, each list in the order of the specification; which, `KeptAre` and `PerformedAre` say |
| Mutations.KeptAre | dmas/renv.cpp:220-235 | kept are, outside run time and in order, the inactive mutations of an optimising agent and, outside trial mode, those of an attached chromo above the limit |
| Mutations.PerformedAre | dmas/renv.cpp:236-257 | performed are, in order, those of a known kind that neither of the two holds back |
| Mutations.CallsSuitKinds | dmas/renv.cpp:237-255 | each performed mutation leads to the call for its kind, one each and in order |
| Mutations.LoopEffects | dmas/renv.cpp:217-259 | nothing is kept at run time; otherwise no inactive mutation of an optimising agent is lost; outside run time and trial mode only unknown kinds are neither kept nor performed; nothing is both |
| Mutations.PerformedWhateverTheMode | dmas/renv.cpp:217-259 | what is performed does not depend on the runtime, safety and trial flags |
| Mutations.HigherLimitPerformsLess | dmas/renv.cpp:230-235 | with a higher limit what is performed is a subsequence of what was |
| Mutations.AgentsAgree | dmas/renv.cpp:577-632 | the calls of the two agents agree once remote node creation is read as local |
| Mutations.ARenvu.DoMutation | dmas/renv.cpp:577-632 | the upper agent's loop keeps and calls exactly the lists of `Pick`, in order, with the same effects |

## Left out

- Sockets, host lookup, logging and output: one send is received by one recv, and the rest of a cut reply
  is not read by the next request.
- What happens after a copy runs past the server's buffer: such a request ends the modelled behaviour.
- ServerHistories.SingleEnvironment: speaks of messages handled one at a time, as all of the state machine does;
  runs with CreateEnv taken apart are those of `InterleavedCalls`.
- SessionObjects.SessionServer.Accept: the start of the handler thread is the `Accept` event of the state machine; the
  object starts no thread.
- Single steps inside one message other than those of CreateEnv.
- Data races of the unlocked registry scan in `AttachEnv`: the scan is one step.
- Children.CompsIter.constructor: a node iterator that asks for the parent of an existing root is excluded, since the
  source follows the null pointer that the proxy gives as its parent.
- The Name request that a node iterator sends to the root for the comparison it discards; the copy constructor of
  `CompsIter` and `Set`, which do not carry the range.
- The iterator of `ARenvu`, which is that of `ARenv` but for following the remote root without asking whether there is
  one.
- The values of the separators and the wildcard, which belong to `GUri`; only that they differ is used.
- What the calls other than `AddElemRmt` do to an agent: they are recorded in order.
- `MelemPx` members that return constants, `ChangeCont`, `DaaProv`, `ElemFp`, the request classes and the
  request id maps: no behaviour beyond a constant or a lookup.
- Walk.ProxyWalkSimulates: the run must leave the walker unattached, and is followed only as long as the walker's next
  message is the walk's.
- Attachment.AttachByGivenId: reading a number back as it was shown is assumed of the stream library.
