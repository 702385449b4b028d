# Delivery core of galopush

galopush pushes messages to users' terminals. A *router* learns of logins, authenticates
terminals and fans messages out; *comets* hold the terminals' connections, turn every message into
a timed transaction, and put what is not answered into an offline store; terminals speak a binary
protocol over TCP, or JSON over websockets. These files model that core and prove what it keeps:

- `Prelude`, `Terminals`, `Rds`, `Storager`, `Mailboxes`, `Drift`: shared notions and the store, a
  write-through cache of shared terminal objects over redis; what saving and draining do to a
  mailbox over time; and for whom memory and redis differ after any history, restarts included.
- `Logins`, `Router`, `FanOut`, `Delivery`, `AuthTrace`, `Handlers`: login events (with deletion from
  a slice that is being ranged over), state notifications, authentication, downward messages and
  where they end up, what authentication means over a whole history, and the router's objects as a
  refinement of those histories.
- `ConnMaps`, `Joint`, `Presence`, `Projections`: the comet's two maps, router and comet together over
  all runs, whether what the router shows online is connected, and these runs seen from either side.
- `CometSession`, `Comet`: transaction ids, transactions, and every handler of the comet against a
  ledger of all messages ever accepted.
- `TransChannel`: timers, exit channels and goroutines of transactions, interleaved step by step.
- `RpcStatus`: the one-slot status channel between readers, pingers and registrations.
- `Balancer`, `Loads`: the pool of comets, the choice of the least loaded one, and what the counts
  that it compares mean over whole histories.
- `Bytes`, `Codec`, `Wire`, `Framing`, `JsonCodec`: the four body codecs in place, header bits,
  packing, the stream parser, and the base64 text form.
- `TaggedStores`: the two stores that keep all terminals' mail in shared, tagged lists.

Objects whose methods update them are classes here (the store and its cached lists, router, comet,
comet session, comet pool, tagged stores, protocol header); loops over buffers and lists are loops
over arrays and sequences. Each is proved against a function of the old state, and the results are
lemmas about those functions or invariants that every method keeps. The two channel protocols are
state machines whose every interleaving is a run.

## Assumptions

- A redis `Set` or Mongo `Update` succeeds, and nobody else writes the records of a store. A redis
  `Get` fails only for a missing key. A router that is started anew finds in redis what was last
  written there.
- A handler runs without interruption, except in `TransChannel` and `RpcStatus`, where single steps
  interleave. In particular a write to a socket and the transaction that follows it are one step.
- Marshalling to JSON and back is the identity on values. A read returns the bytes it asks for.
- Terminal types are the five single-bit values of internal/protocol/protocol.go:41-45.
- Whether a write to a socket, a push over RPC or a dial succeeds is a parameter. The strings
  "id-plat" determine both parts. Logging and counters are absent.
- A slice of terminals is a sequence of shared objects. Its backing array is modelled where it can
  be observed, in the loop that deletes from it (`RouterModel.RangeLogin`); the old cached header,
  which shares that array until the list is saved, is replaced before the handler ends.

## Where the code surprises

- `rds.GetPushMsg` returns a pointer into the record it then clears, so draining always yields one
  empty push (`StoragerModel.Storager.GetPushMsg`, `Mailboxes.PushDrained`).
- The duplicate check of `redisstore.SaveCallbackMsg` leaves only its own loop; the callback is
  always added.
- A notification that takes a terminal offline returns before saving. Memory and redis differ for
  a user exactly if such a return opened a gap that nothing has closed since
  (`Drift.DriftExactly`); logging in, connecting and leaving is enough (`Drift.DriftReached`). If
  the list had just been read, the new comet too is in memory only (`Drift.CometDriftReached`). A
  restart of the router makes exactly these differences visible (`Drift.RestartShowsExactly`), but
  never changes whom it authenticates (`Drift.RestartKeepsAuth`).
- `balancer` uses load 0 as "nothing seen yet", so an idle comet that is not visited last is passed
  over (`Balancer.LeastExactly`). Every visiting order finds a least loaded comet exactly if some
  load is negative, none is 0 or all are (`Balancer.AnyOrderExactly`).
- An offline notification subtracts one from its comet's count for every terminal that it looks at.
  Connecting and leaving again restores the count exactly if the terminal is first in the user's
  list, or alone there (`Loads.VisitRestoresExactly`); the count can fall without bound
  (`Loads.NegativeLoad`).
- A response handled after its timer has fired can block the transaction's goroutine for ever
  (`TransChannel.LateResponseBlocks`): a goroutine that took the tick can still end exactly if no
  response came between the firing and its own send (`TransChannel.EndsExactly`).
- A transaction under an id that is still listed closes another one's channel when it times out, and
  leaves its own entry behind (`TransChannel.RepeatedIdClosesAnother`, `TransChannel.HarmlessExactly`).
- A login handled while an online notification is still on its way can leave both of a user's phones
  connected (`Joint.PendingNotificationLetsBothIn`, `Joint.PhoneLoginExactly`). Which logins are safe
  is `Joint.LoginKeepsExactly`.
- A second login of a connected terminal under another code kicks it, but the notification of that
  still carries the old code, so the terminal is shown online while nobody is connected
  (`Presence.StaleOnline`); `Presence.LoginHonestExactly` says which logins do this.
- A message saved again by a drain gets its web-online flag anew, so a drain that writes nothing
  restores instant messages exactly if their flags are all as the web terminal is now
  (`Mailboxes.DrainRestoresExactly`, `Mailboxes.FlagsLost`).
- The notice that follows the kick of an iPhone is pushed as message type 1, and comets handle only
  types 5, 7 and 9, so it goes nowhere (`Logins.NoticeHasNoKind`, `CometModel.Comet.RpcAsyncHandle`).
- `redisstore` trims a list that all terminals of a user share, so one terminal's messages can push
  out another's (`TaggedStores.TrimmingMixesTerminals`); `TaggedStores.QueuesExactly` says when not.
- Nothing in the repository sends on the router's `cometExit` channel, so the handler behind
  `RouterModel.Router.CometExit` and `StoragerModel.Storager.OfflineComet` never runs.

## Model

| member | source | states |
|---|---|---|
| `Terminals.ExclusiveIsPhones` | router/procNsq.go:88 | the bit test for terminals that exclude each other holds exactly for Android with iOS |
| `Terminals.MaskAddresses` | router/procNsq.go:168-176 | the mask test takes out the bit that is the type's number, of any mask; of the sum of a set of types it is membership |
| `RouterModel.Close` | router/procNsq.go:104 | deletion shifts the tail inside the shared array and leaves the last slot as it was |
| `RouterModel.VisitedTerminal` | router/procNsq.go:54-106 | after a deletion the range skips one terminal and sees the last twice, and none of those needs action |
| `RouterModel.RangeLogin` | router/procNsq.go:54-106 | the whole ranging loop: calls, slice and flag as the single displaced terminal determines them |
| `RouterModel.ScanResult` | router/procNsq.go:54-118 | what the loop leaves in the array is the login's list, with or without the new terminal |
| `RouterModel.Rewritten` | router/procNsq.go:54-118 | loop and append together give "remove the counterpart, then renew or append", on distinct objects |
| `RouterModel.Router.Login` | router/procNsq.go:37-138 | a login changes exactly one user as specified, saves it, and makes exactly the specified calls, which `Logins.CallsExactly` and `Logins.ReasonsExactly` describe; logouts do nothing |
| `Logins.LoginListCases` | router/procNsq.go:54-118 | on a reachable list a login appends, renews in place, or removes the one counterpart and appends |
| `Logins.LoginListWellFormed` | router/procNsq.go:54-118 | one terminal per type and never both phones, after any login |
| `Logins.OneClash` | router/procNsq.go:54-106 | a login displaces at most one terminal of a reachable list |
| `Logins.AtMostOneKick` | router/procNsq.go:59-68 | a login sends at most one kick, and sends it first |
| `Logins.DisplacedIsKicked` | router/procNsq.go:88-102 | every connected displaced terminal is kicked by its old code |
| `Logins.OnlyDisplacedIsCalled` | router/procNsq.go:59-102 | nobody else is called |
| `Logins.CallsExactly` | router/procNsq.go:59-102 | a login calls exactly if the user's comet is registered and it disturbs a connected terminal: that is kicked under its old code, for reason 1 if of the login's own type and 2 if the rival phone, and a notice with the old device token follows exactly for an iPhone |
| `Logins.ReasonsExactly` | router/procNsq.go:59-102 | a kick's reason is 1 exactly if the list holds a terminal of the login's type, and 2 exactly if it holds the rival phone |
| `Logins.NoticeHasNoKind` | router/procNsq.go:65-67 | the type under which a notice is pushed names no kind of message |
| `Logins.LoginKeepsMail` | router/procNsq.go:80-118 | a login leaves every terminal's offline mail as it was, but that of the rival phone, which is gone |
| `Logins.NotifyWellFormed` | router/procRpc.go:19-49 | notifications keep every list well formed |
| `RouterModel.Router.Notify` | router/procRpc.go:19-49 | a notification's effect on memory, on the comet's count, on redis and on who is cached: nothing is written when an offline one finds its terminal, else the user is saved |
| `RouterModel.Router.Offline` | router/procRpc.go:23-35 | the first terminal concerned goes offline and the handler returns unsaved; the count falls by one for every terminal looked at |
| `RouterModel.Router.Online` | router/procRpc.go:36-48 | all terminals concerned go online, the comet is noted, the list is saved |
| `RouterModel.Router.Auth` | router/procRpc.go:67-89 | success exactly if some terminal of the type has this code and is logged in; at most the cache is filled |
| `RouterModel.Router.Dispatch` | router/http.go:64-88 | a user whose comet is known is sent there; another to the comet the scan chooses, a least loaded one unless an idle one was forgotten; nowhere exactly for an empty pool |
| `RouterModel.Router.CometRegister` | router/procRpc.go:90-130 | a comet that can be reached is in the pool, with the count it had or 0; one that cannot be is not; no other comet's count changes |
| `RouterModel.Router.CometExit` | router/router.go:109-118 | the comet leaves the pool, its cached users go offline in memory and in redis, and lists stay well formed |
| `Handlers.Handle` | router/procNsq.go:21-201 | handling any event takes the router's store exactly as the histories say: the objects refine `Drift`, and a restart opens a new router on what redis holds |
| `AuthTrace.AuthMeansLatestLogin` | router/procRpc.go:67-89 | over every history, from whatever logins redis held at its start, success exactly for the code of the latest login among a type and its rival, if it was on this type |
| `AuthTrace.CallsNameLatestLogin` | router/procNsq.go:54-102 | over every history, the calls of a login concern the user's latest login among the type and its rival: the kick names its type and code, with reason 1 exactly if it was on the same type, and the notice its device token |
| `AuthTrace.RunMirrors` | router/procNsq.go:46-138 | every history leaves exactly the latest logins in the lists, with type, code and device token |
| `AuthTrace.OtherEventsKeepAuth` | router/procRpc.go:19-49 | logouts, notifications, mail, departing comets and restarts leave all authentication data alone (that redis has the same data at a restart is `Drift.SameView`) |
| `AuthTrace.ReachableLists` | router/procNsq.go:54-118 | over every history lists stay well formed with all their terminals logged in |
| `RouterModel.Router.SaveOfflineMsg` | router/procNsq.go:192-201 | each kind of message goes to its own box; no kind, no save |
| `RouterModel.Router.Downward` | router/procNsq.go:139-188 | the handler's log and its saves are exactly those specified for all receivers, even when one user is named twice; `Terminals.MaskAddresses` and `Delivery.DownwardFills` say whom it addresses and what it leaves in the mailboxes |
| `FanOut.FanOutExact` | router/procNsq.go:156-187 | one log entry for each addressed terminal, in order, and no other |
| `FanOut.FanOutConserves` | router/procNsq.go:156-187 | an addressed terminal is pushed to, saved for, or dropped, and dropped exactly if it is a web terminal whose known comet refused |
| `Delivery.HandedIsOwed` | router/procNsq.go:156-187 | a terminal's message is handed to the store once for every receiver that names it, while its comet is unknown or, for any but the browser, refuses |
| `Delivery.DownwardFills` | router/procNsq.go:139-201 | afterwards every mailbox has got the message that often, in the box of the topic's kind: counted pushes, one callback unless it was there, or instant messages under the browser's flag; nothing else in it changes |
| `StoragerModel.Storager.constructor` | internal/rds/rds.go:25-35 | a store opens on whatever users redis holds, who are seen as stored; nothing is cached |
| `StoragerModel.Storager.FindSessions` | internal/rds/rds.go:36-63 | a fresh header over the cached terminals, or the cached object itself when it was just read |
| `StoragerModel.Storager.SaveSessions` | internal/rds/rds.go:66-81 | redis and cache get the list; every other user is untouched |
| `StoragerModel.Storager.OfflineComet` | internal/rds/rds.go:112-129 | the cached users of a comet go offline in memory and in redis, users not cached stay as stored |
| `Rds.CometGoneExactly` | internal/rds/rds.go:112-129 | when a comet goes, a terminal is online afterwards exactly if it was and its user is not a cached one of the comet; nothing else changes |
| `StoragerModel.Storager.SavePushMsg` | internal/rds/rds.go:134-151 | only the first terminal of the type gets the push and a higher 16-bit count |
| `StoragerModel.Storager.SaveCallbackMsg` | internal/rds/rds.go:153-175 | the callback is appended unless it is already there |
| `StoragerModel.Storager.SaveImMsg` | internal/rds/rds.go:177-209 | the message is appended with the web flag, after trimming |
| `StoragerModel.Storager.GetPushMsg` | internal/rds/rds.go:212-230 | the push box is cleared and the caller reads an empty push |
| `StoragerModel.Storager.GetCallbackMsg` | internal/rds/rds.go:232-249 | all callbacks are returned and the box is empty |
| `StoragerModel.Storager.GetImMsg` | internal/rds/rds.go:251-268 | all instant messages are returned and the box is empty |
| `StoragerModel.Storager.CachedAgrees` | internal/rds/rds.go:36-81 | a cached user agrees with redis on all but online and comet, and online in memory implies online in redis |
| `Drift.RunAgrees` | internal/rds/rds.go:25-268 | after any history on any stored users, restarts included, memory and redis know the same users, agree up to online and comet, and are equal for users not cached |
| `Drift.CometFollows` | router/procRpc.go:19-49 | the comet seen for a user: none at first, then that of the latest notification unless it returned early on a cached list, and after a restart the one in redis |
| `Drift.GapExactly` | router/procRpc.go:23-35 | an early return changes what is seen exactly if the terminal was online, or the list was just read and the comet is another |
| `Drift.DriftExactly` | router/procRpc.go:23-35 | after any such history memory and redis differ for a user exactly if an early return opened a gap, and since then nothing has written the user back and the router was not restarted |
| `Drift.RestartShowsExactly` | internal/rds/rds.go:25-63 | a restart changes what is seen of a user exactly if memory and redis differed for him |
| `Drift.RestartKeepsAuth` | router/procRpc.go:67-89 | a restart never changes an answer of authentication |
| `Drift.DriftReached` | router/procRpc.go:23-35 | whoever logs in, comes online and goes offline is online in redis only |
| `Drift.CometDriftReached` | internal/rds/rds.go:51-62 | if the router restarts in between and another comet reports the end, that comet is in memory only |
| `Drift.SameView` | internal/rds/rds.go:25-268 | these histories show the same users as those over which authentication is proved; a restart appears there as the users that redis holds, with the same authentication data |
| `Mailboxes.KeepsAllUpTo51` | internal/rds/rds.go:194-205 | up to 51 saved messages are all kept |
| `Mailboxes.KeptEven` | internal/rds/rds.go:194-205 | after an even number k >= 52, the last 50 of m1..m50, m52, m54, ..., mk |
| `Mailboxes.KeptOdd` | internal/rds/rds.go:194-205 | after an odd number k >= 53, the list before and mk |
| `Mailboxes.NewestIsLast` | internal/rds/rds.go:194-205 | never more than 51, and the newest is last |
| `Mailboxes.MailboxAfterSaves` | internal/rds/rds.go:177-209 | repeated saves to a terminal in the store leave there what the closed form says |
| `Mailboxes.PushDrained` | comet/offmsg.go:23-52 | the push box after a drain: empty, or one empty push if the write failed; nothing else of the mailbox changes |
| `Mailboxes.DrainLossless` | comet/offmsg.go:54-115 | the whole mailbox after a drain: push box, the callbacks and instant messages that could not be written, in order, and the flags of the latter |
| `Mailboxes.DrainRestores` | comet/offmsg.go:54-115 | if nothing can be written the callbacks are back as they were, and the instant messages with their bodies in order, flagged as the web terminal is now |
| `Mailboxes.DrainRestoresExactly` | comet/offmsg.go:54-115 | then the instant messages are as they were exactly if their flags are all as the web terminal is now, and the mailbox is exactly if also an Android terminal had one empty push |
| `Mailboxes.FlagsLost` | internal/rds/rds.go:177-209 | a reachable mailbox whose flag a failed drain loses |
| `CometSession.TidRange` | comet/session.go:84-94 | ids run from 1 to 2^31-2; none is 0 |
| `CometSession.TidsDistinct` | comet/session.go:84-94 | any 2^31-2 consecutive ids are distinct |
| `CometSession.TidsRepeat` | comet/session.go:84-94 | and then they repeat |
| `CometSession.Session.NextTid` | comet/session.go:88-94 | the k-th call returns ((k-1) mod (2^31-2)) + 1 |
| `CometSession.Session.SaveTransaction` | comet/session.go:104-142 | one new transaction under the id drawn last, its timer running |
| `CometSession.Session.GetTrans` | comet/session.go:144-155 | the first transaction with the id, or none |
| `CometSession.Session.DelTrans` | comet/session.go:157-168 | exactly the first transaction with the id goes, its timer stopped; the others keep their order |
| `CometSession.Session.Destroy` | comet/session.go:96-102 | every timer is stopped and nothing else changes |
| `CometSession.Session.PendingDistinct` | comet/session.go:84-94 | while no transaction outlives a whole period, pending ids are pairwise distinct |
| `CometSession.Session.FindsItself` | comet/session.go:144-168 | then a pending id finds its own transaction and no other |
| `ConnMaps.RunIndexed` | comet/session.go:10-54 | over all runs every stored session is indexed by its own connection |
| `ConnMaps.NoSharedConnection` | comet/socketdo.go:90-195 | over all runs no two stored sessions share a connection |
| `ConnMaps.RunInverse` | comet/socketdo.go:90-195 | if no registration reuses a key in use, the two maps are inverse bijections |
| `ConnMaps.InverseExactly` | comet/socketdo.go:90-195 | after any run the maps are inverse bijections exactly if no registration took a key that still had a session |
| `ConnMaps.ReusedKeyBreaksInverse` | comet/socketdo.go:90-195 | after a reuse the stale connection can end its successor's session |
| `CometModel.KeptExactly` | comet/session.go:125-131 | in numbers, pushes are kept for terminal type 1 and the other kinds for all types but 8; the rest is dropped |
| `CometModel.Comet.RpcAsyncHandle` | comet/rpcdo.go:11-31 | push requests of types 5, 7 and 9 are the three kinds, and any other type does nothing |
| `CometModel.Comet.Downward` | comet/rpcdo.go:50-201 | a message is pending in the live session if written there, else saved if its kind is kept; frame, id and flag |
| `CometModel.Comet.HandOver` | comet/rpcdo.go:109-150 | a message that reaches no session is saved, or left to Apple or dropped where none is kept |
| `CometModel.Comet.ProcResp` | comet/socketdo.go:248-264 | a response answers the first transaction with its id in the session its connection leads to, and only that |
| `CometModel.Comet.Timeout` | comet/session.go:104-136 | a timeout saves its own message once, if its kind is kept, and removes its own transaction |
| `CometModel.Comet.Kick` | comet/rpcdo.go:203-239 | if the token matches, the maps change as specified, the session's messages are abandoned, and the kick frame goes to its connection with the router's reason and the next id; else nothing |
| `CometModel.Comet.ProcUnRegister` | comet/socketdo.go:171-195 | the session a connection's key names now is destroyed and both entries go |
| `CometModel.Comet.ProcRegister` | comet/socketdo.go:68-168 | refusal, repetition, or a new session in both maps, with the connection, token and encoding of the registration, whose mailbox is drained into it: store, books, frames sent and transactions exactly, every frame to that connection in that encoding |
| `CometModel.Comet.ProcOfflineMsg` | comet/offmsg.go:9-116 | a drain: what is left in the store, the books, the frames in order, and the new transactions in order |
| `CometModel.DrainedInOrder` | comet/offmsg.go:9-116 | the new transactions carry, in order, exactly the messages of the old mailbox that could be written: the push of an Android terminal, callbacks, instant messages |
| `CometModel.DrainedFrames` | comet/offmsg.go:9-116 | the frames of a drain, one by one under consecutive ids: an Android terminal's empty push with the web flag of now, callbacks without a flag, instant messages with the flags they were saved under |
| `CometModel.FramesGoTo` | comet/offmsg.go:9-116 | every frame of a drain goes to the session's connection in its encoding |
| `CometModel.Comet.Resend` | comet/offmsg.go:54-115 | one kind of mail: those written become transactions in order, the others are saved again in order |
| `CometModel.Comet.Conservation` | comet/rpcdo.go:50-201 | every accepted message is in exactly one class at every step, carried by at most one transaction, handed to the store at most once |
| `CometModel.Comet.StorableIsKept` | comet/session.go:125-131 | messages of the kinds kept are answered, pending, handed to the store or in a destroyed session, never dropped |
| `Joint.LiveSessionsAreKnown` | comet/socketdo.go:251-268 | over all runs whose logins are safe each live session has a router terminal with its token, online once notifications are handled |
| `Joint.NeverBothPhones` | router/procNsq.go:88-105 | over those runs one user never has live Android and iOS sessions |
| `Joint.PhoneLoginExactly` | router/procNsq.go:88-105 | with one phone live, a login and registration of the other leave both live exactly if the router did not see the first online |
| `Joint.StepKeeps` | comet/rpcdo.go:203-239 | every safe login and every delivery, registration, departure and mail operation keeps the joint invariant |
| `Joint.LoginKeepsExactly` | router/procNsq.go:59-102 | a login keeps the joint invariant exactly if each live session it displaces is seen online, or has the login's own type and code |
| `Joint.OrderlyExactly` | router/procNsq.go:59-102 | the invariant holds all along a run exactly if every login in it is safe |
| `Joint.QuietLoginsAreSafe` | router/procNsq.go:59-102 | with no notification on its way every login is safe |
| `Joint.PendingNotificationLetsBothIn` | router/procNsq.go:92-102 | a run whose second login is not safe, after which both phones are live |
| `Projections.UsersAgree` | router/procNsq.go:37-138 | the users after a joint run are those after the history that the router sees of it, so what is proved of histories holds there |
| `Projections.MapsAgree` | comet/socketdo.go:90-195 | the comet's maps after a joint run are those after the registrations that authenticate, the departures and the kicks of its logins |
| `Presence.LoginHonestExactly` | router/procNsq.go:59-118 | a login keeps everything that is or will be shown online backed by a live session under the same code exactly if it gives no online terminal a new code, but for one whose notifications on their way end offline under that code |
| `Presence.HonestExactly` | router/procRpc.go:19-49 | in a run of safe logins that holds all along exactly if every login is such |
| `Presence.OnlineExactly` | router/procRpc.go:19-49 | over those runs, once no notification is on its way, exactly the types with live sessions are shown online |
| `Presence.StaleOnline` | router/procNsq.go:59-86 | with nothing on its way, a second login of a connected terminal under another code leaves it shown online without a session |
| `TransChannel.AtMostOnce` | comet/session.go:104-136 | in every interleaving a transaction is saved and closed at most once, and closed exactly when its goroutine ends and its entry goes |
| `TransChannel.ClosedOnlyByItself` | comet/session.go:117-120 | with distinct pending ids only its own goroutine closes a channel and removes an entry |
| `TransChannel.RepeatedIdClosesAnother` | comet/session.go:157-168 | after any history, a new transaction under a listed id closes the first one's channel by its own steps, and its own entry stays |
| `TransChannel.HarmlessExactly` | comet/session.go:157-168 | a new transaction's id is not listed exactly if, whatever follows short of further new ones, no goroutine closes another transaction's channel |
| `TransChannel.AnsweredInTimeIsNeverSaved` | comet/socketdo.go:253-256 | a response that stops the timer in time prevents the save for ever |
| `TransChannel.StuckExactly` | comet/session.go:132 | over all runs the goroutine is blocked exactly if it is at its own send and a late response has come |
| `TransChannel.StuckForever` | comet/session.go:132 | once blocked it stays blocked, and its entry stays |
| `TransChannel.DoomedStays` | comet/session.go:116-134 | a goroutine that took the tick and met a late response before its own send stays there, and its entry stays listed |
| `TransChannel.CrossedExactly` | comet/socketdo.go:253-256 | a response came between the firing and the goroutine's own send exactly if the record says late and that send is not behind it |
| `TransChannel.EndsExactly` | comet/session.go:116-134 | a goroutine that took the tick has a continuation in which it ends exactly if no response came between the firing and its own send |
| `TransChannel.GoesOnUnlessStuck` | comet/session.go:116-134 | once the timer has fired or a response came in time, the goroutine can take its next step exactly unless it is blocked |
| `TransChannel.StepProgress` | comet/session.go:116-134 | its own steps bring it nearer to its end, and nobody else's step moves it |
| `TransChannel.RunsToItsEnd` | comet/session.go:116-134 | over all interleavings at most five own steps remain; it can take the next exactly unless it is at its own send and was crossed; one that took the tick is doomed exactly if crossed; at its end the entry is gone and it saved once if it took the tick, never else |
| `TransChannel.LateResponseBlocks` | comet/socketdo.go:253-256 | a run in which a late response blocks the goroutine after it saved |
| `TransChannel.DestroyedNeverSaves` | comet/session.go:96-102 | a pending transaction whose timer runs when its session is destroyed never saves its message, whatever follows |
| `RpcStatus.RunFlows` | internal/rpc/client.go:20-80 | over all runs the steps taken account for every value and goroutine: what failed heartbeats sent has led to reconnections or is on the way to one, and what connections sent to new pingers |
| `RpcStatus.RunBalanced` | internal/rpc/client.go:20-80 | over all runs channel values and live pingers balance waiting and starting readers exactly |
| `RpcStatus.TokensMatchHolders` | internal/rpc/client.go:20-80 | channel values, pingers and held values equal readers plus registrations in progress |
| `RpcStatus.NeverAllBlocked` | router/procRpc.go:153-178 | whenever the slot is taken a reader can take it or is about to start; senders never wait on each other alone |
| `RpcStatus.SingleReaderNeverWaits` | router/procRpc.go:153-178 | with a single reader nobody waits to send at all |
| `RpcStatus.QuietStepsEnd` | router/procRpc.go:90-178 | while no heartbeat fails and nobody registers, only finitely many steps follow |
| `RpcStatus.QuietMeansPaired` | router/procRpc.go:90-178 | and then every reader waits, the channel is empty, there is one pinger per reader, and every failed heartbeat has led to a reconnection |
| `Balancer.Pool.Balancer` | router/pool.go:81-97 | for every visiting order: none exactly for an empty pool, else the comet the closed form describes, a least loaded one unless an idle one was forgotten |
| `Balancer.OutcomeUnique` | router/pool.go:81-97 | the closed form determines the choice |
| `Balancer.LeastExactly` | router/pool.go:81-97 | the choice is a least loaded comet exactly unless an idle comet was seen, the last visited is not idle and no load is negative |
| `Balancer.AnyOrderExactly` | router/pool.go:81-97 | every visiting order gives a least loaded comet exactly if some load is negative, none is 0, or all are |
| `Balancer.PositiveLoads` | router/pool.go:81-97 | positive loads always give a least loaded comet |
| `Balancer.IdleCometPassedOver` | router/pool.go:86-95 | an idle comet visited before a busy one is passed over |
| `Loads.PoolCounts` | router/pool.go:62-78 | the counts that notifications leave in the pool are these loads |
| `Loads.VisitCounts` | router/procRpc.go:23-40 | a connection and its end change the comet's count by one less the number of terminals looked at |
| `Loads.VisitRestoresExactly` | router/procRpc.go:23-40 | they leave it as it was exactly if the terminal is alone in the user's list, or first |
| `Loads.VisitsDrift` | router/procRpc.go:23-40 | any number of visits moves the count by as much each time |
| `Loads.NegativeLoad` | router/procRpc.go:23-40 | a user with a browser and a phone takes the count to minus the number of visits |
| `Codec.ByNumber` | internal/protocol/code.go:20-47 | encoding 1 complements, 2 exchanges pairs, 3 is the loop XOR, and any other number changes nothing |
| `Codec.LoopXorAt` | internal/protocol/code.go:39-46 | loop XOR: prefix XORs, and position 0 holds the XOR of all later bytes |
| `Codec.DecodeEncode` | internal/protocol/code.go:20-77 | decoding undoes encoding, for every buffer and encoding |
| `Codec.EncodeDecode` | internal/protocol/code.go:20-77 | encoding undoes decoding |
| `Codec.EncodedBijective` | internal/protocol/code.go:20-47 | each encoding is a bijection on buffers of one length |
| `Codec.CodecEncode` | internal/protocol/code.go:20-47 | the loops rewrite exactly the bytes in reach, in place, to their encoding |
| `Codec.CodecDecode` | internal/protocol/code.go:50-77 | the loops rewrite exactly the bytes in reach, in place, to their decoding |
| `Codec.ReachEnough` | internal/protocol/code.go:20-77 | bytes out of reach are those the codec would leave alone anyway |
| `Codec.CodecRoundTrip` | internal/protocol/code.go:20-77 | encoding then decoding restores the whole array |
| `Codec.CodecReverseTrip` | internal/protocol/code.go:20-77 | and so does decoding then encoding |
| `JsonCodec.Base64RoundTrip` | internal/protocol/json.go:78-91 | base64 decoding restores every byte sequence |
| `JsonCodec.LetterIs` | internal/protocol/json.go:78-91 | the letters are those of the standard alphabet, and the padding is an equals sign |
| `JsonCodec.GroupIsNumber` | internal/protocol/json.go:78-81 | each three bytes are written as the four letters that stand for the same number in base 64 |
| `JsonCodec.DecodesExactly` | internal/protocol/json.go:83-91 | text without line breaks decodes exactly if it is whole groups of letters with at most two padding signs at the end, and to three bytes a group but for the padding |
| `JsonCodec.Encode` | internal/protocol/json.go:78-81 | the buffer is scrambled in place, and the text decodes to it and then to the original |
| `JsonCodec.Decode` | internal/protocol/json.go:83-91 | corrupt text fails, text without bytes panics, else the unscrambled bytes |
| `JsonCodec.TextRoundTrip` | internal/protocol/json.go:78-91 | decoding undoes encoding on every non-empty buffer |
| `JsonCodec.PanicsExactly` | internal/protocol/json.go:83-91 | decoding panics exactly on text that is empty but for line breaks |
| `Wire.Header.SetMsgType` | internal/protocol/binary.go:17-21 | the type is set and the encoding kept, for types that fit |
| `Wire.Header.SetEncode` | internal/protocol/binary.go:30-34 | the encoding is set and the type kept |
| `Wire.ReadPackU32` | internal/protocol/binary.go:58-71 | reading a packed 32-bit number gives it back |
| `Wire.PackReadU32` | internal/protocol/binary.go:221-228 | packing a number read gives the bytes back |
| `Wire.ReadsBigEndian` | internal/protocol/binary.go:221-228 | the most significant byte comes first |
| `Wire.PackedReads` | internal/protocol/binary.go:138-218 | every packed frame, up or down, shows the header byte, the id and the length in their places, and its decoded body every field in its place |
| `Wire.PackBinary` | internal/protocol/binary.go:138-218 | each frame is laid out as header, length and encoded body |
| `Framing.HandleTcpConn` | comet/tcp.go:72-204 | the read loop queues exactly what the stream denotes, turn by turn; `Framing.StopsExactly` and `Framing.EmitsExactly` say what a turn is |
| `Framing.StopsExactly` | comet/tcp.go:86-203 | a turn ends the connection exactly unless the bytes are a heartbeat (3), or both headers and a whole body of at most 10 MB of type 1, 6, 8, 9, 10 or 12 that decodes and is long enough for its structure |
| `Framing.EmitsExactly` | comet/tcp.go:86-203 | else it queues the heartbeat, nothing for type 12, or the structure of the type with its fields read from the decoded body |
| `Framing.TurnSize` | comet/tcp.go:86-203 | every turn consumes 5 bytes, or 9 and the declared length |
| `Framing.TurnIgnoresTail` | comet/tcp.go:86-203 | a turn does not look past the bytes it consumes |
| `Framing.ParseInPieces` | comet/tcp.go:86-203 | whole frames followed by more bytes parse as the two parts in turn |
| `Framing.FramesRoundTrip` | comet/tcp.go:86-203 | any mix of well-formed frames comes out in order, minus kick responses |
| `Framing.FramesThenAnything` | comet/tcp.go:86-203 | the same, followed by arbitrary bytes |
| `TaggedStores.Split` | internal/redisstore/redisstore.go:202-212 | the loop splits a shared list into one terminal's entries and the others, both in order |
| `TaggedStores.CallbacksAreQueues` | internal/redisstore/redisstore.go:88-127 | in either store, after any history, a terminal's callbacks are an independent first-in first-out queue |
| `TaggedStores.ImsAreQueues` | internal/mgostore/mgostore.go:91-160 | so are instant messages in the store that never trims |
| `TaggedStores.TrimKeepsExactly` | internal/redisstore/redisstore.go:145-153 | a save to the store that trims keeps every terminal's share exactly if it meets at most 50 messages |
| `TaggedStores.QueuesExactly` | internal/redisstore/redisstore.go:129-166 | all along a history instant messages are independent queues in that store exactly if none ever met more than 50 |
| `TaggedStores.ImsWithinQueues` | internal/redisstore/redisstore.go:129-166 | after any history it holds, for each terminal, some of the messages of its queue, with their flags, in order, and nothing else |
| `TaggedStores.PushesAreCounted` | internal/redisstore/redisstore.go:59-86 | the push record is the number of pushes since the last fetch, modulo 65536, and the last of them |
| `TaggedStores.TrimmingMixesTerminals` | internal/redisstore/redisstore.go:145-153 | a history after which 51 messages of one terminal have pushed out another's only one |
| `TaggedStores.RedisStore.SaveCallbackMsg` | internal/redisstore/redisstore.go:88-127 | the callback is added, duplicate or not |
| `TaggedStores.RedisStore.SaveImMsg` | internal/redisstore/redisstore.go:129-166 | the message is added after trimming the shared list |
| `TaggedStores.RedisStore.GetPushMsg` | internal/redisstore/redisstore.go:168-190 | count and last body of the pushes since the last fetch |
| `TaggedStores.RedisStore.GetCallbackMsg` | internal/redisstore/redisstore.go:192-220 | the terminal's queue, which is then empty |
| `TaggedStores.RedisStore.GetImMsg` | internal/redisstore/redisstore.go:222-249 | the terminal's entries of the shared list, which lie in order within its queue, and are the queue if no message met more than 50 |
| `TaggedStores.MongoStore.GetMsg` | internal/mgostore/mgostore.go:52-64 | the record, made if missing |
| `TaggedStores.MongoStore.GetPushMsg` | internal/mgostore/mgostore.go:104-118 | count and last body of the pushes since the last fetch |
| `TaggedStores.MongoStore.GetCallbackMsg` | internal/mgostore/mgostore.go:120-139 | the terminal's queue, which is then empty |
| `TaggedStores.MongoStore.GetImMsg` | internal/mgostore/mgostore.go:141-160 | the terminal's queue, which is then empty |

## Left out

- `Joint.LiveSessionsAreKnown`: one comet that stays registered, kicks that always arrive, and logins that are safe when they are handled, which is exactly what the invariant needs (`Joint.OrderlyExactly`).
- `CometModel.Comet.ProcRegister`: of the reply only the code is modelled, not its frame.
- `CometModel.Comet.Timeout`: asks that no pending transaction of the session has outlived 2^31-2 ids; with a repeated id the code deletes another transaction.
- `CometModel.Comet.Conservation`: "handed" means given to an offline save; the store may then find a callback it already has, trim an instant message, or not know the user.
- `CometSession.Session.DelTrans`: the exit channel that it closes is not a field here; closing is a step of TransChannel.
- `CometSession.Session.SaveTransaction`: the timer is running at once; the moment between appending and arming, when it is nil, is not modelled.
- `TransChannel.ClosedOnlyByItself`: for runs whose new transactions never take the id of one still listed, which is exactly what it needs (`TransChannel.HarmlessExactly`).
- `AuthTrace.AuthMeansLatestLogin`: at the start redis holds well-formed lists of logged-in terminals only, as every history leaves them (`AuthTrace.ReachableLists`).
- `Loads.VisitCounts`: the comet stays registered throughout, and registers at once with a router that is started anew; a comet that leaves the pool and registers again starts from 0.
- `Joint.StepKeeps`: the router is not restarted in these runs; notifications sent while it is down are lost.
- A transaction is a value in its session's list, with a flag for its timer; the pointer its goroutine holds appears in TransChannel.
- Upstream instant messages, heartbeat replies, `SessionTimeout` queries and the commented-out logout kick: no state to keep.
- Sockets, websockets, HTTP, NSQ, net/rpc and Apple's push client beyond success or failure.
- Packing of JSON bodies and parsing of JSON text, other than the codec around them.
- Coherence between the router's and the comet's caches over one redis: nothing in the code keeps it.
- Short reads, read deadlines, data races inside a handler, configuration, logging and statistics.
