# A message transport and a mining server, verified

The repository holds a transport, LSP, that gives clients and a server reliable ordered messages over
an unreliable network, and a mining service on top of it that finds the nonce with the least hash of a
range, cut into blocks for its miners. This project models both in Dafny and proves what they are for.

**Transport.** `Window.dfy` gives the two halves of a connection as values: a sender (`seq`, `sendct`,
what is in flight, what is queued) and a receiver (`ack`, `readct`, acknowledgements to repeat, messages
to read). `Link.dfy` runs one direction of a connection as a transition system with writes, reads,
epochs, CloseConn and a network that may lose, duplicate and reorder, and proves that what is read is a
prefix of what was written. `Progress.dfy` proves that the window never deadlocks and that nothing is
passed over, and says exactly when CloseConn or a smaller receiving window break the latter, and what can
still be acknowledged after CloseConn. `Loss.dfy` compares the two ways in which the code counts silence.

**The code of both ends.** `Connect.dfy` has the connection object and the operations the client and
the server both perform on it, loops included; `Ban.dfy` the record the server keeps of a connection
after CloseConn. `Session.dfy` runs these objects step by step with the transition system. `Client.dfy`
and `Server.dfy` are the event handlers, one method per event: the client over its connection, the server
over a table of connection objects and of records. `Seat.dfy` says, as a value, what the server keeps for
one connection id and what every event does to it. `Together.dfy` runs a server with any number of
clients, and one of these with its own handlers, from the handshake through every way of closing. Every
event is exactly one step of each direction or none, so the theorem about delivery is one about the
handlers; from every state in which both ends are there, a bounded number of epochs and deliveries leaves
nothing unacknowledged at either end; and with these the client's Close returns, and the server's Close no
longer waits for the connection. `Closing.dfy` follows the server from Close to its signal:
Close is never forgotten, and its promise is kept exactly when its requests dropped nothing that was owed.
`Witness.dfy` has runs from a new server or client in which promises of the interface fail.

**Mining.** `Split.dfy` is the cutting of a range in unsigned 64-bit arithmetic that wraps, `Miner.dfy`
the search of one block, `Ledger.dfy` the account of where every block is, `Jobs.dfy` the queue and what
an answer must be, `Scheduler.dfy` the scheduler's object with a method per event, and `Serve.dfy` the
whole run: whatever answer is sent is the least (hash, nonce) pair over the whole range and goes to
whoever asked, in order of arrival, for every order of answers, losses and joins and every pattern of
failing writes; a job is given up exactly when its requester is lost while it runs and is not then a miner
with a range; and a job ends by its miners' answers exactly when none of its blocks is empty or forgotten, as
long as a miner is left. The hash is a parameter of the proofs. `Maps.dfy` has facts about maps.

The handlers are single atomic steps. The channels between the application and a handler are counted:
requests waiting, answers waiting, signals to Close waiting. History that the proofs speak about (what
was written, received, acknowledged, promised to a requester) is ghost or added state.

## Where the code does less than its documentation promises

Each of these is proved, as an exact condition where there is one, and with an input:

- CloseConn should deliver all pending messages. It sends the whole queue past the window, so the
  receiver can slide past a message it has not stored. This can happen exactly when something pending lies
  a receiving window or more below the last number (`CloseConnSafeIff`, `CloseConnSafeForSenderIff`); for
  any windows it does happen in some run (`CloseConnStrands`, `PassedOverForever`). Even when nothing is
  stranded, a pending number whose acknowledgement is lost and which the receiver has slid past stays
  unacknowledged (`AcknowledgedAfterCloseIff`, `AcknowledgementLost`).
- The two ends are configured separately, and a receiving window smaller than the sending one loses
  messages (`WindowsMustFit`).
- Close should wait for all pending messages. It does not wait for a connection it has not heard from
  unless messages are both in flight and queued (`CloseSkipsUnestablished`); its first request drops the
  records of connections that went through CloseConn, even when that request is blocked
  (`CloseDropsRecord`, `CloseForgetsRecord`); and it releases a connection that fell silent before it was
  established although its client has been heard since (`CloseDropsHeard`). `PromiseKeptIff`, `HandleClose`
  and, over whole runs, `Closing.Run` say that its promise is kept exactly when none of these happens.
- A client that finds the server lost before Close is called takes its own signal and stops: Close and a
  second Read never return (`LostBeforeClose`).
- After Close the server panics over a numbered message exactly when its id is still pending and its
  connection was released (`HandleReceive`); `PanicsAfterClose` is a run that ends so.
- The handshake answer repeated at an epoch carries the constant kept in `pendconn`, not the id
  (`RepeatedAnswerIff`); a second client can so take the first one's id, and its messages are handed over
  as the first one's (`SecondTakesFirstId`).
- The cutting of a range wraps at 2^64 and then loses or doubles numbers (`SplitPartitionsIff`,
  `OverflowLosesNumbers`).
- A block without numbers is never credited, so a job that has one never finishes. It has one exactly when
  (m - 1)(blocksize + 1) exceeds the upper end (`AllNonEmptyIff`, `EmptyBlock`, `Settle`).
- The search of a block that ends at 2^64-1 never ends (`SearchEndsIff`).
- A second Join from a miner that holds a range forgets the range (`IdleEntryIff`, `RangeForgotten`): nobody
  has it and it is not lost, so the job never ends and neither does any job behind it (`SecondJoin`,
  `Stuck`).

## Model

| member | source | states |
|---|---|---|
| Link.EndToEnd | src/github.com/cmu440/lsp/client_impl.go:276-306 | Over every run with loss, duplication, reordering and CloseConn, and for any two window sizes, the payloads read are the first `readct - 1` written, in order and none twice; `ackbuf` is exactly what was received from `ack` on and `readbuf` exactly what was received from `readct` on |
| Link.WindowHolds | src/github.com/cmu440/lsp/server_impl.go:308-345 | In every reachable state the numbers in flight lie in a window of W from `seq` and below `sendct`, the queue is exactly the numbers from `seq + W` to `sendct - 1`, and every number written is acknowledged, in flight or queued, only one of these, and holds what was written at that number |
| Link.StepKeepsInv | src/github.com/cmu440/lsp/client_impl.go:202-308 | Every step of either end and of the network keeps the invariant that relates sender, receiver and messages in transit |
| Link.ReachableInv | src/github.com/cmu440/lsp/common.go:52-78 | The invariant holds in every state reachable from a new connection |
| Link.SentIsHeld | src/github.com/cmu440/lsp/server_impl.go:166-175 | Whatever is put on the network is still held for resending by its sender, or acknowledges something the receiver has stored |
| Link.InFlightWasSent | src/github.com/cmu440/lsp/client_impl.go:263-269 | Over every run whatever is in flight has been put on the network, so no message that enters the window waits for an epoch to leave for the first time |
| Link.LaunchedIsSent | src/github.com/cmu440/lsp/server_impl.go:332-340 | Every step sends what it puts into flight |
| Link.SenderKept | src/github.com/cmu440/lsp/server_impl.go:308-345 | A sender never loses or repeats a number and never moves `seq` back; a number in flight whose acknowledgement comes, the first or not, leaves flight |
| Link.ReceiverKept | src/github.com/cmu440/lsp/server_impl.go:237-259 | A receiver never forgets a number it has stored, and what it hands out stays a prefix of what was written |
| Link.WindowedKept | src/github.com/cmu440/lsp/server_impl.go:237-259 | Until CloseConn nothing is sent beyond the sender's window, and a receiver with a window at least as large stays at or below the sender's `seq` |
| Window.SlideIsExact | src/github.com/cmu440/lsp/client_impl.go:247-272 | Although the scan ends two numbers short of the window, `seq` moves to the least number still in flight (or by one when none is), and exactly the queued numbers of the old `seq + W` up to the new `seq + W` go into flight |
| Window.EnteredOne | src/github.com/cmu440/lsp/client_impl.go:263-271 | One pass of the second slide loop sends, removes from the queue and puts in flight the same message |
| Window.SentLeavesQueue | src/github.com/cmu440/lsp/client_impl.go:263-271 | What an acknowledgement sends is exactly what leaves the queue |
| Window.SentEntersFlight | src/github.com/cmu440/lsp/client_impl.go:263-271 | And, when nothing is both in flight and queued, exactly what enters flight |
| Window.DrainedStays | src/github.com/cmu440/lsp/server_impl.go:184-189 | A sender with nothing in flight and nothing queued stays so under any acknowledgement |
| Progress.WindowPassesNothingOver | src/github.com/cmu440/lsp/server_impl.go:237-259 | With a receiving window at least the sending one, every number below the receiver's `ack` has been stored, so ignoring data below `ack` and dropping old acknowledgements loses nothing |
| Progress.WindowsMustFit | src/github.com/cmu440/lsp/server_impl.go:249-254 | Nothing is ever passed over if and only if the receiver's window is at least the sender's |
| Progress.HeadIsLive | src/github.com/cmu440/lsp/client_impl.go:191-200 | While `seq < sendct`, `seq` is in flight or its acknowledgement is held by the receiver, although `seq` may lag behind numbers already acknowledged |
| Progress.RoundAdvances | src/github.com/cmu440/lsp/server_impl.go:159-176 | A round in which both epochs' resends get through strictly raises `seq`, whatever else happens in between |
| Progress.RoundsDrain | src/github.com/cmu440/lsp/server_impl.go:308-345 | At most `sendct - seq` rounds empty both buffers and bring every number written to the receiver |
| Progress.NoDeadlock | src/github.com/cmu440/lsp/client_impl.go:191-200 | However much was lost, some resends alone raise `seq` |
| Progress.CanDeliverAll | src/github.com/cmu440/lsp/client_impl.go:367-376 | From every reachable state some run hands over everything written |
| Progress.PassedOverForever | src/github.com/cmu440/lsp/server_impl.go:237 | A number passed over is never stored later and blocks every later read |
| Progress.CloseConnSafeIff | src/github.com/cmu440/lsp/server_impl.go:424-427 | Sending the whole queue past the window can strand a message, contrary to the promise that pending messages are delivered, if and only if some number not yet received is a receiver's window or more below the last one |
| Progress.CloseConnSafeForSenderIff | src/github.com/cmu440/lsp/server_impl.go:421-427 | Seen from the sender, which does not know what has arrived: CloseConn strands nothing, whatever the receiver has stored beyond what was acknowledged, if and only if nothing in flight or queued is a receiver's window or more below the last number |
| Progress.CloseConnSafeWithin | src/github.com/cmu440/lsp/server_impl.go:412-437 | CloseConn strands nothing when the queue is empty or everything pending lies within one receiving window |
| Progress.CloseConnStrands | src/github.com/cmu440/lsp/server_impl.go:424-427 | For any two windows of which the receiving one is not the smaller there is a run from a new connection, of two writes more than the receiving window, in which CloseConn leaves a message that is never stored |
| Progress.SafeCloseDelivers | src/github.com/cmu440/lsp/server_api.go:24-28 | Where CloseConn is safe, resending after it hands over everything that was written |
| Progress.AcknowledgedAfterCloseIff | src/github.com/cmu440/lsp/server_impl.go:288-296 | After CloseConn a pending number can still be acknowledged, as promised, if and only if the receiver's window has not left it or its acknowledgement is already in transit; otherwise it stays on the record over every run |
| Progress.AcknowledgementLost | src/github.com/cmu440/lsp/server_impl.go:424-427 | For any two windows of which the receiving one is not the smaller there is a run in which CloseConn is safe and a message that has arrived is still never acknowledged |
| Loss.LostIff | src/github.com/cmu440/lsp/server_impl.go:117-121 | The server's way of counting, which remembers the epoch at which it last heard anything, and the client's, which goes back for accepted messages and forward for keep-alives, both find a loss exactly when the last EpochLimit events were epochs with nothing heard |
| Loss.FirstLoss | src/github.com/cmu440/lsp/client_impl.go:165-166 | The first loss is found, by both, at the epoch that completes EpochLimit silent ones and not before |
| Connection.Connect.constructor | src/github.com/cmu440/lsp/common.go:52-78 | A new connection starts at `seq` 0, `ack` 1, silence 0 and empty buffers |
| Connection.Connect.Slide | src/github.com/cmu440/lsp/client_impl.go:249-261 | The first slide loop stops where the specified scan stops |
| Connection.Connect.Enter | src/github.com/cmu440/lsp/client_impl.go:262-272 | The second slide loop moves and sends exactly the queued numbers of its range |
| Connection.Connect.TakeAck | src/github.com/cmu440/lsp/client_impl.go:245-275 | Handling an acknowledgement is the specified sender step, in the client and in the server, and sends exactly what leaves the queue |
| Connection.Connect.TakeData | src/github.com/cmu440/lsp/server_impl.go:243-259 | Handling data at or above `ack` is the specified receiver step and answers with its acknowledgement; a message is kept the first time only |
| Connection.Connect.Put | src/github.com/cmu440/lsp/client_impl.go:338-349 | A write is the specified sender step, sent at once exactly inside the window |
| Connection.Connect.Pop | src/github.com/cmu440/lsp/client_impl.go:367-376 | A read takes the message numbered `readct` if it is there and nothing otherwise |
| Connection.SendAll | src/github.com/cmu440/lsp/client_impl.go:191-200 | Everything a buffer holds is sent |
| Transfer.Session.Do | src/github.com/cmu440/lsp/client_impl.go:202-308 | Each operation of the two ends, and of the record that stands in after CloseConn, is exactly one step of the transition system |
| Transfer.Transmit | src/github.com/cmu440/lsp/server_impl.go:226-275 | Over any run of the code of both ends on a network that loses, duplicates and reorders, what the receiving application gets is a prefix of what the sending one wrote |
| Together.Run | src/github.com/cmu440/lsp/server_impl.go:461-592 | Over every run of a server with any number of clients and of one of these clients with its handlers, for any two windows, whatever the network loses, repeats and reorders, and through epochs, losses, CloseConn, both kinds of Close and a panic of the server, each application is handed a prefix of what the other tried to write, in order and none twice |
| Together.Pair.Do | src/github.com/cmu440/lsp/client_impl.go:350-417 | Every event of either end takes both directions along a run of the transition system from where they were, with everything in transit known to it; what is over does not come back |
| Together.Pair.Delivered | src/github.com/cmu440/lsp/server_impl.go:522-536 | What each application was handed is exactly the first `readct - 1` messages the other wrote, with the count of its own end: the client's always, the server's while the connection is there |
| Together.Pair.AckToServer | src/github.com/cmu440/lsp/server_impl.go:276-345 | An acknowledgement at the server is exactly the acknowledgement step of the direction it sends, when the window takes it or a record is there, and otherwise no step of either direction; a keep-alive of an established connection is echoed |
| Together.Pair.DataToServer | src/github.com/cmu440/lsp/server_impl.go:226-275 | Data at the server is exactly the data step of the direction it receives when the connection takes it, and otherwise no step of either direction |
| Together.Pair.ServerEpoch | src/github.com/cmu440/lsp/server_impl.go:106-179 | The server's epoch is exactly the receiver's epoch step of the one direction and the sender's of the other while the client is not found lost, the sender's alone for a record that lasts, and no step otherwise; Read is told of the loss of this client once, at the epoch that completes its silence when it was established, and never while it is heard |
| Together.Pair.CloseThis | src/github.com/cmu440/lsp/server_impl.go:537-558 | CloseConn of an established connection that is not lost is exactly the flush step of the direction the server sends; of any other it ends the connection and is no step |
| Together.Pair.ToClient | src/github.com/cmu440/lsp/client_impl.go:202-308 | A message at the client is exactly the acknowledgement step of the direction it sends, the data step of the direction it receives, or no step of either |
| Together.Pair.ClientEpoch | src/github.com/cmu440/lsp/client_impl.go:148-201 | The client's epoch is exactly the sender's epoch step of the direction it sends and the receiver's of the other, unless it ends the client: then only the keep-alive is sent, and it is no step |
| Together.Pair.ClientWrite | src/github.com/cmu440/lsp/client_impl.go:338-349 | A write of the client is exactly the write step of the direction it sends |
| Together.Pair.ServerWrite | src/github.com/cmu440/lsp/server_impl.go:567-587 | A write of the server is exactly the write step of the direction it sends when the connection is there and not lost, and no step otherwise |
| Together.Pair.ServerRelease | src/github.com/cmu440/lsp/server_impl.go:475-520 | A close request of the server, whatever it releases, is no step of either direction |
| Together.Pair.Advance | src/github.com/cmu440/lsp/client_impl.go:191-200 | While the server is open and the client there, also after its Close, at most two epochs and two deliveries (a resend and its acknowledgement) raise the client's `seq`, and the client is again not about to find the server lost |
| Together.Pair.Drain | src/github.com/cmu440/lsp/client_impl.go:123-130 | From every such state of the handlers at most `sendct - seq` rounds, each of at most two epochs and two deliveries, leave nothing in flight or queued at the client, and the server with every message it has not yet handed to its application |
| Together.Pair.CloseReturns | src/github.com/cmu440/lsp/client_impl.go:123-137 | Once the client's Close has been handled, what it wrote is still acknowledged and Close returns: after at most `sendct - seq` such rounds and at most one epoch and two deliveries more, the signal is given and every message is at the server |
| Together.Pair.ServerAdvances | src/github.com/cmu440/lsp/server_impl.go:159-176 | The same for the server: at most one epoch and three deliveries raise its `seq` of this connection, also when the connection is still pending at the server or its Close waits for it, and neither end is then about to find the other lost, unless Close only waits for the next acknowledgement |
| Together.Pair.ServerDrain | src/github.com/cmu440/lsp/server_impl.go:438-445 | From every such state at most `sendct - seq` rounds, each of at most one epoch and three deliveries, leave nothing in flight or queued at the server, and the client with every message it has not yet handed to its application |
| Together.Pair.ServerCloseLetsGo | src/github.com/cmu440/lsp/server_impl.go:184-189 | Once the server's Close waits for this connection, what was written to it is still acknowledged and then it keeps Close from returning no longer: after at most `sendct - seq` such rounds and one epoch and one delivery more, it is marked as done, every message is at the client, and a close request is there |
| Seats.HearData | src/github.com/cmu440/lsp/server_impl.go:226-275 | What the server keeps for one connection id under a data message, branch by branch: a connection that Close does not wait for is established by the first positive number and takes data at or above `ack`; the message is acknowledged exactly when it is taken |
| Seats.HearAck | src/github.com/cmu440/lsp/server_impl.go:276-345 | And under an acknowledgement, branch by branch: a keep-alive that is echoed, a confirmation, the sender step inside the window, a number off a record, or nothing once Close only waits for the release; what is sent is exactly what leaves the queue or the echo; a panic only for an id of which nothing is left |
| Seats.AskRelease | src/github.com/cmu440/lsp/server_impl.go:184-189 | Once Close waits for a connection with nothing unacknowledged, any acknowledgement marks it as done and asks for its release |
| Seats.HearOther | src/github.com/cmu440/lsp/server_impl.go:180-190 | A message that names another connection changes nothing of this one, also when the server panics over it |
| Seats.TickAt | src/github.com/cmu440/lsp/server_impl.go:106-179 | And under an epoch: everything is repeated until the silence reaches the limit; then the connection goes, or stays exactly when Close has to release it; Read is told of the loss exactly when an established connection reaches the limit, once, and of a connection that is still heard never |
| Seats.ReleaseAt | src/github.com/cmu440/lsp/server_impl.go:475-520 | And under a close request: a record goes; a connection that stays is as it was, and waited for exactly when it is established, was waited for, or has messages both in flight and queued; one that goes is lost or marked as done; when Close is signalled exactly what is not waited for stays; one that is waited for and neither lost nor marked as done keeps Close from being signalled |
| LspClient.Client.HandleReceive | src/github.com/cmu440/lsp/client_impl.go:202-308 | Each message, branch by branch: nothing for a connect request; once a pending Close has nothing unacknowledged, or the server is lost, the close request is repeated with the mark that lets it return; otherwise the handshake, a keep-alive, an acknowledgement inside the window, which sends exactly what leaves the queue, data that is stored and wakes a Read when new, or nothing |
| LspClient.Client.HandleEpoch | src/github.com/cmu440/lsp/client_impl.go:148-201 | An epoch asks for the connection while there is no id; after that it raises the silence by one, declares the loss exactly at EpochLimit, and sends the keep-alive and, unless the client has ended, every held acknowledgement and everything in flight; a loss answers a waiting Read with an error, asks a pending Close again with the mark that lets it return, and ends the client when no Close is pending, without a signal for Close |
| LspClient.Client.HandleRead | src/github.com/cmu440/lsp/client_impl.go:367-376 | One message at most is handed over, the next in order, and no waiting Read sleeps beside it |
| LspClient.Client.HandleWrite | src/github.com/cmu440/lsp/client_impl.go:338-349 | A write is the specified sender step |
| LspClient.Client.HandleClose | src/github.com/cmu440/lsp/client_impl.go:387-403 | A close request signals Close exactly when the connection is lost or was found with nothing unacknowledged; no handler leaves a Close that may return with no request waiting |
| LspClient.Client.Established | src/github.com/cmu440/lsp/client_impl.go:83-89 | The first acknowledgement of the server establishes the connection and resets the silence |
| LspClient.Client.FinishRead | src/github.com/cmu440/lsp/client_impl.go:309-325 | Read takes the oldest answer |
| LspServer.Server.HandleConnect | src/github.com/cmu440/lsp/server_impl.go:192-225 | A new address gets the next id and a fresh connection; a known one is answered again while pending and counts as heard after that; addresses and live connections stay inverse and no id is given out twice |
| LspServer.Server.HandleReceive | src/github.com/cmu440/lsp/server_impl.go:180-347 | A message changes only the connection or the record it names, by the specified sender or receiver step; the first numbered message establishes a pending connection; the silence ends exactly for what was accepted; a connection that Close waits for takes acknowledgements only; the server panics exactly when a numbered message names an id that is still pending and no longer has a connection |
| LspServer.Server.HandleData | src/github.com/cmu440/lsp/server_impl.go:226-275 | Data is taken exactly from an established (or by it established) connection at or above its `ack`, acknowledged, and wakes a Read exactly when it is new; it makes the server panic exactly when its number is positive and its id is pending without a connection |
| LspServer.Server.HandleAck | src/github.com/cmu440/lsp/server_impl.go:276-345 | An acknowledgement is a keep-alive that is echoed, goes to the record of a closed connection, or is the sender step inside the window; it makes the server panic exactly when its number is positive and its id is pending without a connection |
| LspServer.Server.AcceptBanAck | src/github.com/cmu440/lsp/server_impl.go:288-296 | The record of a closed connection is at every point what was pending at CloseConn minus what was acknowledged since, and goes with its last message |
| LspServer.Server.OneKeeps | src/github.com/cmu440/lsp/server_impl.go:180-347 | A change of one connection that keeps that connection in order keeps all tables and every other connection in order |
| LspServer.Server.RemoveKeeps | src/github.com/cmu440/lsp/server_impl.go:431-436 | Removing one connection keeps addresses and live connections inverse, the counters those of the live ones, and pending exactly the unestablished ones |
| LspServer.Server.Live | src/github.com/cmu440/lsp/server_impl.go:192-225 | Live connections are different objects with their own counters, and no closed connection is live |
| LspServer.Server.HandleRead | src/github.com/cmu440/lsp/server_impl.go:522-536 | A message is handed over whenever some established connection has its next one, always the next in order of its connection, and no waiting Read sleeps beside such a message |
| LspServer.Server.Search | src/github.com/cmu440/lsp/server_impl.go:524-535 | The scan finds a connection with its next message there if and only if there is one |
| LspServer.Server.FinishRead | src/github.com/cmu440/lsp/server_impl.go:348-361 | Read takes the oldest answer |
| LspServer.Server.HandleWrite | src/github.com/cmu440/lsp/server_impl.go:567-587 | A write is refused for an unknown id and for a lost connection, and is the specified sender step otherwise |
| LspServer.Server.CloseLive | src/github.com/cmu440/lsp/server_impl.go:412-437 | A closed live connection leaves a record of exactly what was in flight and queued, the queue is sent, and the connection leaves every table; a lost one leaves no record |
| LspServer.Server.HandleCloseConn | src/github.com/cmu440/lsp/server_impl.go:537-558 | CloseConn answers unknown, not established or closed, and in the last two cases the connection is gone from exactly the tables that the branch clears |
| LspServer.Server.Tick | src/github.com/cmu440/lsp/server_impl.go:117-177 | An epoch of one connection: silent for EpochLimit epochs it is reported lost if established, stays only for Close to release, and is not resent; otherwise everything unacknowledged is resent, Read is told nothing and Close not asked |
| LspServer.Server.TickBans | src/github.com/cmu440/lsp/server_impl.go:107-116 | The record of a closed connection is resent whole each epoch and goes exactly after EpochLimit silent ones |
| LspServer.Server.HandleEpoch | src/github.com/cmu440/lsp/server_impl.go:106-179 | All connections and all records take their epoch, each independent of the others, and nothing of any window moves; Read is told of exactly the established connections whose silence this epoch completes, once each, and of nothing else; Close is asked again exactly once for each connection that expires and stays for it |
| LspServer.Server.RepeatedAnswerIff | src/github.com/cmu440/lsp/server_impl.go:159-161 | The answer repeated to a pending connection carries that connection's id if and only if the id is 1 |
| LspServer.Server.MarkAll | src/github.com/cmu440/lsp/server_impl.go:483-500 | The first pass drops the lost connections and marks exactly those Close has to wait for |
| LspServer.Server.LetAllGo | src/github.com/cmu440/lsp/server_impl.go:501-516 | The second pass succeeds if and only if every marked connection is done, and releases none that is not |
| LspServer.Server.HandleClose | src/github.com/cmu440/lsp/server_impl.go:475-520 | Close is signalled exactly when no connection blocks it, and what stays then is exactly what is not waited for; a connection that goes is lost or marked as done, and one that stays is marked as waited for exactly when it should be; what the request drops although its client is owed something is exactly the records with messages left and the released connections that are established, not lost and have messages left; at the signal the promise of Close holds if and only if no request dropped such a thing and nothing that was not waited for has messages |
| LspServer.Server.PromiseKeptIff | src/github.com/cmu440/lsp/server_api.go:30-38 | When no connection blocks Close, the clients it owes something, in its tables, are exactly those whose connection is established, not lost, marked as done and has messages left, which it releases, and those whose connection is not established, not waited for, not marked and has messages left, which it leaves |
| Closing.Run | src/github.com/cmu440/lsp/server_impl.go:438-460 | Over every run from the call of Close to its signal or a panic: until the signal a close request waits or a connection that is waited for is not done, so Close is never forgotten; and at the signal its promise holds if and only if no record had a message left at the first close request, no request released a connection that was established, not lost and had messages left, and at the last one nothing that was not waited for had any |
| Closing.Request | src/github.com/cmu440/lsp/server_impl.go:475-520 | One close request of such a run signals Close or leaves a connection that is waited for and not done; only the first one finds records |
| Witness.CloseSkipsUnestablished | src/github.com/cmu440/lsp/server_impl.go:495-499 | From a new server: Close returns while a message to a connection not heard from yet is still in flight |
| Witness.CloseDropsRecord | src/github.com/cmu440/lsp/server_impl.go:477-481 | From a new server: Close returns while the record of a connection that went through CloseConn holds an unacknowledged message |
| Witness.CloseForgetsRecord | src/github.com/cmu440/lsp/server_impl.go:477-481 | From a new server: the first close request ends a record with a message left and is blocked; the second finds nothing pending, and Close returns with its promise broken |
| Witness.CloseDropsHeard | src/github.com/cmu440/lsp/server_impl.go:122-126 | From a new server: Close releases, and returns without, the acknowledgement of a message to a client that fell silent while pending and is heard again |
| Witness.PanicsAfterClose | src/github.com/cmu440/lsp/server_impl.go:229-233 | From a new server: after Close has released a connection that fell silent while pending, a state in which the next numbered message that names it makes the server panic |
| Witness.SecondTakesFirstId | src/github.com/cmu440/lsp/server_impl.go:159-161 | From a new server: a second client whose first answer is lost takes id 1 from the repeated one, and what it writes enters the connection of the first client |
| Witness.LostBeforeClose | src/github.com/cmu440/lsp/client_impl.go:182-184 | From a new client: once a loss has ended the client and one Read has returned with it, a second Read and Close wait with no answer, no signal and no handler left |
| ClosedConnection.Ban.Heard | src/github.com/cmu440/lsp/server_impl.go:288-296 | An acknowledgement takes its number off the record and ends its silence |
| ClosedConnection.Ban.Tick | src/github.com/cmu440/lsp/server_impl.go:107-116 | A record expires exactly after EpochLimit silent epochs and is resent whole before that |
| Miner.Search | src/github.com/cmu440/bitcoin/miner/miner.go:68-85 | The search of a block, which has to end, returns its least hash with the least nonce attaining it, also when every hash is 2^64-1; for a block without numbers the start values |
| Miner.SearchEndsIff | src/github.com/cmu440/bitcoin/miner/miner.go:74 | The loop over unsigned nonces leaves its block if and only if the block ends below 2^64-1 |
| Split.SplitPartitionsIff | src/github.com/cmu440/bitcoin/server/server.go:112-133 | For any number of miners a table can have (its length is a signed 64-bit integer), in wrapping 64-bit arithmetic the blocks are disjoint and cover 0..upper if and only if the last block starts below 2^64 and the last one that starts inside the range ends below it |
| Split.SplitPartitions | src/github.com/cmu440/bitcoin/server/server.go:112-133 | Without wrap-around the blocks are disjoint and cover 0..upper exactly |
| Split.SmallEnough | src/github.com/cmu440/bitcoin/server/server.go:112-133 | Nothing wraps when `upper + 2m - 2 < 2^64` |
| Split.AllSplittable | src/github.com/cmu440/bitcoin/server/server.go:112-133 | A range with `upper + 2c - 2 < 2^64` is cut without loss over every table of at most c miners |
| Split.OverflowLosesNumbers | src/github.com/cmu440/bitcoin/server/server.go:127-133 | The whole 64-bit range over two miners wraps and loses numbers |
| Split.AllNonEmptyIff | src/github.com/cmu440/bitcoin/server/server.go:303 | Every block has numbers, which a job needs to finish, if and only if the last one starts at or below `upper` |
| Split.LargeEnough | src/github.com/cmu440/bitcoin/server/server.go:112-133 | This holds when `upper >= (m - 1)(2m - 1)` |
| Split.EmptyBlock | src/github.com/cmu440/bitcoin/server/server.go:112-133 | The range 0..0 over two miners has a block without numbers |
| Ledger.Reassigned | src/github.com/cmu440/bitcoin/server/server.go:81-90 | A lost range given to an idle miner is still accounted for once |
| Ledger.RangeLost | src/github.com/cmu440/bitcoin/server/server.go:198-201 | A miner's range becomes a lost one, still accounted for once |
| Ledger.RangeDone | src/github.com/cmu440/bitcoin/server/server.go:312-313 | A finished range leaves exactly one fewer open |
| Ledger.HandedOut | src/github.com/cmu440/bitcoin/server/server.go:134-139 | A block handed out is accounted for once |
| Ledger.HandOutFailed | src/github.com/cmu440/bitcoin/server/server.go:140-145 | A block whose write failed is kept as lost, accounted for once |
| Ledger.AllFinished | src/github.com/cmu440/bitcoin/server/server.go:318-322 | When the count of open blocks is zero, no miner holds a range and none is lost |
| Ledger.IdleEntryIff | src/github.com/cmu440/bitcoin/server/server.go:97-103 | Entering a connection as an idle miner keeps every block accounted for as held, lost or finished if and only if it neither holds nor lost one |
| Ledger.RangeForgotten | src/github.com/cmu440/bitcoin/server/server.go:97-103 | A second Join of a miner with a range leaves its block open and with nobody, and every other block accounted for |
| Ledger.SoleHolder | src/github.com/cmu440/bitcoin/server/server.go:298-316 | A nonce lies in the range of one miner at most, so an answer is credited to its finder |
| Jobs.BestMerged | src/github.com/cmu440/bitcoin/server/server.go:304-311 | Merging an honest answer keeps the best pair of all finished blocks, in any order of arrival |
| Jobs.BestAtEnd | src/github.com/cmu440/bitcoin/server/server.go:171-180 | When every block is finished the best pair is the least over 0..upper |
| Jobs.Enqueued | src/github.com/cmu440/bitcoin/server/server.go:275-294 | A request takes the next place of the queue |
| Jobs.Dequeued | src/github.com/cmu440/bitcoin/server/server.go:106-111 | The job started is the oldest waiting, with its own requester |
| Scheduling.Scheduler.Reassign | src/github.com/cmu440/bitcoin/server/server.go:73-95 | For every pattern of failing writes no lost range is left or no miner is idle; finished, held and lost ranges stay exactly the split, `minerfail` the number lost, every miner that holds a range with numbers was sent it, and each failed write costs the table one miner |
| Scheduling.Scheduler.Resize | src/github.com/cmu440/bitcoin/server/server.go:96-103 | Waiting miners enter the table idle and nothing else changes |
| Scheduling.Scheduler.Deal | src/github.com/cmu440/bitcoin/server/server.go:122-146 | Every miner visited is sent one block and works on it, or loses it into `pendrange` when its write fails; every block is open |
| Scheduling.Scheduler.Assign | src/github.com/cmu440/bitcoin/server/server.go:104-148 | The oldest job is split over the miners of the table, of which there is at least one, with no wrap-around and nothing lost, and every block that is not lost at once was sent to its miner |
| Scheduling.Scheduler.HandleJoin | src/github.com/cmu440/bitcoin/server/server.go:256-274 | A join enters the table: idle when no range is lost, with one lost range when there is one and its write does not fail; when no job runs the oldest waiting one starts over the table, and if none waits nothing else changes; a second join of a miner with a range makes that range forgotten; every invariant is kept |
| Scheduling.Scheduler.HandleRequest | src/github.com/cmu440/bitcoin/server/server.go:275-294 | A request goes to the end of the queue; it starts at once, cut over the miners of the table, exactly when no job runs and there is a miner; otherwise nothing else changes |
| Scheduling.Scheduler.HandleLost | src/github.com/cmu440/bitcoin/server/server.go:192-224 | A loss moves a miner's range to an idle miner if there is one and its write does not fail, and otherwise to `pendrange`; it takes an idle miner out of the table exactly when no job runs; it gives the running job up exactly when it is that of its requester and the requester is not a miner with a range; it is noted with the job that runs and whether a range was held; nothing else changes, and every invariant is kept |
| Scheduling.Scheduler.HandleResult | src/github.com/cmu440/bitcoin/server/server.go:295-327 | An honest answer ends one block if that block has numbers and is never credited if it has none; a result whose nonce lies in no range, or with no job, changes nothing; the miner credited is idle again, or takes a lost range if there is one and no write fails; the last answer ends the job and logs it as given up exactly when it was; when no job waits the table is kept with its miner idle, and when one waits the oldest starts, cut over exactly that table; each failed write costs the table one miner; so a job ends only when no block is empty and none was forgotten |
| Scheduling.Scheduler.StartNext | src/github.com/cmu440/bitcoin/server/server.go:184-189 | With a job waiting the oldest one starts over all the miners of the table, for its own requester; with none the table stays as it is |
| Scheduling.Scheduler.SomeAtWork | src/github.com/cmu440/bitcoin/server/server.go:295-327 | While a job runs whose blocks all have numbers and none was forgotten, and a miner is left, some miner was sent a range and owes its answer: the job is never stuck |
| Scheduling.Scheduler.WhenBlocksEnd | src/github.com/cmu440/bitcoin/server/server.go:303 | The running job has no block without numbers if and only if its last block starts at or below the upper end |
| Scheduling.Scheduler.LogIsRight | src/github.com/cmu440/bitcoin/server/server.go:171-182 | In every state the outcomes are those of the jobs in order of arrival and name the requester; a job is given up exactly when a loss of its requester was noted while it ran and not as that of a miner with a range; any other answer is the least (hash, nonce) over 0..upper |
| Scheduling.Scheduler.Conclude | src/github.com/cmu440/bitcoin/server/server.go:171-182 | The answer sent is the least pair over the whole range and goes to the requester, or nothing is sent because the requester was lost |
| Serve.Run | src/github.com/cmu440/bitcoin/server/server.go:169-333 | For every sequence of joins, requests, answers and losses and every pattern of failing writes, jobs end in order of arrival, at most once each; whatever answer is sent is the least (hash, nonce) over 0..upper and goes to the requester; and a job is given up exactly when one of the losses of the run was that of its requester while it ran, and not as a miner with a range |
| Serve.Settle | src/github.com/cmu440/bitcoin/server/server.go:295-322 | From every running job, when every miner at work answers: if (m - 1)(blocksize + 1) <= `upper` and no block was forgotten, the job ends, after exactly as many answers as blocks were open, unless ranges were lost and every miner then left the table; otherwise nobody is at work any more and the job still runs |
| Serve.SecondJoin | src/github.com/cmu440/bitcoin/server/server.go:256-262 | From a new scheduler: a join, a request and the same join again leave, unless a write failed, a running job with one open block that no miner holds and that is not lost |
| Serve.Stuck | src/github.com/cmu440/bitcoin/server/server.go:318-322 | A job with a forgotten block never ends, over every later run: nothing is logged for it or for any job behind it |
| Serve.Step | src/github.com/cmu440/bitcoin/server/server.go:190-328 | Every event adds exactly its request to the jobs, and its loss to the losses with the job that runs and whether the lost connection holds a range, and leaves a job with a forgotten block running |

## Left out

- Together.Run: follows a client that got its own id; what a client with the id of another one does is `SecondTakesFirstId`. A connect request that arrives after the server has forgotten the connection, and would open another one to the same address, is one of the other clients'. An event that the handlers would not get is passed over.
- Together.Pair.Drain: is about ends that have not lost each other, with EpochLimit at least 2 and fitting windows.
- Together.Pair.ServerCloseLetsGo: is about one connection; that Close is signalled once every connection is let go of is `HandleClose`, and a run that lets go of all of them is not put together.
- Miner.Search: requires a block that ends below 2^64-1, which is exactly when the loop ends (`SearchEndsIff`).
- Serve.Run: follows runs in which a result is what the search loop finds for the range its miner was sent, or has a nonce that lies in no range; a dishonest result inside a range is credited by the source as any other. There is a bound on the number of miner connections, and no request is cut with a wrap over any table within it; a block that ends at 2^64-1 is never answered.
- Serve.Settle: is about a range that ends below 2^64-1.
- Scheduling.Scheduler.HandleResult: takes, while a job runs, an honest answer from a miner at work or a result whose nonce lies in no range.
- Scheduling.Scheduler.HandleRequest: requires that the range is cut without loss over every table the bound on connections allows; `SplitPartitionsIff` says exactly when that is so.
- Scheduling.Scheduler.HandleJoin: is for a connection whose range is not waiting as lost; a lost connection does not join again under the same id.
- LspServer.Server.HandleWrite: is not called after Close has been handled, as the interface allows callers to be asked.
- LspServer.Server.HandleCloseConn: is not called after Close has been handled; the source refuses it from Close on.
- LspClient.Client.HandleWrite: is not called after Close, as the interface allows callers to be asked.
- Link.EndToEnd: is about one direction of one connection; the client does not check the connection id of data, and messages of another connection are not part of this model.
- The damaged lines of common.go (10-23 and 71-83): packet kinds are events, initial values are those of the intact lines.
- Sockets, addresses beyond equality, JSON, timers, logging, argument parsing and files. Sending is what a method returns.
- Goroutines, bounded channels and unsynchronised reads of `estab`, `losted`, `closepend` and `readclose`.
- What follows a panic of the server: no further event reaches it.
- The failure of connection setup after EpochLimit epochs: the client's epoch handler returns early while it has no id, so the code never reports it.
- Unread messages of a lost connection: the server deletes them with the connection. Delivery is stated as a prefix.
- One Read is outstanding at a time, on either side.
- The 64-bit width of sequence numbers and counters.
- SHA-256: any function from a string and a nonce to 64 bits.
- The two slide loops and the read, write and receive steps are the same text in the client and in the server and appear once, as methods of the connection object.
- The loop by which CloseConn copies the buffers into its record is one map union.
- Branches that cannot be reached: a miner found in `pendminer` between events, a lost range while no job runs, the second keep-alive test of the server.
- The echo programs, the request client, `String` methods and parameter defaults.
