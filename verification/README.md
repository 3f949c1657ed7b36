# NginZ in Dafny

NginZ is a chat server made of one master and several worker processes. The processes exchange small binary messages
over one datagram socket each, and everything they share lives in a compare-and-swap table held by the master. This
project models that server and proves what its parts promise one another, one part at a time and for whole runs.

- **Messages.** `BinaryCoder` is the layout and the meaning of packing and unpacking with the coder's 8-bit position
  and 16-bit lengths; `BinaryBuffer` is the buffer object that does it in place. `AsyncRequest` packs and decodes
  calls and replies, `Scanner` splits text into words, and `Transfer` is the message that carries a connection to
  another process.
- **Shared table.** `Database` holds the operations on the table and the object with the hooks.
- **Chat.** `ChatWorker` says what one process does with its connections and rooms, `ChatProcess` does it in place,
  `RoomCounters` follows the user counts through the requests, and `ChatSystem` puts master and workers together with
  calls, replies and handovers in flight. `ChatSteps` says what each step does to the connection it is about.
  `Commands` is what a client's command line calls. `NameExclusivity` counts who holds a login name and
  `NameCollision` shows how two come to hold one; `ClosedChats` follows a chat after its close, `SoftQuit` closes them
  all, and `MessageBounds` shows that what is sent in a run is what is read.
- **Processes.** `Pipeline` is the process table and sending through it, `Startup` the forking of the workers over
  every interleaving of forks, callbacks and messages, `QuitChain` the two commands that stop all processes, and
  `LoadBalancer` the choice of a worker for a new connection.
- **Loops.** `PollEntries` and `EventLoop` are the poll loop, `PartitionedLoop` its partitioned version and
  `LoopAgreement` what the two have in common. `Fiber` is the scheduler above them and `PluginChains` the registry of
  callbacks.

Each object that the C code changes in place is a class whose methods are proved against functions on values; the
theorems about runs are about those functions. `Startup.StartLeadsToChat` and `QuitChain.StartLeadsToChain` connect
the parts: a finished start is where the chat runs and the quit chain begin.

## Where the code does less than it seems to promise

- Reading an index behind the last field comes out empty only for messages of at most 255 bytes, because the position
  is a `uint8_t`; `MessageLengthLimitIsExact` shows that the bound is exact and `EndExampleFails` gives a message.
  Field bodies must start at offset 255 or lower for the same reason (`BodyOffsetLimitIsExact`, `WrapExampleFails`).
- Negative ints are sent in two bytes, so a token of -1 arrives as 65535 (`IntSurvivesIffNonNegative`).
- A name can be taken without asking for it in two ways, and a step keeps names exclusive exactly when it takes none
  so, or one that nobody holds though its key is taken (`StepKeepsExclusiveIff`). Membership and room counters hold
  for all runs.
  - A connection handed to another process keeps its login bit here and is logged in there without asking. Handing it
    over is harmless by itself, its arrival may not be; `NamesCollide` gives a run after which two usable connections
    share a name.
  - A logged-in client can send the hidden join that is meant for processes only. The check looks at the first byte
    after the slash, while the scanner skips a space there (`HiddenPlaceIff`, `HiddenJoinRunsIff`);
    `NamesCollideInPlace` gives a run without any arrival.
- The name in such a hidden join is not checked for its length, as the name in a login is: it may have up to 235 bytes
  (`HiddenLineRuns`). The limits under which all messages are shown to be readable are kept exactly when it has fewer
  than 32 (`StepKeepsBoundsIff`).
- A fiber that returns -1 ends its own registration only if no earlier slot holds the same function
  (`MinusOneEndsOwnSlot`). One that unregisters itself while it runs can rob its successor of the CREATED call
  (`SelfUnregisterFails`), crash the process, or leave a slot without a function (`VanishingFiber`);
  `VisitKeepsLivesIff` says exactly when the scheduler copes. A fiber that unregisters itself when it is told
  DESTROYED is told twice, and what it registers then may be lost (`ToldTwice`, `OutsideKeepsLivesIff`).
- The partitioned loop checks only the grand total. A registration passes that check and overflows its partition
  exactly when the partition is full and another has room (`OverflowsExactlyWhen`, `CheckPassesThoughFull`). Between a
  compaction and the recount the total is off exactly when something was removed (`TotalIsRight`).
- A call on a plugin space stops at the first plugin of another category with a failed assertion
  (`CallReachesAllIff`), and never ends if the functions called keep registering plugins there (`CallEndsIff`,
  `EndlessCall`).
- A hidden join with missing words still sets the login bit (apps/chat/src/hiddenjoin.c:48), which the model follows.

## Conventions

- A worker's calls go to the master one datagram at a time, and calls of other workers may get between them.
- A process is one step machine; forking, polling and the sockets are steps or parameters. Fork gives a fresh positive
  process id. Each socket is one first-in first-out queue. What callbacks, fibers and plugins do when they are called
  is a parameter: a script of registrations and unregistrations, or the value returned.
- Texts are byte sequences. A failed unpack leaves its variable empty or zero, as in the callers. A read outside the
  allocation is the outcome `Overread`, and a failed type assertion the outcome `WrongType`. Buffers are smaller than
  65536 bytes, since the coder keeps lengths in 16 bits.
- A stack buffer asked for with 255 bytes is taken to have the 256 bytes that the coder's own assertion demands.
- An assertion of the C code that a caller can run into is an outcome of the method: a failed check on the total of
  descriptors, a plugin of the wrong category, a full array of fibers. Where only a mistake of the callers would fail
  it, the methods require it: a destination known to the table, a received length whose low eight bits are at least 2,
  a descriptor that is not negative.
- The table sizes, the number of workers and the rooms are parameters; a room takes 32 users and a name asked for at
  the login is shorter than 32 bytes, as configured.

## Model

| member | source | states |
|---|---|---|
| ChatSystem.CountersAgreeInEveryRun | apps/chat/src/broadcast.c:143-220 | In every reachable state of any run, handovers included, the table with the calls on their way served in order holds for each room the decimal number of its users, or nothing when it is empty; the users are exactly the chats that point to the room, each once. |
| ChatSystem.StepKeepsInv | apps/chat/src/chat_factory.c:37-61 | Each of the fourteen steps keeps membership, the room counters, the single owner of every room, and that a worker announces the counts of its own rooms only. |
| ChatSystem.PostKeepsInv | base/src/parallel/async_request.c:24-44 | Calls reach the master one by one, and those of other workers may get between them: no room count is affected. |
| ChatSystem.RunsKeepInv | apps/chat/src/broadcast.c:143-220 | So does any interleaving of them. |
| ChatSystem.DeliverKeepsInv | apps/chat/src/join.c:71-119 | A delivered reply logs in, joins here, hands over, or is ignored; each outcome keeps the invariant. |
| ChatSystem.PointersAreSound | apps/chat/src/broadcast.c:190-219 | In every reachable state the room pointer of every chat is null or names a room of its process whose list holds the chat. |
| ChatSteps.LoginLineMeans | apps/chat/src/welcome.c:69-100 | A login name that is not empty and below 32 bytes is asked for with exactly one call, a set-if-null of its key under the token of the chat; any other line sends nothing. |
| ChatSteps.LoginAnswered | apps/chat/src/welcome.c:18-62 | When the answer of the master to that call is delivered, the chat is logged in under the name if it is still there and the name was free when the call was served; otherwise nothing changes. |
| ChatSteps.AskJoinMeans | apps/chat/src/join.c:121-149 | Asking for a room sends exactly one call, a lookup of the room under the token of the chat. |
| ChatSteps.RoomFoundHere | apps/chat/src/join.c:43-54 | When the answer names the own process, the chat is put into the room, at the end of its list and out of the room it was in, if it is logged in and there is space; otherwise it stays where it is. |
| ChatSteps.RoomFoundElsewhere | apps/chat/src/join.c:23-41 | When the answer names another process, the chat leaves its room and is on its way out here, and one connection with its name is on its way to that process. |
| ChatSteps.RoomNotFound | apps/chat/src/join.c:90-102 | When no process has the room or the chat is gone, nothing changes. |
| ChatSteps.ArrivalMeans | apps/chat/src/hiddenjoin.c:41-63 | A connection that arrives with a room and a name is a new chat logged in under the name, and in the room if it is one of this process with space; with words missing it is logged in without a name. |
| ChatSteps.HiddenJoinMeans | apps/chat/src/hiddenjoin.c:41-63 | A hidden join logs the chat in, takes over the name and puts it into the room if there is space; with words missing it only logs in. |
| ChatSteps.CommandsAreOpen | apps/chat/src/chat_accept.c:51-63 | In every reachable state a chat that is there can give its login name, and once logged in leave, quit, send a hidden join, and with a name ask for a room. |
| ChatSteps.ServeMeans | db/src/async_db_master.c:36-66 | The master serves the call that has waited longest, changes no other key, and sends one answer to its caller under its hook and token, or none if nobody waits. |
| ChatSteps.PostMeans | base/src/parallel/async_request.c:24-44 | The next call of a worker goes to the end of the queue of the master; the calls left keep their order. |
| ChatSteps.LostMeans | apps/chat/src/chat_factory.c:23-35 | After a failed send or a burial replies for the chat find nobody; nothing else changes. |
| NameExclusivity.NamesAreExclusive | apps/chat/src/user.c:24-45 | Over all interleavings in which connections may be handed over but none takes a name without asking the table, neither on arrival nor by a hidden join from its client, two logged-in chats with the same name are the same chat, and the key of the name is in the table. |
| NameExclusivity.NamesExclusiveIfHarmless | apps/chat/src/user.c:24-45 | The same whenever every step is harmless: it takes no name unasked, or one that nobody holds though its key is taken. |
| NameExclusivity.AlwaysExclusiveIff | apps/chat/src/hiddenjoin.c:41-63 | Names are exclusive before and after every step of a run if and only if all its steps are harmless. |
| NameExclusivity.ArrivalKeepsExclusiveIff | apps/chat/src/hiddenjoin.c:41-63 | The arrival of a connection keeps names exclusive if and only if it brings no name, or one that nobody holds though its key is taken. |
| NameExclusivity.StepKeepsExclusiveIff | apps/chat/src/hiddenjoin.c:41-63 | For each name, logged-in chats, success replies in flight and unsets in flight total at most 1, and a total of 1 means the key is taken; each of the fourteen steps keeps this if and only if it is harmless. |
| NameExclusivity.PlainStepKeepsExclusive | apps/chat/src/welcome.c:18-62 | Every step other than an arrival and a hidden join keeps names exclusive, handing a connection over included. |
| NameExclusivity.HiddenJoinKeepsExclusiveIff | apps/chat/src/chat_command.c:22-57 | A hidden join sent by a logged-in client keeps names exclusive if and only if the name is the one the chat has, or one that nobody holds though its key is taken. |
| NameExclusivity.ServeKeepsExclusive | db/src/async_db_master.c:47-66 | Serving the head of the queue can grant only a name nobody holds, and an unset removes the key together with its claim. |
| NameExclusivity.LoginReplyKeepsExclusive | apps/chat/src/welcome.c:18-62 | Delivering a login reply moves the claim to the chat or drops it, also when the chat is gone or asked for two names. |
| NameExclusivity.CloseConserves | apps/chat/src/chat_factory.c:37-50 | Closing turns a held name into exactly one unset and touches no other name or chat. |
| NameExclusivity.HandoverKeepsLogin | apps/chat/src/join.c:23-41 | Handing a logged-in connection over sends its name along and leaves it logged in here. |
| NameExclusivity.HandoverDuplicatesName | apps/chat/src/hiddenjoin.c:41-63 | Whenever a connection arrives under a name that somebody is logged in with, two chats are logged in under it. |
| NameExclusivity.HiddenJoinDuplicatesName | apps/chat/src/hiddenjoin.c:54-57 | Whenever a client sends a hidden join with a name that somebody else is logged in with, two chats are logged in under it. |
| NameCollision.NamesCollide | apps/chat/src/join.c:36-39 | From every initial state with a room in another process, for every free name, a given run of eighteen steps ends with two connections that can both be reached and are logged in under the name. |
| NameCollision.TwoWorkersCollide | apps/chat/src/join.c:36-39 | That run for two workers, room A and user n, from a concrete initial state. |
| NameCollision.NamesCollideInPlace | apps/chat/src/hiddenjoin.c:54-57 | From every initial state, in one process or two, for every two free names and any room: after two logins and one hidden join, without any arrival or handover, two connections that can both be reached are logged in under one name. |
| NameCollision.OneWorkerCollides | apps/chat/src/chat_command.c:27-31 | That run for two users of one process, from the concrete initial state. |
| Commands.HiddenPlaceIff | apps/chat/src/chat_command.c:27-49 | The check on the first byte lets a command line reach a hidden plugin if and only if a separator follows the slash and the first word starts with an underscore. |
| Commands.HiddenPluginRunsIff | apps/chat/src/chat_command.c:27-49 | A given hidden plugin is called if and only if a separator follows the slash and its name is the first word. |
| Commands.HiddenJoinRunsIff | apps/chat/src/chat_command.c:27-49 | A command line makes its sender join a room under a name unasked if and only if a separator follows the slash and its words are the hidden command, anything, the room and the name. |
| Commands.HiddenLineRuns | apps/chat/src/chat_command.c:22-57 | Every room and every name can be given in such a line, which is short enough to be read if and only if its three free words have at most 237 bytes. |
| Commands.CommandMeans | apps/chat/src/chat_command.c:22-57 | A line is refused if and only if an underscore follows the slash, and calls nothing if and only if it holds separators only; else it calls the plugins under its first word with the other words. |
| Commands.OrdinaryCommandRuns | apps/chat/src/chat_command.c:33-49 | A slash, a word without a leading underscore, a space and any text call the plugins under the word with the text and the newline. |
| Commands.BareCommandRuns | apps/chat/src/chat_command.c:33-49 | Such a word alone calls them with an empty request. |
| Commands.CommandHook | apps/chat/src/chat_command.c:22-57 | The function refuses, finds no command, or calls the plugins under the first word with the rest of the line, as those lemmas say. |
| Commands.HiddenJoinPlug | apps/chat/src/hiddenjoin.c:41-63 | The plugin logs the chat in, takes over the name it reads and joins the room, on a fresh connection and on one that exists; with words missing it only sets the login bit. |
| NameExclusivity.HandoverFreesName | apps/chat/src/chat_factory.c:48-49 | When the old process frees its half, the name becomes free although the other half still uses it. |
| Startup.KnownPidReachesItsProcess | base/src/parallel/pipeline.c:106-122 | In every reachable state of the start, a non-zero table entry is the true process id of its slot, and a message sent to it reaches that process, if its socket accepts it, and no other. |
| Startup.DrainedTablesAgree | base/src/parallel/pipeline.c:211-292 | Once everybody has started and nothing is in flight, all process tables are equal and true, and each process knows its own slot. |
| Startup.EveryRoomLeadsToItsOwner | apps/chat/src/room_master.c:139-172 | Then each room handed out was created by exactly one worker, the database names that worker, and its decimal text leads every process to that worker's slot. |
| Startup.StepKeepsInv | base/src/parallel/fork.c:18-39 | Forks, the callbacks of parent and child, and deliveries keep the invariant in any order in which they can happen. |
| Startup.RunsKeepInv | base/src/parallel/fork.c:18-39 | So does every run. |
| Startup.StepsComeCloser | base/src/parallel/fork.c:18-39 | Every step decreases forks to come, parent callbacks, child callbacks and queued messages, in lexicographic order. |
| Startup.UnfinishedCanStep | base/src/parallel/fork.c:18-39 | Unless everything is drained, some step can be taken, so every maximal run ends drained. |
| Startup.StartLeadsToChat | apps/chat/src/room_master.c:139-172 | A finished start satisfies what the chat runs assume, so their invariant holds in everything that follows. |
| QuitChain.QuitInOrder | base/src/shake/quitall.c:20-59 | Under any commands, the softly quitting processes and those that have quit are always front parts of the chain, and nobody quits without its own soft quit. |
| QuitChain.SoftQuitThenQuitStopsAll | base/src/shake/quitall.c:20-59 | After softquitall and later quitall on the master, whatever else happens, once no running process has a command left every process has quit. |
| QuitChain.DeliveriesEnd | base/src/shake/quitall.c:20-59 | Deliveries run out after a bounded number, in whatever order the queues are served. |
| QuitChain.NothingWithoutSoftQuit | base/src/shake/quitall.c:41-44 | Whatever quit commands are given and delivered, anything changes anywhere if and only if the soft quit is among the commands. |
| QuitChain.StartLeadsToChain | base/src/parallel/pipeline.c:61-73 | After a finished start every process finds its successor of the common chain in its own table. |
| QuitChain.StepKeepsInv | base/src/shake/quitall.c:20-59 | Each link keeps its shape: the soft quit first and once, then quits only, and a quit waits as long as the predecessor has quit and the successor has not. |
| QuitChain.QuitAll.SoftQuitallCommand | base/src/shake/quitall.c:21-38 | Sets the flag, and sends the text of the soft quit to the next process only the first time and only if there is one. |
| QuitChain.QuitAll.QuitallCommand | base/src/shake/quitall.c:40-59 | Without the soft quit nothing happens; else the quit flag is set, and the text of the quit is sent to the next process if there is one. |
| QuitChain.QuitAll.Propagate | base/src/shake/quitall.c:25-34 | The packed command goes to the next process through the table. |
| QuitChain.CommandArrives | base/src/shake/quitall.c:25-34 | The next process reads the text of the command that was sent, and the two commands have different texts. |
| BinaryCoder.UnpackReturnsField | base/src/binary_coder_extended.c:109-156 | Unpacking index i returns field i under its own type and fails under any other, whatever follows the message and however far the length is extended, for bodies that start at offset 255 or lower. |
| BinaryCoder.UnpackIntReturnsField | base/src/binary_coder_extended.c:162-189 | The same for ints; a negative one comes back as its low 16 bits. |
| BinaryCoder.UnpackPastEnd | base/src/binary_coder_extended.c:109-156 | An index behind the last field reads as empty if the message has at most 255 bytes. |
| BinaryCoder.BodyOffsetLimitIsExact | base/src/binary_coder_extended.c:110 | The offset limit works for all messages if and only if it is at most 255. |
| BinaryCoder.MessageLengthLimitIsExact | base/src/binary_coder_extended.c:136-139 | Reads behind the end come out empty for all messages up to a length if and only if that length is at most 255. |
| BinaryCoder.WrapExampleFails | base/src/binary_coder_extended.c:110 | A two-field message whose second body would start at 256 is misread. |
| BinaryCoder.EndExampleFails | base/src/binary_coder_extended.c:136-139 | A 256-byte message whose read behind the end returns a byte of its header. |
| BinaryCoder.IntSurvivesIffNonNegative | base/src/binary_coder_extended.c:78-95 | A 32-bit int survives packing and unpacking if and only if it is not negative. |
| BinaryCoder.IntTransport | base/src/binary_coder_extended.c:78-95 | What the receiver of any 32-bit int sees. |
| BinaryCoder.AppendedExtendsMessage | base/src/binary_coder_extended.c:53-75 | Packing fields one at a time builds the message of the whole list, total included. |
| BinaryBuffer.Txt.Reset | base/src/binary_coder_extended.c:29-37 | The buffer holds the empty message. |
| BinaryBuffer.Txt.ResetForPid | base/src/binary_coder_extended.c:39-44 | The buffer holds the message of the one process id. |
| BinaryBuffer.Txt.PackHelper | base/src/binary_coder_extended.c:53-75 | Succeeds exactly when the field fits; then the bytes are those of the extended message, else nothing changes. |
| BinaryBuffer.Txt.PackString | base/src/binary_coder_extended.c:97-99 | The same for strings. |
| BinaryBuffer.Txt.PackInt | base/src/binary_coder_extended.c:78-95 | The same for ints, in two or four digits. |
| BinaryBuffer.Txt.UnpackHelper | base/src/binary_coder_extended.c:109-156 | The loop with its 8-bit position computes Unpack on the memory behind the buffer, error outcomes included. |
| BinaryBuffer.Txt.UnpackString | base/src/binary_coder_extended.c:158-160 | A string field, or how reading it fails. |
| BinaryBuffer.Txt.UnpackInteger | base/src/binary_coder_extended.c:162-189 | An int field assembled from its bytes, or how reading it fails. |
| BinaryBuffer.Txt.Fixup | base/src/binary_coder_extended.c:191-203 | The length becomes the one written in the message; only the low eight bits of the old one are checked. |
| AsyncRequest.CallComesBack | base/src/parallel/async_request.c:24-44 | Every request within the offset bound is decoded by the master as it was made; only a negative token changes, to its value modulo 65536. |
| AsyncRequest.ReplyComesBack | base/src/parallel/async_request.c:46-66 | An answer whose last body starts at offset 255 or lower is read as it was sent; a NULL value reads as empty if the message has at most 255 bytes. |
| AsyncRequest.KeptAllIffFits | base/src/parallel/async_request.c:29-39 | Packing loses no field if and only if the whole message fits the buffer. |
| AsyncRequest.CallMaster | base/src/parallel/async_request.c:24-44 | The message holds the sender, the command, the token, the caller's hook or the null hook if there is none, and the arguments up to the first NULL, as far as its fields fit. |
| AsyncRequest.ReplyWorker | base/src/parallel/async_request.c:46-66 | The same for replies; nothing is built for the null hook. |
| AsyncRequest.PackArgs | base/src/parallel/async_request.c:37-40 | The loop packs the arguments up to the first NULL, in order. |
| AsyncRequest.CompareAndSwap | db/src/async_db.c:28-49 | Which values are present selects the request; if the message fits and its last body starts at 255 or lower, the master decodes from it exactly this call, with the caller's own hook, or the null hook if none was given. |
| AsyncRequest.GetValue | db/src/async_db.c:99-109 | The same for a lookup. |
| Database.AskMaster | db/src/async_db.c:28-49 | A whole call: the table becomes what the request says, and the answer is the message with its outcome for the worker's own hook and token; a worker that gave no hook gets none. |
| Database.AskTable | base/src/parallel/pipeline.c:158-204 | The first half: the buffer packed by the worker is dispatched by the master and served as the call that was made. |
| Database.ServeMeaning | db/src/async_db_master.c:47-66 | Serving changes no other key, and changes its own exactly when the expectation is met. |
| Database.CallAndAnswer | db/src/async_db_master.c:68-199 | A call over the wire: the master serves the call that was made and the caller reads the outcome under its own token, or under its low 16 bits if it was negative. |
| Commands.WelcomePlug | apps/chat/src/welcome.c:102-115 | When no bit of the state is set, the next line is taken for a login name; otherwise, so for every client that is logged in, the assertion fails and nothing changes. |
| MessageBounds.CallsAreReadable | base/src/parallel/async_request.c:24-44 | In every run with int tokens, room names that fit their key buffer and short names in hidden joins, each call on its way loses no field and is decoded by the master as it was made. |
| MessageBounds.RepliesAreReadable | base/src/parallel/async_request.c:46-66 | And each reply on its way is read by the worker as the master sent it. |
| MessageBounds.StepKeepsBounds | apps/chat/src/room.c:34-60 | Every such step keeps names, tokens, keys and values within the limits that this needs. |
| MessageBounds.StepKeepsBoundsIff | apps/chat/src/room.c:34-60 | A step keeps these limits if and only if its token is an int, the key it asks for fits its buffer, and the name in a hidden join is shorter than 32 bytes, which the code does not check. |
| MessageBounds.AlwaysBoundedIff | apps/chat/src/hiddenjoin.c:54-55 | The limits hold before and after every step of a run if and only if that is so of each of its steps. |
| Database.GlobalDb.OpHelper | db/src/async_db_master.c:47-66 | The table in place changes as the operation says, and the return value tells whether it succeeded. |
| Database.GlobalDb.CasHook | db/src/async_db_master.c:68-102 | Decodes, serves a compare-and-swap on the table in place and answers the sender. |
| Database.GlobalDb.SetIfNullHook | db/src/async_db_master.c:104-135 | The same for set-if-null. |
| Database.GlobalDb.UnsetHook | db/src/async_db_master.c:137-165 | The same for unset. |
| Database.GlobalDb.GetHook | db/src/async_db_master.c:167-199 | Answers with the value and leaves the table alone. |
| Database.GlobalDb.OnBubbles | base/src/parallel/pipeline.c:158-204 | A message is dispatched by its command: for the four database commands the table becomes what serving the decoded call makes of it and the reply answers it; any other command goes to the plugins under it, and the table stays; without a command nothing happens. |
| Database.OpReply | db/src/async_db_master.c:36-45 | The reply carries the outcome, the key, and the value unless it is NULL. |
| RoomCounters.IncrementEffect | db/src/async_db.c:71-96 | The requests of an increment, up or down by any number, turn the text of the old count into that of the new one; announcing the last user a second time changes nothing. |
| RoomCounters.JoinCounts | apps/chat/src/broadcast.c:143-188 | A join keeps counts and lists in step in every branch; joining the same room again has no effect on the table. |
| RoomCounters.JoinIsAnnounced | apps/chat/src/broadcast.c:180-187 | A join that takes place is announced: the table ends up with one user more in the room and one less in the room that was left. |
| RoomCounters.LeaveCounts | apps/chat/src/broadcast.c:190-220 | A leave keeps counts and lists in step and changes no key but the room's count. |
| RoomCounters.CountCallsEffect | apps/chat/src/room.c:34-47 | The requests for one room change its count as intended and nothing else. |
| RoomCounters.CountCallsMean | apps/chat/src/room.c:34-47 | An announcement speaks of the count of its room only, and nobody waits for an answer to it. |
| ChatWorker.LeaveKeepsMembership | apps/chat/src/broadcast.c:190-220 | Leaving keeps lists, pointers and bits in agreement and makes the list one shorter. |
| ChatWorker.JoinKeepsMembership | apps/chat/src/broadcast.c:143-188 | So does joining, with the room never over-full and nobody listed twice. |
| ChatWorker.JoinPutsIn | apps/chat/src/broadcast.c:143-188 | A logged-in chat that is not in the room, which exists and has fewer than 32 users, is at the end of its list afterwards and points to it; the room it was in has lost it and nobody else; all other lists and chats stay. |
| ChatWorker.JoinChangesNothing | apps/chat/src/broadcast.c:144-168 | A refused join changes nothing and sends nothing; a repeated one changes nothing. |
| ChatWorker.LeaveTakesOut | apps/chat/src/broadcast.c:190-219 | Leaving takes the chat out of the list of its room and no other, and leaves it without room and without a handler for its lines; a chat in no room stays as it is and nothing is sent. |
| ChatWorker.QuitMeans | apps/chat/src/quit.c:15-26 | A chat that quits is in no room, not logged in under a name, and cannot be reached any more. |
| ChatWorker.CloseMeans | apps/chat/src/chat_factory.c:37-50 | Closing marks the chat as quit unless it was on its way out, and leaves it in no room and not logged in under a name. |
| ChatWorker.LoginReplyMeans | apps/chat/src/welcome.c:18-62 | A successful reply with a name logs in exactly a chat that exists and has none of its leaving bits set; any other reply changes nothing. |
| ChatWorker.LogoffMeans | apps/chat/src/user.c:36-46 | Giving a name back clears the login bit and sends one unset of its key that nobody waits for; without a name nothing happens. |
| ChatWorker.CloseKeepsMembership | apps/chat/src/chat_factory.c:37-50 | A closed chat is in no room and holds no name as a logged-in user. |
| ClosedChats.ClosedStaysClosed | apps/chat/src/chat_factory.c:37-61 | After a chat is closed, at any point of any run and until it is freed, also when login and room replies for it still arrive: it is in no list, and closing it again changes nothing and sends nothing. |
| ClosedChats.StepKeepsGone | apps/chat/src/chat_factory.c:167-172 | No step but freeing the chat brings a closed chat back. |
| ChatWorker.ClosedForGood | apps/chat/src/chat_factory.c:37-61 | Directly after a close the chat is in no list of the process, and a second close has no effect. |
| ChatWorker.RoomSizesAddUp | apps/chat/src/broadcast.c:143-220 | The sizes of all rooms add up to the number of chats that are in a room. |
| ChatProcess.Process.RoomLeave | apps/chat/src/broadcast.c:190-220 | The loop removes the chat from the list in place; state and calls are those of a leave. |
| ChatProcess.Process.RoomJoin | apps/chat/src/broadcast.c:143-188 | The in-place join realises Join with its calls; it returns 0 exactly when the chat was logged in and the room exists and had space. |
| ChatProcess.Process.ChatClose | apps/chat/src/chat_factory.c:37-50 | State and calls are those of a close. |
| SoftQuit.SoftQuitAll | apps/chat/src/chat_factory.c:65-76 | Afterwards every chat is closed and every room is empty; the calls sent take every room count to nothing, give every name back once for each chat that held it, and touch no count of another process. |
| SoftQuit.LeftAndClosedSound | apps/chat/src/chat_factory.c:70-73 | Leaving and closing one chat keeps the counters and turns its name into one unset. |
| ChatProcess.Process.ChatQuit | apps/chat/src/quit.c:15-26 | Leaves the room, marks the chat and gives the name back. |
| ChatProcess.Process.LogoffUser | apps/chat/src/user.c:36-46 | Sends one unset for a non-empty name and clears the login bit, else nothing. |
| ChatProcess.Process.Increment | db/src/async_db.c:71-96 | Unset when the count drops to 0, else a compare-and-swap, preceded by a set-if-null when the count starts at 0. |
| ChatProcess.Process.SetUserCount | apps/chat/src/room.c:34-47 | The requests for a named room; none for an empty name. |
| ChatProcess.Process.OnLogin | apps/chat/src/welcome.c:69-100 | The first word of the line is asked for under the chat's token unless it is empty or too long. |
| ChatProcess.Process.OnLoginReply | apps/chat/src/welcome.c:18-62 | A success logs in the chat if it can still be reached; everything else is ignored. |
| ChatProcess.Process.AddRoom | apps/chat/src/broadcast.c:222-247 | A new room is empty; an existing one is left alone. |
| EventLoop.PollTable.StepHelper | base/src/event_loop_poll.c:93-104 | One dispatch with callbacks that register and unregister anything: exactly the due calls are made, and the table is compacted afterwards. |
| EventLoop.PollTable.Step | base/src/event_loop_poll.c:106-119 | One turn of the loop, with poll reporting what happened on each descriptor. |
| EventLoop.PollTable.BatchUnregister | base/src/event_loop_poll.c:75-91 | The two arrays are compacted in place to the specified list. |
| EventLoop.PollTable.RegisterFd | base/src/event_loop_poll.c:31-41 | The entry is added at the end with no events reported. |
| EventLoop.PollTable.UnregisterFd | base/src/event_loop_poll.c:61-73 | The first live entry of the descriptor is switched off where it is. |
| PollEntries.CompactedKeepsLive | base/src/event_loop_poll.c:75-91 | Compaction keeps exactly the multiset of live entries, each with its callback, and all that remains is live. |
| PollEntries.DispatchedOnlyOneWay | base/src/event_loop_poll.c:93-104 | The calls of a step are determined by the table and what the callbacks do: ready slots only, in order, once each, unless an earlier callback unregistered them. |
| PollEntries.DispatchMeans | base/src/event_loop_poll.c:93-104 | A call is made only for an entry that asks for something and has something reported, with what it holds; if none is made although both are the case, earlier callbacks have switched the entry off. |
| PollEntries.QuietStepCallsAll | base/src/event_loop_poll.c:93-119 | While nobody unregisters anything, one turn calls exactly the entries that ask for something and have something reported, in the order of the table, each once. |
| PollEntries.CallExtends | base/src/event_loop_poll.c:96-101 | Calling a ready slot that is still live extends the due calls. |
| PollEntries.SkipExtends | base/src/event_loop_poll.c:97-98 | Passing over a slot is right when it was not ready or is no longer live. |
| PartitionedLoop.PartitionedTable.Step | base/src/event_loop_partitioned_openmp_poll.c:99-126 | The partitions take their turns one after the other on what the one before left, callbacks reaching any partition, and the total is counted afresh. |
| PartitionedLoop.PartitionedTable.TurnPart | base/src/event_loop_partitioned_openmp_poll.c:108-121 | One partition: nothing if empty, else poll; and when something was reported, the due calls, all they do, and the compaction. |
| PartitionedLoop.QuietTurnCallsAll | base/src/event_loop_partitioned_openmp_poll.c:88-121 | The same for the turn of one partition. |
| PartitionedLoop.PartitionedTable.DispatchPart | base/src/event_loop_partitioned_openmp_poll.c:88-97 | The due calls of one partition are made while callbacks change any of the eight. |
| PartitionedLoop.PartitionedTable.RegisterFd | base/src/event_loop_partitioned_openmp_poll.c:35-48 | The assertion on the total fails, or the entry goes to partition fd % 8 and the total grows by one, or that partition is full and the entry would be written behind its arrays. |
| LoopAgreement.CheckPassesThoughFull | base/src/event_loop_partitioned_openmp_poll.c:36 | Registering 0, 8, 16 and so on fills one partition while the check still passes. |
| LoopAgreement.OverflowsExactlyWhen | base/src/event_loop_partitioned_openmp_poll.c:36-41 | A registration is written behind the arrays of its partition if and only if that partition is full and another one has room. |
| LoopAgreement.CheckIsEnoughExactlyWhen | base/src/event_loop_partitioned_openmp_poll.c:36-41 | The check is enough for every descriptor if and only if the partitions are all full or none is. |
| PartitionedLoop.PartitionedTable.UnregisterFd | base/src/event_loop_partitioned_openmp_poll.c:50-63 | The entry is switched off in partition fd % 8; the total stays. |
| PartitionedLoop.PartitionedTable.Recount | base/src/event_loop_partitioned_openmp_poll.c:122-126 | The total becomes the sum of the partitions. |
| PartitionedLoop.CallbacksReachTheirPartition | base/src/event_loop_partitioned_openmp_poll.c:88-97 | Each partition changes by the operations on its own descriptors and by no others. |
| LoopAgreement.RunsAgree | base/src/event_loop_partitioned_openmp_poll.c:31-126 | Any run gives the same map from descriptors to events and callbacks in both loops, with each descriptor in its own partition, however often each polls and compacts. |
| LoopAgreement.TurnsAgree | base/src/event_loop_partitioned_openmp_poll.c:108-121 | A turn of one partition amounts to carrying out its callbacks' operations on the plain table. |
| LoopAgreement.StepsAgree | base/src/event_loop_partitioned_openmp_poll.c:99-126 | A whole step, eight turns and the recount, amounts to carrying out everything its callbacks do in the order of the turns, and leaves the total right. |
| LoopAgreement.PlainStepMeans | base/src/event_loop_poll.c:106-119 | A step of the plain loop means the same as what its callbacks do. |
| LoopAgreement.BothStepsAgree | base/src/event_loop_partitioned_openmp_poll.c:99-126 | One step of each loop from agreeing tables, with callbacks that do the same in the same order, ends in agreeing tables. |
| LoopAgreement.TotalIsRight | base/src/event_loop_partitioned_openmp_poll.c:35-126 | The total equals the sum after a recount and after every registration, unregistration and poll; a compaction keeps it right exactly when it removes nothing. |
| LoopAgreement.CountsAgree | base/src/event_loop_partitioned_openmp_poll.c:31-33 | When nothing waits to be removed, both loops report the same number of descriptors. |
| LoopAgreement.RegistrationAfterCompaction | base/src/event_loop_poll.c:75-91 | Compaction changes no registration. |
| Pipeline.SendReaches | base/src/parallel/pipeline.c:106-122 | A message to a process that one slot claims reaches that slot once, if its socket accepts it, and no other; a broadcast reaches every slot but the sender's, once, up to the first whose socket fails. |
| Pipeline.MailboxesReach | base/src/parallel/pipeline.c:254-274 | After the last fork every worker slot gets one message per worker, in slot order, and the master none. |
| Pipeline.MailboxComesBack | base/src/parallel/pipeline.c:282-292 | A mailbox message is read with the process id and the slot that were sent. |
| Pipeline.NodeTable.constructor | base/src/parallel/pipeline.c:300-311 | The table of the master: its own id in slot 0, all others free. |
| Pipeline.NodeTable.FindNode | base/src/parallel/pipeline.c:52-59 | The first slot that holds the id. |
| Pipeline.NodeTable.NextNid | base/src/parallel/pipeline.c:61-73 | The id in the slot after the own one, or -1 behind the last. |
| Pipeline.NodeTable.NextWorkerNid | base/src/parallel/pipeline.c:75-88 | The id in the following slot, skipping the master's at the end. |
| Pipeline.NodeTable.Send | base/src/parallel/pipeline.c:106-122 | What goes to which socket, up to the first that fails, and the return value. |
| Pipeline.NodeTable.ForkChildAfter | base/src/parallel/pipeline.c:211-242 | The first free slot becomes the process's own, with its id. |
| Pipeline.NodeTable.ForkParentAfter | base/src/parallel/pipeline.c:244-276 | The first free slot takes the child's id; when the last slot is taken, everyone is told about every worker. |
| Pipeline.NodeTable.UpdateSiblingsPid | base/src/parallel/pipeline.c:282-292 | The named slot takes the id unless it is the own one. |
| Startup.ForkCallbacks.ForkChildAfter | base/src/parallel/fork.c:31-33 | The callbacks of a child, table first and rooms second, make of the process what the model of the start says, and send the two claims. |
| Startup.ForkCallbacks.ForkParentAfter | base/src/parallel/fork.c:27-30 | The same for the callbacks of the parent and its broadcasts. |
| Startup.RoomMaster.ForkChildAfter | apps/chat/src/room_master.c:166-172 | The child creates the two rooms at the counter and claims them in the database under its id. |
| Startup.RoomMaster.ForkParentAfter | apps/chat/src/room_master.c:161-165 | The parent moves the counter past them. |
| Startup.RoomMaster.AddHelper | apps/chat/src/room_master.c:139-158 | One room is created and claimed. |
| LoadBalancer.RoundRobinIsFair | apps/load_balancer/src/load_balancer_subsystem.c:18-25 | For any number of calls the choice is a worker in the table, never the master, and no worker is more than one choice ahead of another. |
| LoadBalancer.Balancer.Next | apps/load_balancer/src/load_balancer_subsystem.c:23-25 | Each call moves the stored id to the next choice. |
| LoadBalancer.Balancer.constructor | apps/load_balancer/src/load_balancer_subsystem.c:18-21 | The first choice is counted from the master's own id. |
| LoadBalancer.TimesByLap | base/src/parallel/pipeline.c:75-88 | A worker has been chosen once per full lap, and once more if the current lap has passed it. |
| Fiber.RunsKeepLives | base/src/fiber.c:28-56 | In every run in which fibers return fine and none is told DESTROYED a second time, a slot is EMPTY exactly when its function is NULL, and each registration is called with CREATED, then ACTIVATED, and at most once with DESTROYED. |
| Fiber.LivesAlwaysIff | base/src/fiber.c:96-113 | The discipline holds after every action and visit of a run if and only if every fiber called in it returns fine and, at whatever depth, none is told DESTROYED while it is being told. |
| Fiber.VisitKeepsLivesIff | base/src/fiber.c:98-111 | One visit keeps slots and calls in agreement if and only if nobody is told DESTROYED while being told, and the fiber still holds its slot when it returns; or has given it up, the slot is empty and the result is neither -1 nor -2; or somebody has taken the slot, is the first with that function, and the result is -1. |
| Fiber.OutsideKeepsLivesIff | base/src/fiber.c:45-56 | A registration or unregistration, with all that the fibers told DESTROYED do meanwhile, keeps slots and calls in agreement if and only if no function is told while it is being told. |
| Fiber.OpsKeepMid | base/src/fiber.c:45-56 | While one fiber is called and others are told, everything stays in order if and only if nobody is told twice, and the called fiber keeps its slot if and only if no operation at any depth removes it. |
| Fiber.NoSelfReturnsFine | base/src/fiber.c:45-56 | Fibers that never unregister themselves while they run or are told, nor have others do so that they unregister, always return fine. |
| Fiber.EverySlotHasOneTurn | base/src/fiber.c:96-113 | From the turn of one slot to its next, every other slot has exactly one turn: its fiber runs once if the slot is CREATED or ACTIVATED then, else not at all. |
| Fiber.FiberIsCalledEachRound | base/src/fiber.c:96-119 | Whatever else happens in a run, a registration that nobody removes and that returns neither -1 nor -2 is called exactly once in each round, first with CREATED and then with ACTIVATED, and nothing else happens in its slot. |
| Fiber.DeactivatedIsNotCalled | base/src/fiber.c:99-107 | One that has been deactivated is never called again. |
| Fiber.OwnVisit | base/src/fiber.c:101-110 | A fiber that is called and stays is ACTIVATED afterwards, or DEACTIVATED if it returned -2. |
| Fiber.RoundCalls | base/src/fiber.c:96-113 | In a round every slot that is CREATED or ACTIVATED when its turn comes has its fiber called with that status. |
| Fiber.VisitCalls | base/src/fiber.c:98-101 | A visit calls the fiber of such a slot and passes over any other. |
| Fiber.MinusOneEndsOwnSlot | base/src/fiber.c:102-104 | Returning -1 ends the fiber's own registration if and only if no earlier slot holds the same function; otherwise that one is ended and the own one goes on. |
| Fiber.SelfUnregisterFails | base/src/fiber.c:101-109 | A fiber that replaces itself while it runs makes its successor miss the CREATED call unless it returns -1. |
| Fiber.VanishingFiber | base/src/fiber.c:101-109 | A fiber that only removes itself crashes the process if and only if it returns -1, and leaves a slot without a function if and only if it returns -2. |
| Fiber.ToldTwice | base/src/fiber.c:50-52 | A fiber that unregisters itself when it is told DESTROYED and then registers another is told twice, and the other one vanishes without ever being called. |
| Fiber.FiberTable.RegisterFiber | base/src/fiber.c:28-43 | The first empty slot takes the fiber; a full array is left as it is. |
| Fiber.FiberTable.UnregisterFiber | base/src/fiber.c:45-56 | The first slot with the function is told, the function registers and unregisters what it likes, itself included, and then the slot is emptied. |
| Fiber.FiberTable.Step | base/src/fiber.c:96-113 | One round visits every slot in order on what the fibers before it left. |
| Fiber.FiberTable.VisitSlot | base/src/fiber.c:98-111 | One slot: the call, whatever the fiber does, to itself included, and what its return value does, the call of a NULL function included. |
| PluginChains.HoldsWhatWasRegistered | base/src/plugin.c:92-139 | After any registrations a space holds exactly the plugins registered there, in order. |
| PluginChains.CallReachesAllIff | base/src/plugin.c:169-190 | A call reaches every plugin of the space, those registered there during the call included, its assertion holding throughout, if and only if the space was used for that category alone, before and during the call. |
| PluginChains.CallEndsIff | base/src/plugin.c:169-190 | In a space of one category a call ends if and only if at some point as many plugins have been called as were in the space before plus those that the functions called have registered there. |
| PluginChains.EndlessCall | base/src/plugin.c:169-190 | If every function called registers a plugin of the category in the space, the call goes on for ever. |
| PluginChains.ZeroIffAllZero | base/src/plugin.c:169-178 | The combined result is 0 if and only if every function returned 0. |
| PluginChains.Composite.Plug | base/src/plugin.c:92-139 | The first pointer that is not NULL decides what is registered, and the plugin goes behind the last one of its space; all chains stay acyclic and share no node. |
| PluginChains.Composite.Call | base/src/plugin.c:169-190 | The plugins of the space are called, once each and in order, those that the functions called register meanwhile included, up to the first of another category, where the assertion fails; the results are combined by OR, and all registrations are kept. |
| PluginChains.Composite.VisitChain | base/src/plugin.c:205-220 | The visitor sees every plugin of the entry once, in order. |
| Scanner.NextToken | base/src/scanner.c:28-98 | The loop with its three indices returns the first word and what follows it. |
| Scanner.Tokenize | apps/chat/src/room_master.c:69-76 | Repeated calls until an empty token deliver all words and end. |
| Scanner.WordsAreMaximalRuns | base/src/scanner.c:28-98 | They are exactly the maximal runs free of space, CR and LF, in order. |
| Scanner.JoinedWordsComeBack | base/src/scanner.c:28-98 | Tokenizing a space-joined list of separator-free non-empty words returns the list. |
| Scanner.Trim | base/src/scanner.c:14-26 | The text up to its last byte that is not white space. |
| Transfer.HandAcross | apps/chat/src/join.c:23-41 | A connection goes over, from the command through the message and a 128-byte receive buffer with anything in it to the decoded port, command, room and name, for all names that together have at most 92 bytes. |
| Transfer.TransferFitsIff | net/src/raw_pipeline.c:93-96 | The message fits the receive buffer if and only if room and name together have at most 92 bytes, or 94 for a small process id. |
| Transfer.TransferComesBack | apps/chat/src/join.c:23-41 | A message that has arrived is read with the port, command, room and name that were sent, whatever follows it in the receive buffer. |
| Transfer.CommandComesBackIffWords | apps/chat/src/hiddenjoin.c:16-39 | The hidden join reads back what was sent if and only if room and name are separator-free and not empty. |
| Transfer.FillCommand | apps/chat/src/join.c:28-34 | The command text in the buffer. |
| Transfer.TransferParallel | net/src/streamio.c:64-78 | The message behind the destination and the port, if it fits. |
| Transfer.ReceiveTransfer | net/src/raw_pipeline.c:124-144 | The buffer at full capacity is fixed up, then port, command and names are decoded. |
| Transfer.GetRoomAndName | apps/chat/src/hiddenjoin.c:16-39 | The second and third word, if there are three. |

## Left out

- The aroop library (object factories, reference counts, hash tables, iterators) is not part of this model; maps and
  sequences stand for its containers, and a search by hash is a search by name.
- Real sockets, `poll`, `sendmsg`, `recvmsg`, `accept`, signals and `daemon`: replaced by queues, scripts and
  parameters.
- The HTTP and web chat applications, bubbling requests up to another stream, and `streamio_chain`: display, ad hoc
  parsing and delegation whose meaning depends on reference counts.
- `protostack.c`, `chat_zombie.c`, `lazy_call.c`, `db.c`, profiling, uptime, version, help and enumerate commands:
  they would only add easy members. That a chat is set aside and later freed is a step of `ChatSystem`.
- Message texts sent to users, log lines and plugin descriptions.
- The truncation of keys and commands in fixed stack buffers (32, 64 and 128 bytes): the methods require that the text
  fits, and in `ChatSystem` keys of any length are kept apart.
- `chat_get()` on a token without an object dereferences a null pointer; the model treats it as no chat.
- A failing send sets the soft-quit bit; in `ChatSystem` this is the step `SendFails`, which may happen at any time.
- PartitionedLoop.PartitionedTable.RegisterFd: what is written behind the arrays of a full partition is not modelled;
  the outcome says that it happens. Dispatching requires room for what the callbacks register.
- LoopAgreement.BothStepsAgree: for callbacks that do the same in the same order; the two loops visit ready
  descriptors in different orders, and what callbacks do may depend on that.
- PluginChains.Composite.Call: requires that the call ends; what the functions called do besides registering plugins
  is not modelled.
- Fiber.FiberTable.UnregisterFiber: scripts are finite; a fiber that unregisters itself every time it is told
  DESTROYED recurses for ever in the code.
- Startup.RunsKeepInv: a failing `fork` or socket during the start is not modelled; the code then logs it and stops
  forking, or loses the message.
- QuitChain.SoftQuitThenQuitStopsAll: assumes that the sockets accept the commands; a failing one stops the chain
  there.
- `fiber_module_run`: the loop around the rounds, which ends when the quit flag is set.
- Database.GlobalDb.OnBubbles: what the plugins under other commands do, and closing the pipe on an error, is not
  modelled.
- ChatSystem.StepKeepsInv: the commands rooms, pm, show, help, uptime, version and profiler send texts and change
  nothing here. No process ends in these runs, although a logged-in client can reach the hidden welcome command
  (`HiddenPluginRunsIff`), whose assertion then fails (`WelcomePlug`).
- Commands.CommandHook: the 64-byte buffer for the plugin space is not modelled; no plugin has a name that long.
- Pipeline.NodeTable.NextWorkerNid: requires a known id and at least two processes; otherwise the code reads outside
  its array.
