# A verified model of the POP3 client

The repository is an asynchronous POP3 client library. This project models its four
layers as they are stacked in the source and proves what the layers are for: decoding a
reply takes exactly its bytes off the stream, a command is answered by its own reply, a
pipelined batch cannot be told from a sequential one, and a caller of the reconnecting
client can work out from the outcomes alone which messages the server is going to delete.

Everything runs against an explicit POP3 server (`Server`): a session over a snapshot of
a mailbox with a set of marks, which are committed by QUIT and lost with the session. The
server may answer with any text and may refuse any command; it only has to be a server
in the sense of RFC 1939, RFC 2449 and RFC 3206. The connection (`Connection`) can fail at
any point, in both directions, and stays failed.

| module | models |
|---|---|
| `Basics`, `Strings` | errors and results; the parts of Rust's `str` that the parsers use |
| `Wire` | line framing, dot-stuffing, the terminator |
| `Response` | status lines, response codes, STAT, LIST, UIDL and CAPA payloads, both as printed by a server and as parsed |
| `Server` | commands on the wire, the session, its replies and its marks |
| `Schedule`, `Pipeline` | client and server as two processes over bounded byte pipes, under every interleaving |
| `Connection`, `Transport` | the connection with its faults; the buffered reader and writer |
| `Meaning`, `Exchange`, `Window` | specifications: what an answer means, what one call does, what a batch does |
| `Client`, `Conversation` | `Pop3Client`, with the windowed batches and the UIDL sync; any run of its calls |
| `Batch` | what a finished batch says about the server; independence of mode and schedule |
| `Builder`, `Redial` | connecting and logging in; the retry loop, and where it arrives |
| `Attempts`, `Calls` | specifications: one attempt at a call, and a call as a story of one or two attempts |
| `Reconnect` | `ReconnectingClient` |
| `Ledger`, `Sync` | whole runs: the caller's books up to QUIT, and sync cycles |

How to read the contracts:

- `Link` is the connection as the client meets it. The server's reaction to bytes that
  have reached it is computed at once, and the reply is in flight from then on; that this
  loses no behaviour of a batch is what `Batch.RetrScheduleAgrees` and
  `Batch.DeleScheduleAgrees` state, against the two-process model of `Schedule`.
- A `Link` carries its faults as a prophecy: how many writes, bytes and lines will get
  through. `Survives(l, c)` says that it holds out for a command and all of its answer, and
  `Worn(l, c)` is the link afterwards; whether a call is lost is an equivalence throughout,
  and so is how connecting and logging in fares (`Redial.Fare`).
- `LostBy` says how a lost call fails: with `Io` if its command could not be written, and
  otherwise with the link's fault; only an end of stream sets the closed flag, which a pool
  goes by (`src/pool.rs:132`).
- `Broken` means that a read or a write has failed. `IsLost(r)` means that a result is
  one of the three I/O-class errors, so it carries no answer of the server.
- `Pop3Client.Valid()` is the invariant between calls: on a connection that is not broken
  there is no unread input; `Authenticated` is true of the server too; pipelining implies
  `Authenticated`; the log of issued commands is lawful and is what has been written.
- A call of `ReconnectingClient` also returns, as a ghost value, its `Story`: the first
  attempt, and what came of reconnecting and of the second attempt if it was not to stand.
  The result is a function of the story (`OutcomeOf`), and `Told` says what must be true of
  it. Marks, values, outcomes and hidden losses are lemmas about stories.
- In a batch outcome `BatchDone(.., k, m)`, the first `k` results are the server's answers
  and the others are lost; the server has executed exactly the first `m` commands.

Where the code and its comments disagree, the model follows the code:

- `src/reconnect.rs:385` says that after a reconnect the mark of this very `dele` is gone,
  and `src/reconnect.rs:500` says it of `dele_many`. The code issues the command again in
  the new session, so these marks are set there (`Reconnect.ReconnectingClient.Dele`, `DeleMany`).
- `src/reconnect.rs:504-505` takes an item with a transient error as a sign of a dead
  connection and calls DELE idempotent. `[SYS/TEMP]` comes over a live connection, and a
  repeated DELE in one session is refused; the repetition is harmless because it runs in
  another session.
- The module documentation (`src/reconnect.rs:9-21`) has the outcome tell of every lost
  session. A wrapper that reconnects and then fails returns a plain error, and nothing
  tells of the loss. Over all calls, connections and futures, faults included, this happens
  if and only if the old connection does not hold out for the call or the server puts it
  off with `[SYS/TEMP]`, the retry loop arrives at a new session, and there the connection
  does not hold out, or a command of the call is not obeyed, or a number does not fit its
  type (`Calls.HiddenExactly`, `Ledger.CallHides`; concrete inputs in
  `Calls.HiddenExamples`). It can happen in every call but the two batches
  (`Calls.BatchErrors`). What a caller may rely on in spite of it: the books are exact if
  no call has returned an error since the last `Reconnected` or `rset` (`Ledger.RunAgrees`,
  `Ledger.BooksRecover`).
- A reconnecting `dele` carries its message number into the new session, whose mailbox may
  be numbered otherwise. `Calls.DeleTold` says which message an Ok has marked, and exactly
  when it is another one than the number meant before.
- The documented sync cycle (`src/client.rs:1108-1118`) is meant to leave the set equal to the
  listing. With the reconnecting client it does so if and only if nothing that was kept
  while pruning is gone when fetching (`Sync.AtLeastOnce`; the failing cycle is
  `Sync.LeftBehind`); a caller can be sure of it if the fetch was `Fresh` (`Sync.SyncCycle`).
- `read_line` hands out an unterminated last line. A message that is cut right after a dot
  at the start of a line is therefore returned as complete; `Wire.CutBody` says exactly
  which cuts are noticed.

## Model

| member | source | states |
|---|---|---|
| `Strings.SplitJoin` | src/response.rs:42-49 | Splitting at white space recovers the words that were joined with blanks, all of them, in order, also after trimming. |
| `Strings.SplitWord` | src/response.rs:42-49 | Any run of white space separates two words like one blank. |
| `Strings.ParseDec` | src/response.rs:50-55 | A printed decimal is read back exactly when it fits the integer type, and is an error otherwise. |
| `Strings.NoNumber` | src/response.rs:50-55 | A sign other than one leading plus, or any other character that is not a digit, makes a field no number. |
| `Strings.LinesUnlines` | src/response.rs:86-91 | Cutting a text into lines gives back the lines it was put together from. |
| `Wire.RoundTrip` | src/transport.rs:393-411 | Reading any list of lines in stuffed form, with terminator and any tail, yields exactly these lines and leaves exactly the tail. |
| `Wire.StuffInverse` | src/transport.rs:402-406 | No stuffed line passes for the terminator, and unstuffing it gives the line. |
| `Wire.UnstuffKeeps` | src/transport.rs:402-406 | A line that does not open with two dots is left as it is. |
| `Wire.DecodeBareLf` | src/transport.rs:393-411 | A body line that ends in a bare line feed is read like one that ends in CRLF. |
| `Wire.UniqueDecoding` | src/transport.rs:393-411 | Framing is self-delimiting: equal byte streams made of multi-line bodies have equal bodies and equal tails. |
| `Wire.CutBody` | src/transport.rs:377-411 | For a body cut at any position: the cut is reported, unless it falls right after a dot that opens a line, in which case the lines so far are returned as the whole. |
| `Wire.CutAtLineBoundary` | src/transport.rs:377-411 | A body cut between lines is always reported as incomplete. |
| `Wire.SilentTruncation` | src/transport.rs:377-399 | Every two-line message whose second line opens with a dot can be shortened to its first line by a cut, without an error. |
| `Response.StatusOk` | src/response.rs:26-29 | A positive status line parses back to its text. |
| `Response.RespCodeOf` | src/response.rs:7-23 | A refusal's response code decides the error; unknown codes count as part of the text. |
| `Response.CodedText` | src/response.rs:7-23 | On any text: one of the five known codes in brackets at the start decides the error and is cut off, with the blanks behind it. |
| `Response.UncodedText` | src/response.rs:7-23 | On any text that does not open with a known code in brackets, closed or not: a server error with the whole text. |
| `Response.StatusErr` | src/response.rs:26-38 | A negative status line parses to the error its refusal stands for. |
| `Response.RetryableStatus` | src/response.rs:7-38 | On any line whatever, the only retryable status is `-ERR` with a text that opens with `[SYS/TEMP]`; no status line looks like an I/O failure. |
| `Response.NoStatusLine` | src/response.rs:26-38 | Any line is positive exactly if it opens with the mark `+OK` and ends or goes on with white space there, and unreadable exactly if that holds of neither mark. |
| `Response.StatOf` | src/response.rs:41-59 | The drop listing parses back exactly when count and size fit 32 and 64 bits. |
| `Response.ScanEntry` | src/response.rs:62-83 | A scan line parses back exactly when both numbers fit their types. |
| `Response.UidlEntryOf` | src/response.rs:99-120 | A unique-id line parses back exactly when the number fits 32 bits. |
| `Response.FieldCounts` | src/response.rs:41-120 | STAT needs two fields and ignores further ones; a line of a listing has exactly two. |
| `Response.ListingEndToEnd` | src/response.rs:86-91 | A LIST body printed, stuffed, read and parsed is the same list in the same order if every number fits, an error otherwise, and the tail is untouched. |
| `Response.UidlEndToEnd` | src/response.rs:123-128 | The same for UIDL with any ids free of white space. |
| `Response.ParseAllSkips` | src/response.rs:86-91 | Blank lines in a listing do not matter, wherever they are. |
| `Response.ParseAllFails` | src/response.rs:86-91 | The first line that cannot be read fails the whole listing, with its own error. |
| `Response.CapaBody` | src/response.rs:136-147 | Capability lines parse back to their names and arguments, in order. |
| `Response.CapaSkips` | src/response.rs:136-147 | Blank lines between capabilities do not matter. |
| `Server.CommandRoundTrip` | src/transport.rs:366-371 | A server reads every command the client can send as what was meant, and it is one line. |
| `Server.ReplyAtState` | src/client.rs:690-711 | The i-th answer of a run of commands is given in the state the earlier ones have led to. |
| `Server.EntriesExactly` | src/client.rs:600-615 | The listing has every message that is not marked, exactly once, by strictly rising numbers. |
| `Server.DeleCounts` | src/client.rs:519-523 | An obeyed DELE takes one message, and that message's size, off what STAT counts. |
| `Server.TopLinesOf` | src/client.rs:1227-1234 | TOP shows the header, the blank line and the first k lines of the body. |
| `Server.AfterAppend` | src/client.rs:716-768 | Running two batches one after the other is running their concatenation, in state and in bytes. |
| `Server.UnmarkedExpunges` | src/client.rs:1197-1205 | What a committed session leaves is the mailbox without exactly the messages with marked numbers, in the old order. |
| `Schedule.Progress` | src/client.rs:69-72 | In every state that satisfies the invariant, client or server can move or the batch is done. |
| `Schedule.MeasureStep` | src/client.rs:716-768 | Every step of either process takes exactly one off a measure. |
| `Schedule.EverySchedule` | src/client.rs:716-768 | Under every interleaving of byte steps: nothing gets stuck, the length is bounded, and at the end the client holds the replies of the one-by-one run, the server is in its state, and all pipes are empty. |
| `Schedule.TooLongAWindowSticks` | src/client.rs:69-72 | If the commands behind the first exceed the pipe to the server, and the first reply the pipe back, some schedule blocks for good. |
| `Schedule.WindowBoundIsExact` | src/client.rs:69-72 | For a window with a long first reply, absence of deadlock is equivalent to the commands behind the first fitting into the pipe. |
| `Pipeline.DataFramed` | src/client.rs:775-780 | A RETR reply is complete for its reader at its last byte and at no byte before. |
| `Pipeline.ServerConforms` | src/client.rs:775-780 | Every reply of the server to a batch command is self-delimiting for the batch readers. |
| `Pipeline.WindowsFit` | src/client.rs:69-72 | With ids of 32 bits, all windows of four commands fit into a pipe of 51 bytes. |
| `Pipeline.FiftyBytesAreTooFew` | src/client.rs:69-72 | Over a pipe of 50 bytes a window of four RETR with ids of ten digits blocks for good in some schedule, if the first message is longer than the pipe back. |
| `Pipeline.BatchUnderEverySchedule` | src/client.rs:716-768 | A windowed RETR or DELE batch over a pipe of at least 51 bytes out and one byte back never blocks, ends, and delivers the answers and the session of the sequential run. |
| `Connection.FeedBatch` | src/transport.rs:366-371 | However many bytes of a batch get through, the server has executed a prefix of it, and all of it if all bytes did. |
| `Connection.ReceiveBatch` | src/client.rs:721-746 | The same for a write or flush that fails anywhere in a window. |
| `Transport.Transport.SendCommand` | src/transport.rs:366-371 | Command, CRLF, flush: on Ok exactly these bytes were accepted; on an error the server has executed the command or not, and writing stays dead. |
| `Transport.Transport.ReadLine` | src/transport.rs:377-387 | Takes one line off the stream, or fails with the fault that has struck; the closed flag is set exactly if that is the end of the stream. |
| `Transport.Transport.ReadMultiline` | src/transport.rs:393-411 | Ok exactly if all lines of the body get to the client, with the decoded body and the tail left in the stream; otherwise as a failed `read_line`. |
| `Transport.Transport.UpgradeInPlace` | src/transport.rs:265-306 | Refused with unread input or when encrypted; a failed handshake leaves no usable stream; only success sets the flag. |
| `Meaning.StatAnswer` | src/client.rs:519-523 | Parsing the answer to STAT gives count and size of the unmarked messages, or the server's refusal. |
| `Meaning.ListAnswer` | src/client.rs:556-571 | Parsing the answer to LIST gives the scan listing of the unmarked messages. |
| `Meaning.UidlAnswer` | src/client.rs:600-615 | Parsing the answer to UIDL gives the unique-ids of the unmarked messages. |
| `Meaning.CapaAnswer` | src/client.rs:1258-1262 | Parsing the answer to CAPA gives the announced capabilities. |
| `Meaning.PipeliningLine` | src/client.rs:422-425 | Of any CAPA body: pipelining is on exactly if some line opens with the word PIPELINING. |
| `Meaning.DenialOf` | src/client.rs:403-417 | What becomes of a refused login, code by code: none, an unknown one and AUTH are failed authentication, the other four keep their own errors; never a server error. |
| `Meaning.AllNewIsUnseen` | src/client.rs:993-999 | The filtered listing is the one list that has every unmarked message with an unseen UID, exactly once, by rising numbers. |
| `Meaning.FetchedAllNew` | src/client.rs:1052-1063 | The same for the pairs of a fetch, each with its message. |
| `Exchange.StatusLineRead` | src/client.rs:1265-1270 | The line read after a command has been sent is the status line of its own answer, and what is left unread is that answer's body; it is lost exactly if the link does not hold out for it. |
| `Exchange.StatusLineLostBy` | src/transport.rs:377-387 | A written command whose status line is lost fails with the fault of the link, and the closed flag is set exactly if that is the end of the stream. |
| `Exchange.BodyRead` | src/transport.rs:393-411 | The body read after it is the answer's own, and lost exactly if the link does not hold out for all its lines. |
| `Exchange.WireTrace` | src/transport.rs:366-371 | Cutting the written bytes at CRLF gives back the issued commands one by one. |
| `Exchange.IssueOne` | src/client.rs:1265-1278 | Issuing a permitted command keeps the log lawful (mailbox commands only after the server has accepted a PASS or APOP, no STLS when authenticated or encrypted, authentication only by PASS or APOP and never left) and equal to what is written. |
| `Exchange.LoginSecond` | src/client.rs:403-417 | USER and PASS: success means both were accepted; failure is the first refusal, as what `Meaning.DenialOf` makes of its code. |
| `Exchange.FareSecond` | src/client.rs:403-417 | Whether the login gets through, fails for the moment or fails for good is a function of the link and the session. |
| `Exchange.OnlySysTempIsTransient` | src/client.rs:403-417 | A refused login yields a retryable error exactly when the refusal said `[SYS/TEMP]`. |
| `Exchange.AdvertisedExactly` | src/client.rs:422-425 | Pipelining is advertised exactly if CAPA is obeyed and the server has a capability of the name PIPELINING. |
| `Exchange.TimestampTaken` | src/client.rs:56-60 | The timestamp of a greeting runs from its first `<` through the next `>`. |
| `Exchange.TimestampMissing` | src/client.rs:56-60 | There is none exactly if no `>` stands behind a `<`. |
| `Exchange.ApopCommandOf` | src/client.rs:477-482 | APOP sends the user name and the digest of timestamp and password. |
| `Client.Pop3Client.Send` | src/client.rs:1266-1266 | Writes one permitted command; the server executes it at most once, and exactly once if nothing was lost. |
| `Client.Pop3Client.SendAndCheck` | src/client.rs:1265-1270 | The status returned is that of this command's answer; of the answer only its body is left to read. A lost call fails with Io if the command could not be written and otherwise with the fault of the link; the closed flag is set exactly by an end of stream. |
| `Client.Pop3Client.WithBody` | src/client.rs:1258-1262 | A multi-line answer is consumed to its last byte, also when it is negative. |
| `Client.Pop3Client.Stat` | src/client.rs:519-523 | Refused without a trace unless authenticated; otherwise the server's count and size, or its refusal, or a lost connection. |
| `Client.Pop3Client.ListAll` | src/client.rs:556-571 | The listing the session shows; a number out of range is an error that leaves the stream in step. |
| `Client.Pop3Client.ListSingle` | src/client.rs:556-571 | One scan entry of an unmarked message; id zero is refused without a trace. |
| `Client.Pop3Client.UidlAll` | src/client.rs:600-615 | All unique-ids the session shows. |
| `Client.Pop3Client.UidlSingle` | src/client.rs:600-615 | One unique-id of an unmarked message. |
| `Client.Pop3Client.Retr` | src/client.rs:638-644 | The whole message with that number, or the refusal. |
| `Client.Pop3Client.Top` | src/client.rs:1227-1234 | Header and the first lines of the message with that number. |
| `Client.Pop3Client.Dele` | src/client.rs:802-807 | An answered call is Ok exactly if the server has marked the message; a lost call may or may not have marked it. |
| `Client.Pop3Client.Rset` | src/client.rs:940-944 | An answered call is Ok exactly if the server has cleared all marks; a lost call may or may not have. |
| `Client.Pop3Client.Noop` | src/client.rs:1165-1169 | Changes nothing but the position in the conversation; on a stream that has ended it fails with ConnectionClosed and sets the closed flag. |
| `Client.Pop3Client.Capa` | src/client.rs:1258-1262 | The announced capabilities, allowed in every state. |
| `Client.Pop3Client.Login` | src/client.rs:396-428 | Authenticated exactly on Ok; a refused or lost login leaves the state; a refusal is reported by its code and never as a server error, a loss as that of the step it hit; the swallowed CAPA leaves no unread input, and pipelining is on exactly if its answer announced it. |
| `Client.Pop3Client.Probe` | src/client.rs:422-425 | The capability probe's answer is consumed or the connection is broken; either way login succeeds. |
| `Client.Pop3Client.Apop` | src/client.rs:469-498 | One APOP instead of USER and PASS, otherwise as in Login, errors and pipelining flag included; without a timestamp in the greeting nothing is sent. |
| `Client.Pop3Client.Stls` | src/client.rs:354-370 | Never sent when authenticated or encrypted; encrypted afterwards exactly if the server agreed and the handshake succeeded. |
| `Client.Pop3Client.Quit` | src/client.rs:1197-1205 | An answered call is Ok exactly if the server has ended the session, which commits its marks, and then sets the closed flag; a lost call may or may not have, and fails like any other. |
| `Client.Pop3Client.Put` | src/client.rs:721-734 | After each write of a window the buffer holds exactly the commands so far, or the server has a prefix and writing is dead. |
| `Client.Pop3Client.SendWindow` | src/client.rs:721-746 | Sends a window with one flush; on failure the server has executed some prefix of it. |
| `Client.Pop3Client.ReadRetrResponse` | src/client.rs:775-780 | Takes exactly one reply off the stream and returns what it means. |
| `Client.Pop3Client.RetrWindow` | src/client.rs:719-768 | Results are the true answers in order; as many as commands, or the connection is broken. |
| `Client.Pop3Client.DeleWindow` | src/client.rs:868-915 | The same for DELE. |
| `Client.Pop3Client.RetrManyPipelined` | src/client.rs:716-772 | One result per id for any length and alignment: true answers first, then losses; at most one window executed unanswered. The losses are all Io if writing failed and all ConnectionClosed otherwise. |
| `Client.Pop3Client.RetrManySequential` | src/client.rs:703-709 | The same promise for the fallback, without the window bound; exactly as many commands are answered as the link holds out for in turn, and each lost one fails by itself. |
| `Client.Pop3Client.RetrMany` | src/client.rs:690-713 | Validates all ids before anything is sent, then pipelines exactly if the server has announced it. |
| `Client.Pop3Client.DeleManyPipelined` | src/client.rs:864-919 | One result per id: true answers first, then losses, all Io or all ConnectionClosed; at most one window executed unanswered. |
| `Client.Pop3Client.DeleManySequential` | src/client.rs:852-858 | The same promise for the fallback, without the window bound, with as many answers as the link holds out for in turn. |
| `Client.Pop3Client.DeleMany` | src/client.rs:839-861 | Validates all ids before anything is sent, then pipelines exactly if the server has announced it. |
| `Client.Pop3Client.UnseenUids` | src/client.rs:993-999 | Every listed entry that is not in the caller's set, exactly once, by rising message numbers. |
| `Client.Pop3Client.FetchUnseen` | src/client.rs:1052-1063 | Every unseen entry, exactly once and by rising numbers, paired with the whole message it names, none left out; the mailbox is untouched; it is lost exactly if the link does not hold out, with the error of the step it hit, and otherwise fails exactly as UIDL or the first RETR that is not obeyed. |
| `Client.Pop3Client.PruneSeen` | src/client.rs:1128-1144 | The set shrinks to what is listed, the rest is returned once each; on any error, which is the one of UIDL, the set is untouched. |
| `Client.SeenSet.Retain` | src/client.rs:1135-1142 | The old set is partitioned into kept and dropped, without repeats. |
| `Window.OneMore` | src/client.rs:703-709 | One more sequential command extends the answered prefix, or everything after it is lost. |
| `Window.NextInTurn` | src/client.rs:703-709 | The same together with how many commands the link holds out for in turn, and with the error of each lost one. |
| `Window.Received` | src/client.rs:748-766 | Reading a reply moves it from the stream to the results and leaves the others in flight. |
| `Window.WindowNext` | src/client.rs:719-768 | A whole window keeps the answered prefix; a failed one fills up the rest with errors and ends the batch. |
| `Window.WindowIsChunk` | src/client.rs:719-768 | The windows the client sends are the chunks of four of which the byte-level model speaks. |
| `Window.FetchStep` | src/client.rs:1058-1061 | One RETR of a fetch adds its message to the pairs and passes on to the next entry. |
| `Conversation.ValidIsOrderly` | src/client.rs:1265-1278 | On any client: as long as no write has failed, the written lines are the issued commands, one by one; before every mailbox command a PASS or APOP was issued, and the server has accepted one; STLS neither authenticated nor encrypted; every reply is consumed. |
| `Conversation.Converse` | src/client.rs:354-498 | The same after any list of calls in any order with any faults, QUIT or not; an authenticated client stays authenticated. |
| `Batch.ModesAgree` | src/client.rs:703-713 | Two executions of a batch from the same session, in any modes, agree in results, final session and empty input if neither lost its connection. |
| `Batch.ReliableModesAgree` | src/client.rs:703-713 | On reliable connections pipelined and sequential execution always agree. |
| `Batch.RetrScheduleAgrees` | src/client.rs:716-768 | The byte-level run under any schedule reads replies that mean what the client returns, and ends in the same session. |
| `Batch.DeleScheduleAgrees` | src/client.rs:864-919 | The same for DELE. |
| `Batch.ReadersRecover` | src/client.rs:775-780 | Read from its bytes alone, every batch reply gives back what it means. |
| `Batch.DeleBatchAccount` | src/client.rs:864-919 | After any DELE batch, failed or not, the marks are the old ones, the acknowledged ids, and those of at most m - k commands in doubt. |
| `Batch.FailedPipelineDoubt` | src/client.rs:864-919 | Acknowledged ids are marked, and at most one window of ids is marked beyond them. |
| `Batch.RefusedItem` | src/client.rs:897-912 | An item with a server error carries the refusal of its own command, which marked nothing. |
| `Batch.RetrBatchContent` | src/client.rs:748-766 | An Ok item of a RETR batch is the whole message with that number, never a part of one. |
| `Batch.RetrBatchAccount` | src/client.rs:690-713 | A RETR batch never changes mailbox or marks. |
| `Builder.Greet` | src/client.rs:95-105 | A client exactly after a positive greeting, whose text it keeps; a refusal becomes its error. |
| `Builder.OpenClient` | src/builder.rs:257-267 | Connecting fails by the first refusal, the handshake or a lost connection, and on a dependable server only by a refusal; the client is encrypted exactly if it was to be. |
| `Builder.Connect` | src/builder.rs:253-282 | Authenticated exactly if the builder has credentials; the session starts without marks; with or without credentials, whether it gets through, fails for the moment or for good is a function of the dial. |
| `Builder.Authenticate` | src/builder.rs:270-279 | USER and PASS with the builder's name and password in that order, or APOP for the timestamp of the greeting, with the outcome of that login. |
| `Builder.LoginVerdict` | src/client.rs:403-417 | Login is accepted exactly if neither answer is a refusal, and a rejection is the first refusal, as its code has it. |
| `Redial.ConnectAndAuth` | src/reconnect.rs:672-680 | One attempt: whether it gets through, fails for the moment or for good is a function of the dial, faults included; Ok only without any refusal, and then in the session that login has led to; never Ok with a builder that authenticates by itself. |
| `Redial.TriedLogin` | src/reconnect.rs:686-691 | On a dependable server both are equivalences: a wrong password is never retryable. |
| `Redial.DependableFare` | src/reconnect.rs:672-680 | On a dependable connection an attempt gets through exactly if nothing is refused, and fails for the moment exactly if the first refusal says `[SYS/TEMP]`. |
| `Redial.Retry` | src/reconnect.rs:201-229 | At most max_retries + 1 attempts, on consecutive connections, all but the last failed with a retryable error; the callback is told 1, 2, 3 and so on. |
| `Redial.ArrivesExactly` | src/reconnect.rs:265-299 | Over all futures the loop arrives exactly at the first attempt that is not bound to fail for the moment, within the budget, if that one is not bound to fail for good. |
| `Attempts.DidAttempt` | src/reconnect.rs:310-463 | A single command leaves marks as its effect says, or within the old ones and the id it named. |
| `Attempts.DeleManyAttempt` | src/reconnect.rs:501-518 | A DELE batch leaves marks within the old ones, the acknowledged and the lost items. |
| `Attempts.SingleSettles` | src/reconnect.rs:310-463 | An attempt is lost exactly if the link does not hold out for the command and its answer, and otherwise fails exactly as the session decides. |
| `Attempts.PlainVerdicts` | src/reconnect.rs:686-691 | NOOP, RSET, DELE, RETR, TOP and CAPA fail exactly if the server does not obey, and for the moment exactly if it refuses with `[SYS/TEMP]`. |
| `Attempts.StatVerdict` | src/response.rs:41-59 | STAT fails exactly if not obeyed or out of range. |
| `Attempts.UidlVerdict` | src/response.rs:123-128 | UIDL fails exactly if not obeyed or some number is out of range. |
| `Attempts.FetchFailsBy` | src/client.rs:1052-1063 | A fetch fails exactly if UIDL or one of its RETRs is not obeyed or a number is out of range, and for the moment exactly if the first refusal says `[SYS/TEMP]`. |
| `Attempts.FetchedIsOwn` | src/client.rs:1052-1063 | Pairs fetched from one session carry each UID's own content. |
| `Calls.LastAttempt` | src/reconnect.rs:310-322 | The caller gets the result of the last attempt: on the old session, or on a new one without marks; or the error of reconnecting. |
| `Calls.ValueTold` | src/reconnect.rs:310-463 | An Ok value is what the command means in the session of the last attempt, and that command is the last it has executed. |
| `Calls.StatTold` | src/reconnect.rs:310-320 | An Ok STAT is count and size of the session the call ends in. |
| `Calls.ListTold` | src/reconnect.rs:330-340 | An Ok LIST is the scan listing of the session the call ends in. |
| `Calls.ScanTold` | src/reconnect.rs:330-340 | An Ok LIST with a number is the one entry of that message there. |
| `Calls.UidlTold` | src/reconnect.rs:350-360 | An Ok UIDL is the unique-id listing of the session the call ends in. |
| `Calls.UidTold` | src/reconnect.rs:350-360 | An Ok UIDL with a number is the unique-id of that message there. |
| `Calls.UnseenTold` | src/reconnect.rs:525-535 | The unseen entries are those of the session the call ends in, each exactly once, by rising numbers. |
| `Calls.CapaTold` | src/reconnect.rs:454-464 | The capabilities are those of the session the call ends in. |
| `Calls.RetrTold` | src/reconnect.rs:367-377 | An Ok RETR is the whole message with that number in the session the call ends in. |
| `Calls.TopTold` | src/reconnect.rs:437-447 | An Ok TOP is header and first lines of that message there. |
| `Calls.DeleTold` | src/reconnect.rs:386-396 | Which message, by unique-id, an Ok DELE has marked, and exactly when it is another than the one that had the number before. |
| `Calls.StoryAccount` | src/reconnect.rs:9-21 | After any call the marks are within what the outcome says, and exactly that if it is Ok and the connection alive; no call returns NotAuthenticated. |
| `Calls.DeleManyAccount` | src/reconnect.rs:501-518 | After a DELE batch the marks are the acknowledged ids on top of the old ones or of none, up to lost items. |
| `Calls.RetrManyTold` | src/reconnect.rs:474-491 | Every Ok item of a RETR batch is the message with that number in the session the call ends in. |
| `Calls.BatchErrors` | src/reconnect.rs:474-518 | A batch that returns an error has not replaced the session; an id of zero always is one. |
| `Calls.BatchFresh` | src/reconnect.rs:475-480 | The first attempt stands exactly if no item of it, at whatever index, is Io, ConnectionClosed, Timeout or `[SYS/TEMP]`; then, and only then, the outcome is Fresh, every item is the server's own answer, and the connection is alive. |
| `Calls.MovedExactly` | src/reconnect.rs:310-322 | The session is replaced exactly if the first attempt failed for the moment and the retry loop arrives. |
| `Calls.HiddenExactly` | src/reconnect.rs:313-316 | Over all connections and futures, whatever faults they hold: exactly when the session is replaced, and exactly when the caller is not told. |
| `Calls.OkExactly` | src/reconnect.rs:310-463 | Over all connections and futures: exactly when the call returns Ok. |
| `Calls.SingleHides` | src/reconnect.rs:310-463 | In terms of a command: the loss is hidden exactly if the connection does not hold out for it or the old session puts it off, a new session is reached, and there it is lost, not obeyed, or answered out of range. |
| `Calls.SingleSucceeds` | src/reconnect.rs:310-463 | In terms of a command: Ok exactly if it is obeyed with an answer in range, at once, or after a reconnect by which the loop arrives and the connection holds out for probe and command. |
| `Calls.FetchHides` | src/reconnect.rs:542-555 | The same for a fetch, over all its commands. |
| `Calls.Dropped` | src/reconnect.rs:313-316 | A connection that has dropped, noticed or not, holds out for no command. |
| `Ledger.CallHides` | src/reconnect.rs:310-572 | The same for each of the sixteen calls. |
| `Calls.HiddenExamples` | src/reconnect.rs:386-396 | DELE 7 on a connection that has dropped: hidden if the new session has no message 7 or refuses it, told if it has it and obeys. |
| `Reconnect.ReconnectingClient.DoReconnect` | src/reconnect.rs:265-299 | Replaces the client by an authenticated one without marks, or fails and leaves it as it is. |
| `Reconnect.ReconnectingClient.Decide` | src/reconnect.rs:310-322 | A first attempt that fails for the moment, and only that, makes it reconnect; the session is replaced exactly if that succeeds; the connections used up and the calls of the callback are those of the story. |
| `Reconnect.ReconnectingClient.Stat` | src/reconnect.rs:310-320 | Returns the outcome of a true story of one or two attempts at STAT; Reconnected only if the inner client was replaced, once, and Fresh only if not. |
| `Reconnect.ReconnectingClient.ListAll` | src/reconnect.rs:330-340 | The same for LIST. |
| `Reconnect.ReconnectingClient.UidlAll` | src/reconnect.rs:350-360 | The same for UIDL. |
| `Reconnect.ReconnectingClient.Retr` | src/reconnect.rs:367-377 | The same for RETR. |
| `Reconnect.ReconnectingClient.Dele` | src/reconnect.rs:386-396 | The same for DELE, which is issued again in the new session. |
| `Reconnect.ReconnectingClient.Rset` | src/reconnect.rs:403-413 | The same for RSET. |
| `Reconnect.ReconnectingClient.RetrMany` | src/reconnect.rs:474-491 | The same for a RETR batch, each attempt carried out whole: one lost or put-off item, at whatever index, makes it reconnect and start over, and a Fresh result has only the server's own answers. |
| `Reconnect.ReconnectingClient.DeleMany` | src/reconnect.rs:501-518 | The same for a DELE batch, with the same test of every item; the items are the server's answers to the attempt the caller gets. |
| `Reconnect.ReconnectingClient.FetchUnseen` | src/reconnect.rs:542-555 | Every unseen UID of the session the call ends in, each message once, with that UID's own message, however mailboxes are renumbered between sessions; an error is that of the last attempt or of reconnecting. |
| `Reconnect.ReconnectingClient.PruneSeen` | src/reconnect.rs:562-572 | The set is pruned once, against the final session, or not at all; an error is that of the last attempt or of reconnecting. |
| `Reconnect.ReconnectingClient.Quit` | src/reconnect.rs:585-587 | Ok means the session is ended with the marks it had; a refusal leaves it open. |
| `Reconnect.ConnectReconnecting` | src/reconnect.rs:188-238 | A reconnecting client exists only for a builder without auto-authentication, authenticated, in an unmarked session; it keeps the builder, the account, the budget and the callback that it was given, so that reconnecting depends on them and on the connections that are left. |
| `Reconnect.ConnectAndStat` | src/reconnect.rs:188-320 | Connecting and a first call: the client is logged in at the dial at which the loop arrives for that account and budget; the call moves exactly if its first attempt fails for the moment and the loop arrives again, and is then logged in at that later dial. |
| `Ledger.EnterAgrees` | src/reconnect.rs:9-21 | One call keeps the caller's books in agreement with the session, whatever happened. |
| `Ledger.RunAgrees` | src/reconnect.rs:9-21 | Over every run the marks are within what the books hold or doubt, and equal to the pending set if no call failed and the connection is alive. |
| `Ledger.BooksRecover` | src/reconnect.rs:9-21 | A Reconnected outcome or a reset makes the books exact again, whatever failed before, until the next error, and empties the doubt until the next lost item. |
| `Ledger.RunToQuit` | src/reconnect.rs:585-587 | Any sequence of calls, each carried out in turn, and QUIT: the books are the balance of their reports; a session that QUIT ends commits at most what the books hold or doubt, and exactly the pending set if QUIT is Ok and no call failed; the mailbox is then the old one without exactly the pending numbers. |
| `Ledger.Perform` | src/reconnect.rs:310-572 | Any of the sixteen calls is carried out and reported truly: unless it is a batch, Ok exactly if it was going to succeed; and silently about a replaced session exactly if it was going to hide it. |
| `Ledger.HiddenLoss` | src/reconnect.rs:9-21 | Exactly when a call hides the loss; the caller's books then still hold the earlier deletions, and QUIT commits none of them. |
| `Sync.AtMostOnce` | src/client.rs:1052-1063 | Over any number of cycles, failed ones included, no UID is delivered twice if UIDs that have left do not return. |
| `Sync.NoReturnsExactly` | src/client.rs:1108-1118 | What is assumed there: a UID that is in one listing and missing from a later one stays missing. |
| `Sync.AtLeastOnce` | src/client.rs:1128-1144 | What a finished cycle saw listed has been delivered by its end or was seen from the start; and the set then equals the listing exactly if nothing kept while pruning was gone when fetching. |
| `Sync.LeftBehind` | src/reconnect.rs:542-572 | The smallest cycle that leaves a UID in the set that is no longer listed. |
| `Sync.ListsAll` | src/client.rs:1128-1144 | Without marks UIDL lists the whole mailbox. |
| `Sync.OncePerUid` | src/client.rs:1052-1063 | If a UID names one message of the mailbox, a round hands out no UID twice, and as many pairs as UIDs. |
| `Sync.SyncCycle` | src/reconnect.rs:542-572 | One cycle of the reconnecting client is a cycle over true listings, and hands out each UID's own message, none twice; if the fetch was Fresh, the set is then exactly the mailbox. |
| `Sync.CycleExactly` | src/reconnect.rs:542-572 | A cycle gets past pruning, and past fetching, exactly if that call was going to succeed. |
| `Sync.SyncMany` | src/reconnect.rs:542-572 | Any number of cycles, each carried out in turn: no round hands out a message twice, no two rounds hand out the same UID, and after a finished round everything in the mailbox was handed out or seen from the start. |
| `Sync.SyncSession` | src/client.rs:1052-1144 | On a plain client a cycle finishes exactly if the link holds out for it and the session obeys; it then leaves exactly the mailbox's UIDs in the set, and has handed out each new message once. |

## Left out

- TCP, TLS and the asynchronous plumbing (`InnerStream`, polling, certificates): foreign input and output; the TLS handshake is a parameter that succeeds or fails.
- Wall-clock time: a timeout is one of the faults; backoff delays and jitter are not modelled, only the number of attempts.
- The late reply that can follow a timeout: once a read has failed, the model's connection stays failed, while the code would take the next bytes for the answer to the next command.
- Transport.Transport.ReadLine: a read that succeeds after an earlier one has timed out does not occur; see the line before.
- Cuts in the middle of a line on a live connection: inbound streams of a `Link` end between lines; what the framing does with other cuts is `Wire.CutBody`.
- Servers that break the protocol: replies of the wrong shape, unsolicited lines, text that opens with a bracket without being a response code. `Response.RetryableStatus` and the parsers themselves cover arbitrary lines.
- UTF-8: text is a sequence of characters, and a byte that is not valid UTF-8, which the code reports as an I/O error, does not occur.
- The wrap-around of the callback's 32-bit attempt counter: attempts are counted without a bound.
- MD5: the digest is a parameter, any function whose result is a single line.
- MIME parsing (`retr_parsed`, `top_parsed`): it calls a foreign parser on the result of `retr` and `top`.
- `src/pool.rs`: its guarantee of one connection per mailbox lies in the bb8 crate, which is not part of this model.
- Builder setters, ports, accessors and Display texts: each is settled by one branch.
- Texts inside `Io`, `Tls`, `InvalidDnsName` and `Parse` errors: no code branches on them.
- `list` and `uidl` with an optional number are two methods each, one for every branch.
- The loops of the batches are split into a method per phase (`Put`, `Fill`, `SendWindow`, `DrainRetr`, `RetrWindow`, `RetrChunk`, `RetrInTurn` and their DELE counterparts); the order of writes, flushes and reads is the source's.
- Client.Pop3Client.PruneSeen: the order of the dropped UIDs is left open, as the order of a hash set is.
- Sync.AtMostOnce: a UID that leaves the mailbox and comes back may be delivered again; that is what pruning is for.
- Reconnect.ReconnectingClient.FetchUnseen: rests on the server keeping a UID with its message across sessions, as section 7 of RFC 1939 demands.
