# A Dafny model of oresat-cand

oresat-cand is the CANopen daemon of the OreSat Linux cards, with a Python client library. This project models
the parts of it that keep state between calls or between processes and proves, for all inputs, runs and
interleavings, what they keep:

- `Segments.dfy`, `Files.dfy`: objects moved in pieces of any size, from memory and from files (`od_ext.c`);
- `System.dfy`, `FileTransfer.dfy`: the file transfer object on top of them, with its cache and its /tmp copies;
- `OsCommand.dfy`: the OS command object, whose writer, reader and worker thread share memory without a lock;
- `Integers.dfy`, `Utf8.dfy`, `Messages.dfy`, `Wire.dfy`: IPC messages, packed in Python and read in C and back;
- `Replica.dfy`: the object dictionary replicated between the daemon and its clients;
- `Dictionary.dfy`, `CobIds.dfy`: the configuration merge, the PDO counts and the COB-IDs;
- `Bitfields.dfy`: bit fields on unbounded integers;
- `FileList.dfy`: the hand-written JSON file list and the loop that splits it.

`dafny verify dfyconfig.toml` checks everything.

## How the model is laid out

Each stateful part has three layers. A pure step function says what one call or one atomic step does to a value
that holds the state. Classes and methods with the source's own loops and in-place updates are proved equal to
those functions. The theorems are about whole runs of the steps: any sequence of segments, restarts, abandoned
transfers, outside changes, or any interleaving of the parties.

Assumptions: one transfer is active per object at a time, and an announced length stays fixed during a transfer;
channels are reliable and first-in first-out; loads and stores of one byte, the copying of one segment, one
store into a dictionary entry and one send on a socket are each atomic, and nothing larger is: in particular the
daemon's store and its broadcast are two steps, between which its other threads may act. A file read moves all
its bytes at once; a file write hands its bytes to the C library, which passes them on to the file in pieces at
any time, the last of them in `fclose`. The file system is a map from paths to bytes with a set of directories;
paths are compared as strings, and a file whose name is removed lives on for the handle that has it open.
`OD_find`, `OD_set_value` and `OD_writeOriginal` belong to the CANopen stack, which is not part of this model:
they are taken as lookup by index and as a write that succeeds exactly when the length matches a fixed-size
entry. The result of `popen`, changes made by other programs and the scheduling of threads are parameters of the
runs.

## What turned out to need a condition

- Replicas of an entry converge in every run exactly when no client exists, or any two daemon threads that write
  the entry are kept apart by some lock and, if the consumer thread is one of them, the one-byte client counter
  shows two or more (`ConvergenceCondition`, for any set of locks; without locks: at most one writing thread).
  `ipc_broadcast_data` stores and sends without a lock, so two threads that overlap in one entry can broadcast in
  the other order than they stored (`OverlappingWritersDiverge`); runs in which no two overlap converge
  (`ReplicasConverge`). With one counted client nothing is echoed: sends can be swapped, a CAN write can cross a
  client write, and with 256 or 257 clients the counter wraps.
- `od_write` stores before it encodes, so a value that does not fit its type stays at its writer: a quiet client
  holds the daemon's value exactly when its own value fits (`Agreement` in `ReplicasConverge`).
- A download abandoned mid-way leaves bytes in the C library that the next upload of the same file flushes over its
  fresh /tmp copy, because the copy is made before the old handle is closed (`AbandonedDownloadSpoils`). The upload
  delivers the selected file exactly when that file is not itself the /tmp copy and no such bytes are held back, or
  only bytes the file has at that place anyway (`UploadDeliversSnapshot`). After sessions in which no download was
  left unfinished, none are (`UploadAfterFinishedDownloads`).
- A file in /tmp that is named by its path is its own copy: its upload empties it and answers NO_DATA
  (`SelfCopyErases`, `UploadOfTmpErases`).
- `path_join` does not heed the length of its output. A selected path of 256 bytes or more reaches into
  `tmp_file_path`, and the next transfer's join overwrites that part: the transfer changes the selection exactly
  when the path is that long (`SelectionSurvives`; the one exception is a path that goes on with just the /tmp
  path). With the cache directory /var/cache/oresat/fread, that is every plain name of 232 bytes or more
  (`ShortPathsSurvive`): the download is accepted and lands in the cache, and the upload looks for another file
  (`LongNameMisleadsUpload`). A name of more than 250 bytes also makes the /tmp join leave its field
  (`JoinedPaths`).
- A file name written without a terminator keeps the tail of the previous one (`NameReadBack`,
  `UnterminatedNameMixes`); the library's own `sdo_write_str` always sends the terminator.
- A half-finished name never changes the selected file, but one that starts with a slash keeps the next
  download from reaching the cache, because that decision is made on the raw buffer (`HalfNameDivertsDownload`,
  and `DownloadLands` for every raw buffer).
- The file round trip therefore works exactly when the cache is another directory than /tmp and the cached path
  survives the join (`RoundTripCondition`).
- The merged dictionary is complete exactly when the last configured index is no lower than the last built-in
  one (`MergeIsUnion`); built-in entries after it are never copied. A configuration with one object more than the
  slots allow is accepted, and its last object then takes the terminator's slot, outside `size` (`MergeLoads`).
  With more, the load stores past its allocation before anything is checked, except that it fails cleanly when
  exactly one slot is missing for an object that is already built in (`MergeRefuses`).
- `bitfield_to_value` compares with `bits << 1`: every value survives splitting and joining exactly when no field
  is wider than two bits (`WideFieldsRejectValues`), and an accepted assignment is recovered exactly when its
  parts fit (`SplitOfJoin`).
- The statuses NO_ERROR_NO_REPLY and ERROR_REPLY are never reported, and the byte after the reply buffer is
  written exactly when a command printed at least as many bytes as the buffer holds (`StatusAndBounds`).
- The last terminator of the file list lies outside its buffer exactly when there are two names or more and the
  text fills an allocation to the last byte (`TerminatorFits`); the splitter recovers the names exactly when none
  has a comma (`ListRoundTrip`).

## Model

| member | source | states |
|---|---|---|
| Segments.ReadReassembles | src/od_extensions/od_ext.c:7-54 | for every list of counts a read completes exactly when the counts cover the data; then the chunks concatenate to the data and the offset is zero; otherwise every call was PARTIAL and the prefix was delivered |
| Segments.ReadProgress | src/od_extensions/od_ext.c:37-44 | a PARTIAL read of at least one byte leaves strictly less to read and stays short of the end |
| Segments.WriteReassembles | src/od_extensions/od_ext.c:56-122 | every split of a payload of the announced length ends OK with the payload as buffer prefix and the rest untouched, and no call is wasted; a shorter payload leaves the transfer open |
| Segments.WriteCompletes | src/od_extensions/od_ext.c:79-121 | for arbitrary segments a write ends OK exactly when leading segments add up to the announced length, and those bytes are what was stored |
| Segments.WriteOvershoots | src/od_extensions/od_ext.c:98-106 | the segment that overshoots returns DATA_LONG, stores nothing and resets the offset |
| Segments.WriteAnswers | src/od_extensions/od_ext.c:56-122 | every write call by what is left to come: code, cursor, buffer, count and total; too long an object is refused outright |
| Segments.ReadAnswers | src/od_extensions/od_ext.c:7-54 | every read call by what is left to read, a stream past the end included |
| Segments.ReadData | src/od_extensions/od_ext.c:7-54 | the C handler, null arguments included, performs exactly the read step on the stream and the destination buffer |
| Segments.WriteData | src/od_extensions/od_ext.c:56-122 | the C handler, null arguments included, performs exactly the write step; its extra size check always passes |
| Files.HandlesBalance | src/od_extensions/od_ext.c:124-269 | over any run of reads, writes, restarts, outside changes and flushes, opens minus closes is one exactly while the handle is set, and a transfer past its start holds the handle short of its end |
| Files.SizeErrorsUnreachable | src/od_extensions/od_ext.c:158-164 | in every reachable state a file call reports DEV_INCOMPAT exactly when it starts a transfer and the file cannot be opened, so the size-error branches are dead |
| Files.EmptyFileHasNoData | src/od_extensions/od_ext.c:141-147 | an empty file is answered with NO_DATA and closed again |
| Files.FileReadsRefineDataReads | src/od_extensions/od_ext.c:124-190 | for non-empty content, taken after the handle left open by an earlier transfer has been flushed and closed, and any segment sizes and restarts, file reads and memory reads give the same codes, cursors, bytes and counts |
| Files.FileWritesRefineDataWrites | src/od_extensions/od_ext.c:192-269 | for any segments, restarts within the limit and flushes at any time, file writes and memory writes give the same codes, cursors and counts, and the file with the bytes the C library holds back is the buffer's prefix |
| Files.ReadStepsAgree | src/od_extensions/od_ext.c:131-189 | one step of the read simulation, the closing of a stale handle included; mid-way the handle's position is the stream offset |
| Files.WriteStepsAgree | src/od_extensions/od_ext.c:199-268 | one step of the write simulation: the handle has taken over exactly the received prefix, on OK the file holds the whole object and the handle is closed, other files are as the closing of a stale handle left them |
| Files.ReadFile | src/od_extensions/od_ext.c:124-190 | the C handler performs exactly the file read step |
| Files.WriteFile | src/od_extensions/od_ext.c:192-269 | the C handler performs exactly the file write step |
| System.BaseNameOfPlain | src/common/system.c:119-124 | the base name of a plain name, alone or behind a directory, is that name |
| System.BaseNameMeans | src/od_extensions/file_transfer_ext.c:191-196 | the base name is "." of an empty text, "/" of slashes only, and else the last component, without a slash |
| System.PathJoinMeans | src/common/system.c:304-341 | joining gives the path of the tail in the head, for every head but the empty one; the root is not repeated, and a tail that is the root is refused |
| System.CopyMeans | src/common/system.c:111-149 | a copy gives the destination the source's content, or empties a file copied onto itself, and changes nothing else; without a source there is none |
| System.CopyIntoMeans | src/common/system.c:119-124 | a copy into a directory goes to the source's name there, unless that is a directory |
| System.MoveMeans | src/common/system.c:151-160 | a move is a copy without its source |
| FileTransfer.NameReadBack | src/od_extensions/file_transfer_ext.c:191-196 | the name read from the buffer after a write is the one written exactly when it carries a terminator or the old buffer has one right after it |
| FileTransfer.UnterminatedNameMixes | src/od_extensions/file_transfer_ext.c:191-196 | the failing family: an unterminated name over a longer one selects itself plus the old tail |
| FileTransfer.UnterminatedExample | src/od_extensions/file_transfer_ext.c:191-196 | over "abc", the unterminated name "x" selects "xbc" |
| FileTransfer.SelectionSurvives | src/common/system.c:304-341 | any download, and any upload that finds its file, changes the selected path exactly when the path reaches into the next field and does not happen to go on with the /tmp path; what it becomes is stated |
| FileTransfer.ShortPathsSurvive | src/common/system.c:304-341 | for cache directories shorter than 260 bytes, exactly the joined paths of fewer than 256 bytes survive; behind a 23-byte directory, the plain names of fewer than 232 |
| FileTransfer.JoinedPaths | src/od_extensions/file_transfer_ext.c:211-213 | the /tmp join stays within its field exactly when the /tmp path has fewer than 256 bytes, and then it is read back as joined |
| FileTransfer.SelectionIsStable | src/od_extensions/file_transfer_ext.c:149-242 | after any sequence of finished or abandoned namings, downloads, uploads, removals and outside changes, the selected name and path are what the completed, terminated names and the removals alone determine, as long as the paths of every selection on the way end inside their fields |
| FileTransfer.SelectionFollowsNames | src/od_extensions/file_transfer_ext.c:188-242 | for names of any kind, unterminated ones included, the name buffer and the selected pair after any sessions are what the namings, finished or not, and the removals alone determine, as long as the paths of every selection on the way end inside their fields |
| FileTransfer.PlainSelects | src/od_extensions/file_transfer_ext.c:191-200 | a plain name, with or without slashes behind it, selects the path cache/name; an empty text selects "." in the cache |
| FileTransfer.NamingPath | src/od_extensions/file_transfer_ext.c:191-200 | a name that is a path selects that path itself, and its last component as the name |
| FileTransfer.CutMeans | src/od_extensions/file_transfer_ext.c:191-193 | basename ends the text in the buffer where its trailing slashes begin and changes nothing else |
| FileTransfer.SessionsBalance | src/od_extensions/file_transfer_ext.c:149-242 | over any sequence of finished or abandoned namings, downloads and uploads, removals and outside changes, opens minus closes is one exactly while the object's handle is set, unless a store has gone past the path fields |
| FileTransfer.DownloadLands | src/od_extensions/file_transfer_ext.c:205-230 | any segmentation of a download under a name whose /tmp path fits its field, with others changing other files and flushes at any time, ends OK; where the bytes land, cache/name or /tmp/name, is stated for every content of the raw name, and what is selected afterwards for every length of the selected path |
| FileTransfer.UploadDeliversSnapshot | src/od_extensions/file_transfer_ext.c:149-173 | whatever is added, replaced or deleted between reads, the bytes uploaded are those of the copy made at the first read, NO_DATA if it is empty; they are the selected file's bytes exactly when the file is not its own /tmp copy and no earlier download left other bytes held back for the /tmp path |
| FileTransfer.SelfCopyErases | src/od_extensions/file_transfer_ext.c:158-169 | the upload of a selected file that is its own /tmp copy answers NO_DATA and leaves the file empty and all others as they were |
| FileTransfer.UploadOfTmpErases | src/od_extensions/file_transfer_ext.c:149-200 | that happens to every file in /tmp that is named by its path |
| FileTransfer.UploadAfterFinishedDownloads | src/od_extensions/file_transfer_ext.c:149-173 | after any sessions in which no download was left unfinished, an upload delivers the selected file, unless it is its own /tmp copy |
| FileTransfer.AbandonedDownloadSpoils | src/od_extensions/file_transfer_ext.c:158-169 | the failing family: after an abandoned first segment, of which any proper prefix has been flushed, an upload delivers the cached file with the rest of the segment written over it |
| FileTransfer.FileRoundTrip | src/od_extensions/file_transfer_ext.c:117-248 | name, download, upload, each in its own segmentation and from any prior state, abandoned transfers included, when the cached path ends inside its field: the cache holds exactly the bytes, /tmp is clean, all other files are as others and the closing of a stale handle left them, and the upload returns the bytes |
| FileTransfer.LongNameMisleadsUpload | src/od_extensions/file_transfer_ext.c:155-157 | the failing family: with a cached path that does not survive the join, the accepted download lands in the cache but changes the selection, and the upload answers NO_DATA when no file lies at the mixed-up path |
| FileTransfer.RoundTripCondition | src/od_extensions/file_transfer_ext.c:117-248 | with enough reads and no file at a mixed-up path, the upload returns the downloaded bytes if and only if the cache is not /tmp and the cached path survives the join |
| FileTransfer.RoundTripFailsInTmp | src/common/system.c:111-160 | with /tmp as the cache directory the accepted download is lost and the upload answers NO_DATA |
| FileTransfer.HalfNameDivertsDownload | src/od_extensions/file_transfer_ext.c:215-229 | any abandoned name that starts with a slash, terminated or not, leaves the selection alone but keeps the next download in /tmp |
| FileTransfer.RemovalForgets | src/od_extensions/file_transfer_ext.c:231-242 | removal deletes the cached file and the /tmp copy and nothing else, takes the /tmp file away from a handle that holds bytes back for it, and data access answers NO_DATA until a name is written |
| FileTransfer.NothingSelected | src/od_extensions/file_transfer_ext.c:206-232 | without a selected name nothing is removed, written or read |
| FileTransfer.UploadCannotCopy | src/od_extensions/file_transfer_ext.c:159-165 | an upload whose copy cannot be made answers DATA_LOC_CTRL |
| FileTransfer.CountsReported | src/od_extensions/od_ext.c:120-121 | every segment that is taken is counted in full, for names and for data |
| FileTransfer.SampleRoundTrip | src/od_extensions/file_transfer_ext.c:117-248 | the round trip in one concrete scenario |
| FileTransfer.FileTransferObject.Write | src/od_extensions/file_transfer_ext.c:181-248 | the write entry point performs exactly the step of its subindex |
| FileTransfer.FileTransferObject.Put | src/common/system.c:304-341 | a text and its terminator are stored from the start of a path field on, over whatever follows, and a store past both fields is noted |
| FileTransfer.FileTransferObject.Read | src/od_extensions/file_transfer_ext.c:146-178 | the read entry point performs exactly the step of its subindex, for the name and data subindexes and above |
| OsCommand.CommandHandOff | src/od_extensions/os_command_ext.c:49-120 | in every interleaving, no step changes the command while it executes, finished texts are the accepted texts in order, all but the one executing, and the worker holds that one |
| OsCommand.AcceptedIsReceived | src/od_extensions/os_command_ext.c:105-120 | a command is accepted only by the step that completes a transfer, and it is the text of that transfer's segments |
| OsCommand.ReplyIntegrity | src/od_extensions/os_command_ext.c:86-103 | a read that began on NO_ERROR_REPLY and ended before another command was accepted delivered exactly the text of the last output, whatever zero bytes it has, and its terminator; an empty text is never delivered |
| OsCommand.StatusAndBounds | src/common/system.c:60-77 | two statuses are never reported; the store past the reply buffer happens exactly when a command printed REPLY_LEN bytes or more |
| OsCommand.CommandAccepted | src/od_extensions/os_command_ext.c:105-120 | every command of at most 4095 bytes, in any segmentation, that nobody comes between is handed to the worker |
| OsCommand.CommandLimit | src/od_extensions/os_command_ext.c:112-113 | a longer one is refused and leaves the command text as it was |
| OsCommand.CommandEnds | src/od_extensions/os_command_ext.c:59-82 | from wherever the worker is in a command, it ends it by itself with the status that popen's answer calls for, ticks off exactly that command, and keeps what it printed |
| OsCommand.FinishSetsStatus | src/od_extensions/os_command_ext.c:65-80 | in every interleaving a command is ticked off by a worker step that sets its status, NO_ERROR_REPLY exactly after one that ran |
| OsCommand.ReplyDelivered | src/od_extensions/os_command_ext.c:95-100 | after any run that ended in NO_ERROR_REPLY with a text, an undisturbed read in any segmentation delivers all of it |
| OsCommand.NextKeepsInv | src/od_extensions/os_command_ext.c:49-120 | every atomic step of writer, reader and worker keeps the hand-off, transfer, reply and read invariants |
| OsCommand.OsCommandObject.Write | src/od_extensions/os_command_ext.c:105-120 | a whole write call is the four atomic writer steps, and is refused with DATA_LOC_CTRL exactly while a command executes; other subindexes are READONLY |
| OsCommand.OsCommandObject.Turn | src/od_extensions/os_command_ext.c:59-82 | a whole turn of the worker, on the object's own fields: after a command that ran the status is NO_ERROR_REPLY and the reply begins with its output and a terminator, after an empty command or a failed popen ERROR_NO_REPLY, and otherwise nothing changes; exactly the command's text is ticked off, and the turn is a run of atomic worker steps |
| OsCommand.OsCommandObject.RunBash | src/common/system.c:60-77 | the reply buffer holds the output, cut at the buffer's end, with its terminator if it fits; the length result counts the terminator |
| OsCommand.OsCommandObject.Read | src/od_extensions/os_command_ext.c:86-103 | a read of the reply is the atomic read step, a read of the command a memory read of its text; neither changes the shared state |
| Integers.IntType.DecodeEncode | libs/python/oresat_cand/entry.py:102-142 | decoding undoes encoding for every value that fits an integer type |
| Integers.IntType.EncodeDecode | libs/python/oresat_cand/entry.py:102-142 | every byte string of the right length is the encoding of the value it decodes to |
| Integers.IntType.TwosComplement | libs/python/oresat_cand/entry.py:139-139 | a negative value is encoded as the number one full span above it |
| Integers.LowByteFirst | libs/python/oresat_cand/message.py:41-41 | the byte at position i is the digit for 256 to the power i |
| Integers.Ranges | libs/python/oresat_cand/entry.py:15-31 | the ranges of the signed and unsigned types of one, two, four and eight bytes |
| Utf8.RoundTrip | libs/python/oresat_cand/message.py:33-36 | strict UTF-8 decoding undoes encoding for every string |
| Utf8.DecodeIsStrict | libs/python/oresat_cand/message.py:63-63 | decoding accepts nothing but encodings, so overlong forms and surrogates are refused |
| Utf8.BytePatterns | libs/python/oresat_cand/message.py:34-34 | the lead and continuation bytes by the size of the code point (section 3 of RFC 3629) |
| Messages.MessageRoundTrip | libs/python/oresat_cand/message.py:23-71 | for every format list, fitting values and suffix, unpacking gives the values with texts stripped, so the message comes back exactly when its texts have no surrounding whitespace |
| Messages.PackIs | libs/python/oresat_cand/message.py:23-43 | packing succeeds exactly when every number fits its type and every byte string and encoded text has at most 255 bytes, and gives version 0, the id and the values in order |
| Messages.TooFewValues | libs/python/oresat_cand/message.py:39-43 | with too few values nothing is packed |
| Messages.HeaderDecides | libs/python/oresat_cand/message.py:46-50 | only messages with version 0 and the right id unpack, and which error comes first |
| Messages.GroupNeedsBytes | libs/python/oresat_cand/message.py:64-70 | a group of numbers cut short is refused |
| Messages.CountedBytesCutShort | libs/python/oresat_cand/message.py:55-59 | counted bytes cut short, or without a length, come out shorter |
| Messages.TextMustDecode | libs/python/oresat_cand/message.py:60-70 | a text that is not UTF-8 is refused |
| Messages.PackingIsPrefixFree | libs/python/oresat_cand/message.py:23-43 | packing is injective and self-delimiting per message type, whatever whitespace the texts carry |
| Messages.StripIsTrim | libs/python/oresat_cand/message.py:63-63 | stripping leaves a text unchanged exactly when it has no whitespace at its ends |
| Messages.StripTakesSpaces | libs/python/oresat_cand/message.py:63-63 | stripping takes away nothing but whitespace, and only at the ends |
| Messages.Spaces | libs/python/oresat_cand/message.py:63-63 | the 29 whitespace characters |
| Messages.PackLoop | libs/python/oresat_cand/message.py:23-43 | the packing loop computes the packed message, errors included |
| Messages.UnpackLoop | libs/python/oresat_cand/message.py:45-71 | the unpacking loop computes the values, errors included |
| Wire.OdLayout | src/ipc/ipc_msg.h:64-70 | the bytes of a Python OD write, one by one, as the packed C struct has them |
| Wire.OdWriteReachesDaemon | src/ipc/ipc_consume.c:43-122 | every packed OD write passes the gates and is read back field by field, whatever the receive buffer held |
| Wire.BroadcastReachesClients | src/ipc/ipc_broadcast.c:93-114 | every broadcast of 1 to 255 bytes unpacks in Python to the same index, subindex and data |
| Wire.SdoWriteReachesDaemon | src/ipc/ipc_respond.c:191-207 | every packed SDO write passes its gate and is read back field by field |
| Wire.TpdoSendReachesDaemon | src/ipc/ipc_consume.c:93-101 | every packed TPDO message passes its gate and is read back |
| Wire.SdoLayout | src/ipc/ipc_msg.h:72-79 | the bytes of a Python SDO write, one by one |
| Wire.ConfigReachesDaemon | src/ipc/ipc_consume.c:133-141 | every configuration path of at most 255 encoded bytes passes its gate and is found, up to its first zero byte |
| Wire.Gates | src/ipc/ipc_consume.c:50-122 | the gates in bytes: a message is read exactly when it has its handler's id and a length in its range |
| Wire.HandlersDoNotMix | src/ipc/ipc_consume.c:59-77 | no message is read by two handlers |
| Wire.BroadcastSent | src/ipc/ipc_broadcast.c:94-95 | a write is broadcast exactly when it has between one and 255 bytes |
| Replica.ReplicasConverge | libs/python/oresat_cand/node_client.py:122-138 | in every interleaving of client writes, re-sends, sends in any thread order, stores and broadcasts of any daemon threads and deliveries in which no two threads overlap in the entry, with two or more counted clients or no client writing it: a client with nothing to send or receive, once the daemon has sent its broadcasts, holds the daemon's value exactly when its own value fits |
| Replica.ValuesAreGiven | libs/python/oresat_cand/node_client.py:107-138 | in every run, the daemon's value of an entry, every client's value and every value on its way is the default or one that some client write or CAN write of the run gave to that entry |
| Replica.ChannelsAreFifo | src/ipc/ipc_broadcast.c:93-114 | after any run, what a client has yet to receive is what was broadcast less what it took from the front, and what the daemon has yet to consume is what the client sent less what it took |
| Replica.ResendSendsLocal | libs/python/oresat_cand/node_client.py:107-111 | a re-send queues exactly the local value, if it fits, and changes nothing else |
| Replica.WriteSendsValue | libs/python/oresat_cand/node_client.py:213-221 | a write is stored, and queued with exactly the value written if it fits |
| Replica.StoreMeans | src/ipc/ipc_broadcast.c:93-114 | a store gives the entry exactly the bytes written and leaves a broadcast exactly for indexes from 0x4000 that do not bypass the extension |
| Replica.ConsumeMeans | src/ipc/ipc_consume.c:112-122 | a client's message is stored, and echoed exactly with two or more counted clients |
| Replica.ReceiveMeans | libs/python/oresat_cand/node_client.py:129-138 | a client takes over exactly the value broadcast |
| Replica.WriteComesBack | src/ipc/ipc_consume.c:112-122 | with two or more counted clients, a write that nobody crosses reaches the daemon and comes back |
| Replica.FittingReplicasAgree | libs/python/oresat_cand/node_client.py:213-221 | in the same runs, when clients write only values that fit, such a client holds the daemon's value |
| Replica.SeparateWritersConverge | src/main.c:490-499 | an entry whose writing threads are kept apart by locks converges in every run that respects them |
| Replica.SingleWriterConverges | src/main.c:490-499 | an entry that one daemon thread writes converges in every run, the consumer thread alone with two or more counted clients included |
| Replica.ConvergenceCondition | src/ipc/ipc_broadcast.c:47-65 | for any set of writing daemon threads and of locks between them, every run converges if and only if there are no clients, or any two of the threads are kept apart and, if the consumer thread is one of them, the one-byte counter shows two or more |
| Replica.OverlappingWritersDiverge | src/ipc/ipc_broadcast.c:93-114 | for any two daemon threads that both write an entry and are not kept apart, a run in which one stores and broadcasts between the other's store and broadcast leaves a quiet client behind |
| Replica.WrappedCounterDiverges | src/ipc/ipc_consume.c:112-122 | with at most one counted client among several, one client write leaves another client behind |
| Replica.SwappedSendsDiverge | src/ipc/ipc_consume.c:112-122 | with one client and no CAN write, two sends in the other order than the writes leave the client behind |
| Replica.SingleClientDiverges | src/ipc/ipc_consume.c:112-122 | with one client, a CAN write crossing a client write leaves the client behind |
| Replica.StepKeeps | src/ipc/ipc_broadcast.c:93-114 | every step that does not overlap keeps the invariant: what the daemon's threads have still to broadcast of the entry is its value, and a client without an unsent write of it settles on that value or on one of its own that does not fit |
| Replica.NodeClient.OdWrite | libs/python/oresat_cand/node_client.py:213-221 | the client stores the value and sends exactly the packed message the model queues |
| Replica.NodeClient.Resend | libs/python/oresat_cand/node_client.py:107-111 | the bytes re-sent decode to the local value, and nothing is sent exactly when it does not fit |
| Replica.NodeClient.ConsumeOne | libs/python/oresat_cand/node_client.py:129-138 | a broadcast updates the local value exactly as the model says |
| Replica.Daemon.ConsumeOdWrite | src/ipc/ipc_consume.c:43-122 | the consumer thread stores exactly as the model says, bypassing the broadcast with at most one counted client |
| Replica.Daemon.StoreValue | src/ipc/ipc_broadcast.c:93-94 | a write stores the bytes and, through the extension of indexes from 0x4000, leaves its thread with a broadcast to send |
| Replica.Daemon.SendHeld | src/ipc/ipc_broadcast.c:95-113 | the thread's broadcast is sent, as a separate step |
| Replica.Daemon.ClientEvent | src/ipc/ipc_broadcast.c:59-65 | the client counter is a byte and wraps |
| Dictionary.MergeLoads | src/load_configs.c:283-339 | for strictly increasing indexes and any declared count, loading succeeds exactly when the configured objects exceed the slots by at most one, terminator's slot included; then the list is the sorted union, built-in definitions winning, of the configuration with the built-in entries up to its last index, records holding exactly their own rows, and the free slots are counted exactly |
| Dictionary.MergeRefuses | src/load_configs.c:283-337 | a load with more objects than that ends at the first object no slot is left for: with a clean failure if exactly one slot is missing and the object is already built in, otherwise by storing past the allocation |
| Dictionary.MergeIsUnion | src/load_configs.c:225-231 | with the right declared count loading stays inside the allocation and succeeds; the list is full exactly when the last configured index is no lower than the last built-in one, and then it is the union of both dictionaries |
| Dictionary.PlainLoad | src/load_configs.c:173-180 | without the built-in dictionary, loading succeeds exactly when at most one object too many follows the declared count, and gives the configured objects themselves |
| Dictionary.LoadConfig | src/load_configs.c:219-339 | the row loop with its inner copy loop computes the row-by-row load |
| Dictionary.SubRowsFill | src/load_configs.c:563-571 | the rows below a new record fill its subindexes in order and nothing else |
| Dictionary.SubRowsDropped | src/load_configs.c:315-331 | the rows below a redefined built-in entry change nothing |
| Dictionary.UnparsedObjectFails | src/load_configs.c:283-306 | an object that cannot be parsed fails the load, unless it is built in and dropped |
| Dictionary.SubRowRefused | src/load_configs.c:315-331 | a subindex below a variable or without a usable default fails the load; one too many is stored past the record |
| Dictionary.RefusalEnds | src/load_configs.c:299-331 | one refused row ends the load |
| Dictionary.PdoCount | src/canopenlinux/config.c:41-58 | on the merged dictionary the pointer walk stays inside the list exactly when an entry lies at or above the bound, and counts exactly the distinct indexes of both dictionaries in the range |
| Dictionary.PdosCounted | src/canopenlinux/config.c:41-58 | the two counts of a merged dictionary are the numbers of indexes in [0x1400, 0x1600) and [0x1800, 0x1A00) |
| Dictionary.FillPdoCounts | src/canopenlinux/config.c:41-58 | the two counting loops compute the two walks |
| Dictionary.CountPdos | src/canopenlinux/config.c:42-48 | the counting loop computes the walk |
| CobIds.CobIdsAssigned | src/main.c:128-152 | on the whole list and for every node id, defaulted PDOs get pairwise distinct 11-bit identifiers with their flags kept, the others are unchanged, and a second application changes nothing |
| CobIds.PredefinedConnectionSet | src/main.c:138-150 | in numbers: entry 0x1400 + i or 0x1800 + i gets the node id added exactly when its identifier is 0x200 or 0x180 plus 0x100 * (i % 4) + i / 4 |
| CobIds.OtherEntriesKept | src/main.c:138-150 | entries outside both ranges and entries without a COB-ID are left alone |
| CobIds.TpdoIdentifierMeans | src/main.c:144-150 | the transmit identifier of a node, in numbers, is what its fixed entry holds |
| CobIds.NodesShareIffRangesOverlap | src/main.c:144-150 | two nodes whose ranges stay at or below 127 share a transmit identifier exactly when their ranges overlap |
| CobIds.FixCobIds | src/main.c:128-152 | the loop rewrites every entry of the list in place, each as its own content says |
| Bitfields.JoinOfSplit | libs/python/oresat_cand/entry.py:78-100 | for disjoint fields the split of a value is accepted exactly when every part passes the size test, and then joins to the value under the union of the masks |
| Bitfields.SplitOfJoin | libs/python/oresat_cand/entry.py:78-100 | an accepted assignment to disjoint fields is recovered exactly when every part fits its field |
| Bitfields.WideFieldsRejectValues | libs/python/oresat_cand/entry.py:87-88 | every value is accepted after splitting exactly when no field is wider than two bits, overlapping fields included |
| Bitfields.JoinAccepts | libs/python/oresat_cand/entry.py:82-89 | an assignment is accepted exactly when no value is negative or above twice the width of its field |
| Bitfields.JoinIsSum | libs/python/oresat_cand/entry.py:89-90 | the joined value is the sum of the values times 2 to their offsets |
| Bitfields.PartMeans | libs/python/oresat_cand/entry.py:99-99 | a part is the digit of the value between what lies above and below its field |
| Bitfields.AndBits | libs/python/oresat_cand/entry.py:99-99 | a bit is set in `a & b` exactly when it is set in both |
| Bitfields.AndMask | libs/python/oresat_cand/entry.py:41-43 | a value under a field's mask is the field's bits in place |
| Bitfields.BitfieldToValue | libs/python/oresat_cand/entry.py:78-90 | the accumulating loop computes the joined value, errors included |
| Bitfields.ValueToBitfield | libs/python/oresat_cand/entry.py:92-100 | the loop maps exactly the fields to their parts, and refuses exactly negative values |
| FileList.BuildList | src/common/fcache.c:154-223 | every store of the loop is inside the grown buffer, the offset is the text length, and the result is the bracketed list of quoted names unless the growth limit is passed |
| FileList.ListTextIs | src/common/fcache.c:198-218 | the text is the bracketed list of the quoted names, separated by comma and space |
| FileList.SkippedMeans | src/common/fcache.c:176-179 | only ".", ".." and an empty name are left out |
| FileList.ListedMeans | src/common/fcache.c:175-179 | the other names are listed in directory order |
| FileList.BuiltUpTo | src/common/fcache.c:181-196 | the list is built exactly as long as at most 8192 bytes have to be reserved |
| FileList.TerminatorFits | src/common/fcache.c:216-221 | the last terminator fits exactly when there are fewer than two names or the text does not fill an allocation to the last byte |
| FileList.ListRoundTrip | scripts/fcache_list_main.c:61-74 | the splitter recovers the names in order exactly when none has a comma |
| FileList.CommaSplits | scripts/fcache_list_main.c:61-74 | the name "a,b" comes out as an empty line and a bracket |
| FileList.TokensSeparate | scripts/fcache_list_main.c:63-72 | the tokens on the two sides of a comma are found independently |
| FileList.ShowList | scripts/fcache_list_main.c:61-74 | the in-place token loop prints exactly the cleaned tokens |

## Left out

- The CANopen stack itself (SDO client and server, FIFOs, `OD_find`, epoll) and `src/canopenlinux/sdo_client.c`, whose loops depend on it.
- Files.SizeErrorsUnreachable: speaks of paths that name files or nothing, because on Linux `fopen` with "rb" also succeeds on a directory, whose reads then fail; `is_file` has the same gap.
- The `sendfile` loop of `copy_file`, which advances its offset twice, and the pointer it keeps to a joined path after the block that declares it (src/common/system.c:119-126): a copy is one whole-file step to the joined path. Creating a file never fails for want of a parent directory.
- An empty cache directory, for which `path_join` reads in front of its argument.
- What lies behind the two path fields, and the stack buffers of PATH_MAX bytes that other joins use: a store past the fields is only noted, and results about later states suppose that there was none. Reading a name buffer without any zero byte is taken to stop at its end.
- Null `countRead` and `countWritten` pointers, and null arguments of the file handlers.
- Subindexes 0 to 2 of the file transfer object: the original value, the number of files, and the list, which is rebuilt on every call.
- Broadcasts of writes made in several segments, which copy the announced length from the last segment; entries with strings, floats, booleans or domains; clients that join late.
- Message pairs whose two ends differ: emergency send, SDO to and from files, sync, SDO read replies and add-file replies.
- Array entries, access attributes, default parsing, the text of configuration lines, and more than one ";objects=" line.
- `str2buf.c`, the ECSS time and system extensions, logging and the command-line tools other than the list: each is a single computation that keeps nothing between calls.
- OsCommand.StatusAndBounds: says exactly when the byte after the reply buffer is written, but not what lies there; every claim about later states supposes that it belongs to no variable of the object.
- Which locks the CANopen stack holds around its writes: the convergence results take any set of locks between threads. The sharing of one ZeroMQ socket between threads, which the library does not allow, is not described either; each send is taken as atomic here.
- FileTransfer.SelectionIsStable: is about completed names that carry their terminator, as the library sends them; for any other name the bytes left in the buffer matter too, as SelectionFollowsNames says.
- FileTransfer.FileTransferObject.Read: covers the name subindex and those above it, because the first three only report the list and its length.
- OsCommand.OsCommandObject.Read: covers the command and reply subindexes; the status byte's numeric values are defined outside the repository, and subindex 0 is the original value.
- ReadProgress: states progress for counts of at least one byte, because a zero count makes none.
- FileList.ListRoundTrip: a token shorter than two characters, which only a name with a comma can cause, is taken to print nothing; in C the loop would leave the token.
