# The data plane of aether, modelled and proved

A Dafny 4.11 model of the userspace data plane in `native/aether/aether/src` and of the incremental
parsers and the retry protocol around it, with proofs of what they promise. `dafny verify dfyconfig.toml`
checks all of it.

* **Answers of HTTP/1.1** — `Text`, `Dechunk`, `Chunked`, `Http1`, `Answers` hold a reference reader that searches
  anew each time, the chunked grammar, and the laws of cutting an answer into pushes; `Senders` has what a
  server writes and where each of its answers ends, `Spelling` how text and numbers are written. `Reader` and
  `AnswerReader` hold the objects that remember how far they have looked, proved to reach the reference
  reader's state.
* **The network stack** — `Net` is the loop's state machine: flows, sockets, the backlog, the service
  pass, the reaper. `Isolation`, `Conservation`, `Datagrams`, `Closing`, `Liveness`, `Lifetimes`, `Admission` and
  `Uploads` are its laws over every run. `NetObjects` and `Scheduling` are the stack, the backlog, the loop and a flow's credit
  as objects whose methods are proved to take the machine's steps, up to whole runs of the loop.
* **Capsules over HTTP/2** — `Varint`, `Capsules`, `Tunnel`: the codec, the resumable parser, the batching
  sender, and the two ends joined. `Checksum` is the IPv4 header checksum and the probe packet.
* **The WARP API call** — `ApiCall`: retries, fail-over between ways, back-off.
* **Wire parsers and racing** — `ClientHello`, `Hellos`, `Hosts`, `Fragment`: the two ClientHello walkers, which
  names are hosts, and the cut of the first write. `Dns`, `Ech`: questions, replies, the ech parameter. `Racing`: the order of
  addresses and the race.

What is outside the process is a parameter: clocks are readings that never go back, random numbers and
answers are functions of the attempt, a TCP socket is the octets it took with how many of them were
acknowledged, and what a service pass finds of it is the pass's input. `usize` has 64 bits.

Some of what the code's own comments promise does not hold of the code; the model keeps the code:

* A chunk or trailer line of 8 KiB or more is accepted when it comes in one piece and refused when it comes
  cut between its CR and its LF (`Answers.CutRefusesAccepted` is such an answer; `Dechunk.SplitIndependence`,
  `Http1.EveryCutIffShortLines` and `Answers.EveryCutFinishesIff` have the exact condition).
* A flow whose peer closes first, or whose app is gone, can be asked to close over octets that are still
  pending, which then never leave, where the send buffer is set below 48 KB, a write is larger than the
  buffer, or a wait at the gate ran out (`Uploads.UploadCutByPeerClose` is such a run). With none of these,
  and so with the default buffers, the relay's writes of 16 KB and no wait that ran out, it never is
  (`Uploads.NeverAsksOverIff`).
* A bare packet that starts with 0x40 0x00 can lose its first two octets (`Tunnel.ContextLikeLost`, with the
  exact condition in `Tunnel.BareStripsIff`).
* A malformed capsule ends a drain, so that what stands behind it waits for the next push
  (`Tunnel.DrainCapsules`).
* The flag named for app data is set when the inbound queue goes first; either order leaves the same
  behind (`Scheduling.Driver.Turn`).

## Model

| member | source | states |
|---|---|---|
| Bytes.FirstExtends | native/aether/aether/src/https.rs:369-376 | the first match found in what has come is the first match in every longer input, which is what lets a search be resumed |
| Dechunk.StepExtends | native/aether/aether/src/https.rs:493-541 | one piece of a chunked body, once it can be read, reads the same whatever follows; so does every refusal but the one for a long line |
| Dechunk.FeedIsSettle | native/aether/aether/src/https.rs:491-543 | a body fed in any pieces that are not refused ends in the state of the reference reader on the whole body; a refusal other than for a long line is the reference reader's own |
| Dechunk.SplitIndependence | native/aether/aether/src/https.rs:514-525 | every way to cut a body gives the verdict of the whole body if and only if each line it completes is shorter than MAX_LINE, or its last line has no end and is longer than MAX_LINE |
| Chunked.ReadEncoded | native/aether/aether/src/https.rs:491-543 | every body of the chunked grammar is read exactly to its end and joins to its chunks' data, and the lines the reader meets are short if and only if every chunk, last and trailer line of the body is |
| Chunked.BodyOf | native/aether/aether/src/https.rs:491-543 | whatever is taken for a whole body decomposes into chunks, last chunk and trailer of the grammar, and the joined octets are those chunks' data |
| Chunked.WholeIffChunked | native/aether/aether/src/https.rs:491-555 | one reading takes a body for whole with joined data d if and only if the body starts with a sentence of the chunked grammar that carries d; `Chunked.EveryCutJoins` has a body in pieces |
| Chunked.EveryCutJoins | native/aether/aether/src/https.rs:491-555 | a sentence of the chunked grammar joins to its chunks' data, exactly to its end, however it is cut, if and only if each of its lines is shorter than MAX_LINE |
| Chunked.TruncatedChunked | native/aether/aether/src/https.rs:546-555 | no strict prefix of a chunked body is taken for whole |
| Chunked.HexLine | native/aether/aether/src/https.rs:530-537 | a size line in hexadecimal reads back as its number, for every usize |
| Chunked.SizeIff | native/aether/aether/src/https.rs:526-537 | a line gives a chunk of n octets if and only if it is valid UTF-8 and is n in hexadecimal, in letters of either case behind any zeros, with perhaps a plus before it, any white space around it and nothing or a semicolon and anything behind, and n is below 2^64 |
| Reader.FindWindow | native/aether/aether/src/https.rs:514-515 | the window search gives the first match and compares exactly the window starts from its start up to it, each once, in order |
| Reader.Dechunker.TakeData | native/aether/aether/src/https.rs:494-512 | the data of one chunk: state, wait or error of the reference step |
| Reader.Dechunker.TakeLine | native/aether/aether/src/https.rs:513-541 | one line, searched from where the last search stopped: state, wait or error of the reference step, which searches from the line's start |
| Reader.Dechunker.Advance | native/aether/aether/src/https.rs:491-543 | the resumable reader ends where the reference reader ends from the same state, and never compares a window start that any earlier push compared |
| Http1.SplitIndependence | native/aether/aether/src/https.rs:363-400 | an answer pushed in any pieces that are not refused ends with the heads, framing and joined body of one push of the whole, interim answers included; a refusal other than for a long chunk line refuses the whole too |
| Http1.EveryCutIffShortLines | native/aether/aether/src/https.rs:363-400 | an accepted answer has the same outcome however it is cut if and only if every chunk or trailer line in it is shorter than MAX_LINE |
| Answers.EveryCutFinishesIff | native/aether/aether/src/https.rs:363-426 | any head and any sentence of the chunked grammar behind it finish with the status, the fields and the chunks' data joined, however the connection cuts them, if and only if each line sent is shorter than MAX_LINE |
| Answers.LongTrailerCut | native/aether/aether/src/https.rs:514-525 | for every trailer line of MAX_LINE octets or more: the answer is accepted in one push with an empty body, and refused when the line's CR and LF come in different pushes |
| Answers.CutRefusesAccepted | native/aether/aether/src/https.rs:514-525 | one such answer, with a trailer line of 8192 octets |
| Http1.WholeStays | native/aether/aether/src/https.rs:394-399 | later accepted pushes leave status, fields and body start as they are, a whole answer whole, and what finish returns unchanged |
| Http1.Truncation | native/aether/aether/src/https.rs:405-426 | an answer cut off before its end finishes with a body if and only if it is one that ends with the connection and its head has come; every other cut is an error, never a short body |
| Http1.TooMuch | native/aether/aether/src/https.rs:363-367 | pieces of more than 512 KiB together are refused however they are cut, and none are refused for their size that are not |
| Senders.EndsAtLength | native/aether/aether/src/https.rs:446-470 | an answer that a server writes with any interim answers before it, its fields in any case and order with any spaces and tabs around their values, no chunked coding and a first Content-Length of n in decimal ends, however it is cut and whatever comes behind, with its status, its fields and the first n octets of what follows, and is whole before the connection ends |
| Senders.ShortOfLength | native/aether/aether/src/https.rs:405-421 | every strict prefix of such an answer, head included, is an error however it is cut, never a short body |
| Senders.EndsAtHead | native/aether/aether/src/https.rs:448-451 | an answer of status 204 or 304 has no body, whatever its fields say and whatever comes behind |
| Senders.EndsWithConnection | native/aether/aether/src/https.rs:463-469 | with neither field the body is all that comes before the connection ends, and the answer is never whole before |
| Senders.EndsAtLastChunk | native/aether/aether/src/https.rs:446-462 | a first Transfer-Encoding that has the word chunked in any case goes before any Content-Length: the answer ends with the chunks' data joined, however it is cut, if and only if each line of the body is shorter than 8 KiB |
| Senders.NoLength | native/aether/aether/src/https.rs:463-467 | a first Content-Length that is empty or has a character that is no digit, but for one plus in front, refuses the answer |
| AnswerReader.Http1Answer.TakeHeadAt | native/aether/aether/src/https.rs:378-392 | one head: an interim status moves the start on, the final one gives status, fields, body start and framing, errors as the reference has them, which the laws of `Senders` tie to what a server writes |
| AnswerReader.Http1Answer.FindHeads | native/aether/aether/src/https.rs:368-393 | the head search resumed from `searched` finds the heads that searching anew from the start of the head finds |
| AnswerReader.Http1Answer.Push | native/aether/aether/src/https.rs:363-400 | a push reaches the reference reader's state and verdict, and compares no window start an earlier push compared |
| AnswerReader.ScanBound | native/aether/aether/src/https.rs:329-332 | over a whole run the searches compare at most one window per octet, in the head search and in the line search |
| Isolation.NonInterference | native/aether/aether/src/netstack.rs:980-1054 | over every run, erasing all admissions, messages and service passes of flow i leaves every other flow's state, UDP socket and share of the backlog as they were |
| Isolation.DrainAgree | native/aether/aether/src/netstack.rs:1028-1054 | a pass over the backlog treats a flow by its own state and its own entries alone |
| Isolation.ReapAgree | native/aether/aether/src/netstack.rs:1059-1144 | the reaper treats a flow by its own state and its own entries alone |
| Conservation.StreamConserved | native/aether/aether/src/netstack.rs:1016-1054 | over every run, for a flow that is there and not reset, what the backlog holds is the end of the stream handed in, all before it is in the socket or pending in order, and the flow is half-closed if and only if a close has left the backlog behind every earlier octet |
| Conservation.OctetsConserved | native/aether/aether/src/netstack.rs:2066-2084 | over every run, octets in the socket, then pending, then the flow's backlog are all octets handed in, in order |
| Conservation.IngestTakes | native/aether/aether/src/netstack.rs:1935-1957 | one message splits into what its flow takes and what waits, nothing lost or reordered |
| Conservation.ServicedStream | native/aether/aether/src/netstack.rs:2066-2084 | a service pass moves octets from pending into the socket and changes nothing else of the stream |
| Datagrams.DatagramsConserved | native/aether/aether/src/netstack.rs:1959-1972 | over every run a UDP flow's socket is handed exactly the datagrams handed in for it, in order, whatever waits of other flows |
| Closing.FinOverPending | native/aether/aether/src/netstack.rs:2212-2276 | a pass asks for a close over octets still pending if and only if it comes to a connected flow, does not flap, leaves some pending for want of room or of a sendable socket, and finds the peer's side closed or the app gone and the flow lingering |
| Closing.FrozenForGood | native/aether/aether/src/netstack.rs:2212-2218 | once a close is asked for, no run that follows puts another octet into the socket |
| Closing.FinAfterEveryOctet | native/aether/aether/src/netstack.rs:2212-2218 | over every run whose passes never find the peer closed or the app gone, the socket of a flow asked to close holds, in order, every octet handed in before some close of the app's, with whatever was handed in behind that close up to then |
| Closing.FinAskedIff | native/aether/aether/src/netstack.rs:2212-2276 | a pass that keeps a flow asks for its close if and only if it comes to a connected flow that does not flap, and either the app has closed and the socket takes all that was pending, or the peer has closed its side, or the app is gone |
| Lifetimes.OnlyPassesRemove | native/aether/aether/src/netstack.rs:1983-2292 | no message, no pass over the backlog, no reaping and no other flow's pass removes a flow |
| Lifetimes.RemovedIff | native/aether/aether/src/netstack.rs:2019-2288 | in every run a pass removes a flow if and only if an earlier pass gave it up; or no pass has found it connected, and this one finds it closed, wanted no more or at the deadline it was opened with; or it is connected, is not given up just now, and its connection is at its end or is reset for stalling |
| Lifetimes.WedgedIff | native/aether/aether/src/netstack.rs:1114-1124 | in every run a flow is wedged if and only if it carries no tunnel, has been open for 30 s, and no pass in the last 30 s found nothing pending or moved an octet into its socket |
| Liveness.RunTells | native/aether/aether/src/netstack.rs:2100-2146 | over every run the drain fields of a flow not reset tell its history of passes: last drain, acknowledged count, queue, open stall, last stall |
| Liveness.StalledIff | native/aether/aether/src/netstack.rs:1075-1084 | in every run the reaper finds a flow stalled if and only if it carries no tunnel, its last pass left octets unacknowledged, it has been open 8 s, and no pass in the last 8 s found the queue empty or anything newly acknowledged |
| Liveness.FlapIff | native/aether/aether/src/netstack.rs:2123-2145 | in every run a pass resets a flow for flapping if and only if it carries no tunnel, a stall of 3 s begins at this pass, and another began at an earlier pass under 60 s before |
| Liveness.StallsAreDistinct | native/aether/aether/src/netstack.rs:2107-2146 | between the beginnings of two stalls some pass found the queue draining |
| Liveness.CarrierSafe | native/aether/aether/src/netstack.rs:879-883 | over every run a flow that carries a tunnel is reset only after its app side has gone |
| Liveness.ReapsExactly | native/aether/aether/src/netstack.rs:1059-1144 | of the flows that are there the reaper resets exactly the stalled ones and those that wait in the backlog and took nothing for 30 s, leaves nothing pending or waiting of them, and leaves every other flow as it is |
| Admission.OutstandingIsHeld | native/aether/aether/src/netstack.rs:353-357 | in every reachable world the outstanding count of a flow not reset is exactly what channel, backlog, pending and send queue hold of it, plus what was acknowledged since the last publication |
| Admission.PublishedExactly | native/aether/aether/src/netstack.rs:2168-2175 | a pass that comes to its publication leaves nothing acknowledged unpublished, and publishes the budget wanted, but no less than 48 KB and no more than the send buffer where that is more |
| Admission.HeldOncePublished | native/aether/aether/src/netstack.rs:2100-2175 | in every reachable world right after a pass that publishes, the outstanding count of a flow not reset is exactly what channel, backlog, pending and send queue hold of it |
| Admission.OutstandingBounded | native/aether/aether/src/netstack.rs:384-402 | in every reachable world in which no wait ran out, the outstanding count is at most the largest of the send buffer, 48 KB and the largest write |
| Uploads.PendingHasRoom | native/aether/aether/src/netstack.rs:2066-2084 | with a send buffer of 48 KB or more, no write larger than it and no wait that ran out, every pass of every reachable world that finds the room the buffer has finds room for all that is pending |
| Uploads.NeverOver | native/aether/aether/src/netstack.rs:2212-2276 | under the same condition no such pass asks for a close over octets still pending, whether the peer has closed or the app is gone |
| Uploads.NeverAsksOverIff | native/aether/aether/src/netstack.rs:2212-2276 | over every run whose passes find the room the send buffer has, a close is asked for only once nothing is pending if and only if that buffer is no smaller than 48 KB nor than the largest write and no wait runs out |
| Uploads.UploadCutByPeerClose | native/aether/aether/src/netstack.rs:2273-2276 | a permitted run with the smallest buffer, 16 KB, and two 16 KB writes: the peer closes, the close is asked for with the second write still pending, and no later run ever puts it into the socket |
| Admission.MemoryBounded | native/aether/aether/src/netstack.rs:1357-1375 | in every reachable world the backlog is below 512 KB plus the largest message and what is pending of each flow is within its bound |
| Admission.NothingWaitsThatFits | native/aether/aether/src/netstack.rs:1028-1054 | after a pass over the backlog whatever still waits belongs to a flow that is there and has all pending that it may |
| Admission.FillsExactly | native/aether/aether/src/netstack.rs:1938-1950 | a write to a flow with nothing waiting fills what the flow may have pending, and exactly the rest waits |
| NetObjects.Backlog.Push | native/aether/aether/src/netstack.rs:1001-1005 | appends the entry, counts its data, and keeps `blocked` the ids of the queue and `bytes` its sum |
| NetObjects.Backlog.Purge | native/aether/aether/src/netstack.rs:1007-1011 | drops exactly the entries of one flow and keeps `blocked` and `bytes` exact |
| NetObjects.NetStack.TryHandleData | native/aether/aether/src/netstack.rs:1935-1973 | one message to its flow is the machine's step, with what comes back |
| NetObjects.NetStack.IngestOne | native/aether/aether/src/netstack.rs:1016-1024 | one message is the machine's ingest step, the backlog's invariant kept |
| NetObjects.NetStack.DrainBacklogOnce | native/aether/aether/src/netstack.rs:1028-1054 | one pass over the backlog is the machine's drain step, the backlog's invariant kept |
| NetObjects.NetStack.DrainAppData | native/aether/aether/src/netstack.rs:1357-1375 | takes a prefix of the channel in order, each message ingested, as many as the budget allows unless it ends at the backlog's bound, and says when it found the senders gone |
| NetObjects.NetStack.ServiceFlow | native/aether/aether/src/netstack.rs:1983-2292 | one flow's turn in a service pass is the machine's service step, whose removals, closes, clocks and octets `Lifetimes.RemovedIff`, `Closing.FinAskedIff`, `Liveness.RunTells` and `Conservation.ServicedStream` tell |
| NetObjects.NetStack.ReapWedged | native/aether/aether/src/netstack.rs:1059-1144 | the reaper's two rounds together are the machine's one reap step |
| NetObjects.ReapRounds | native/aether/aether/src/netstack.rs:1075-1143 | what the first round resets has nothing left in the backlog for the second to find |
| Scheduling.Driver.DrainInbound | native/aether/aether/src/netstack.rs:1334-1351 | moves the first packets, as many as the budget allows, in order, and says when it found the senders gone |
| Scheduling.Driver.HandleCmd | native/aether/aether/src/netstack.rs:1789-1932 | a command whose connect or bind succeeds is the machine's opening of a flow, any other leaves the flows alone |
| Scheduling.Driver.DrainCmds | native/aether/aether/src/netstack.rs:1378-1395 | obeys the first commands, as many as the budget allows, in order, and says when it found the senders gone |
| Scheduling.Driver.Turn | native/aether/aether/src/netstack.rs:1511-1538 | a turn serves each queue exactly once with its own budget, leaves the same behind whichever direction goes first, and ends the loop exactly when a queue with budget left has lost its senders |
| Scheduling.Driver.WakeUp | native/aether/aether/src/netstack.rs:1737-1778 | a wait ends with at most one message, the first of the queue that woke the loop, app data only below the backlog's bound, and is a run of the machine |
| Scheduling.Driver.Tick | native/aether/aether/src/netstack.rs:1442-1545 | a round of the loop with the arrivals before it is a run of the machine that ingests exactly the app messages and opens exactly the flows it took from the queues, in order, and each queue is emptied or gives up its budget's worth |
| Scheduling.Driver.RunLoop | native/aether/aether/src/netstack.rs:1442-1779 | whatever arrives on whichever queue, the command at position k is obeyed within k / 64 + 1 rounds, the packet at position k handed on within k / 512 + 1, the app message at position k ingested within k / 512 + 1 rounds that end with the backlog below its bound; the whole loop is one run of the machine, lawful when messages name flows given out and timed when clocks never go back; and the backlog stays below 512 KB plus one message, every flow's pending within its bound |
| Scheduling.FlowCredit.PublishTo | native/aether/aether/src/netstack.rs:364-373 | the gate the machine publishes; the acknowledged count never goes back and the budget never below 48 KB |
| Scheduling.FlowCredit.Reserve | native/aether/aether/src/netstack.rs:384-402 | goes on at the first check that admits or is past the deadline, after at most 10,000 sleeps, never sleeping on a closed or wholly acknowledged flow, and counts the octets once |
| Varint.RoundTrip | native/aether/aether/src/masque.rs:278-288 | every number below 2^62 reads back with its length, whatever follows |
| Varint.GetExtends | native/aether/aether/src/masque.rs:184-195 | a number that has come stays what it is whatever follows |
| Varint.Examples | native/aether/aether/src/masque.rs:184-195 | the examples of section A.1 of RFC 9000 read as it says |
| Capsules.ParseAddressAssign | native/aether/aether/src/masque.rs:226-250 | the cursor loop is the recursive parser, errors included |
| Capsules.ParseRouteAdvertisement | native/aether/aether/src/masque.rs:252-276 | the cursor loop is the recursive parser, errors included |
| Capsules.AddressesReadBack | native/aether/aether/src/masque.rs:226-250 | every list of IPv4 and IPv6 addresses reads back from its payload |
| Capsules.RoutesReadBack | native/aether/aether/src/masque.rs:252-276 | every list of routes reads back from its payload |
| Capsules.FramesReadBack | native/aether/aether/src/masque.rs:91-111 | any list of capsules, encoded, decodes to the list's kinds and values with nothing left over |
| Capsules.PushedAndTaken | native/aether/aether/src/masque.rs:175-224 | a capsule written with the wire's own numbers, kind 1 with addresses, 2 with a payload, 3 with routes, 0 with a packet, any other kind with anything, pushed and taken, gives what was meant by it and leaves nothing |
| Capsules.MessagesRead | native/aether/aether/src/masque.rs:184-224 | a stream of any such capsules decodes to what was meant by each, in order, with nothing left over |
| Capsules.BadVersion | native/aether/aether/src/masque.rs:226-276 | an address or a route of a version that is neither 4 nor 6 is malformed |
| Capsules.FramesExtend | native/aether/aether/src/masque.rs:184-217 | what has come decodes to the same capsules whatever follows, and the rest goes on from what was left over |
| Capsules.CapsuleParser.Push | native/aether/aether/src/masque.rs:175-182 | appends, or clears the buffer when the limit would be passed |
| Capsules.CapsuleParser.Next | native/aether/aether/src/masque.rs:184-217 | gives the meaning of the first whole capsule, which `Capsules.PushedAndTaken` tells for each kind in the wire's numbers, an error for a malformed one, and leaves the buffer without exactly that capsule's octets either way |
| Capsules.RunDecodes | native/aether/aether/src/masque.rs:175-217 | over every interleaving of pushes and takes within the limit, what was taken and what the buffer holds decode all that came |
| Capsules.TakenIsPrefix | native/aether/aether/src/masque.rs:175-217 | what was taken is a prefix of the decoding of all that came, and all of it if and only if no whole capsule is left |
| Tunnel.BareStripsIff | native/aether/aether/src/masque.rs:133-162 | a packet sent bare comes back whole if and only if it does not start with 0x40 0x00 before what looks like a packet itself |
| Tunnel.ContextLikeLost | native/aether/aether/src/masque.rs:133-162 | every packet behind 0x40 0x00 looks like a packet with them and comes back without them |
| Tunnel.WellHeadedStrips | native/aether/aether/src/masque.rs:133-162 | IPv4 with a header of 20 octets or more, and IPv6, always comes back whole |
| Tunnel.WithContextStrips | native/aether/aether/src/masque.rs:133-162 | a packet behind context id 0 comes back |
| Tunnel.StripIff | native/aether/aether/src/masque.rs:133-162 | a payload gives the packet p if and only if p has 20 octets or more and starts as IPv4 or IPv6 does, and the payload is p behind a context id of zero in any of its four lengths, or p itself with nothing of the kind behind such a context |
| Tunnel.IpDatagramReadsBack | native/aether/aether/src/masque.rs:56-89 | a datagram gives its packet on its own stream and nothing on any other |
| Tunnel.AppendCapsule | native/aether/aether/src/masque.rs:103-111 | appends exactly the encoding of one capsule |
| Tunnel.TakeBatch | native/aether/aether/src/masque_h2.rs:707-725 | a batch is a non-empty prefix of the queue, one capsule each, below 32 KiB before its last capsule, and stops only at the bound or the queue's end |
| Tunnel.BatchingRefines | native/aether/aether/src/masque_h2.rs:686-730 | over every run of arrivals, control capsules and batch cuts the wire is the encoding of single capsules in which the packets come in order, but for those still queued, interleaved with the control capsules in theirs |
| Tunnel.PumpOutbound | native/aether/aether/src/masque_h2.rs:686-730 | each round sends the first waiting control capsule, else a full batch of the queue, and the loop ends when asked to finish or when nothing waits and no packet can come |
| Tunnel.PumpRuns | native/aether/aether/src/masque_h2.rs:686-730 | what the loop has sent, one control capsule or one batch below 32 KiB before its last capsule at a time, is the wire of a run of the sender in which exactly the packets that came arrived and exactly the control capsules that came, but for those waiting, went out |
| Tunnel.DrainCapsules | native/aether/aether/src/masque_h2.rs:752-802 | takes capsules up to and with the first malformed one, or the first whose packet nobody is left to read, hands their packets on in order without those that found no room, and leaves the rest for the next drain |
| Tunnel.GrantsAsWritten | native/aether/aether/src/masque_h2.rs:777-789 | a drain of the capsules a server wrote, with somebody to read the packets, takes them all and grants exactly the addresses the server assigned, in order |
| Tunnel.ReceiveAll | native/aether/aether/src/masque_h2.rs:629-658 | pushing and draining each piece of a stream is a run of rounds of the receiver, clearing of the buffer included |
| Tunnel.TakesInOrder | native/aether/aether/src/masque_h2.rs:752-802 | over every run of rounds in which the buffer was not cleared, packets taken and those still in the buffer are the packets of all that came, in order |
| Tunnel.HandsOn | native/aether/aether/src/masque_h2.rs:769-775 | over every run of rounds what was handed on is an in-order subsequence of what was taken, and all of it when every hand-over found room |
| Tunnel.Delivers | native/aether/aether/src/masque_h2.rs:752-802 | over every run of rounds in which the buffer was not cleared, what was handed on is an in-order subsequence of the packets of all that came, and all but those still in the buffer when every hand-over found room |
| Tunnel.EndToEnd | native/aether/aether/src/masque_h2.rs:686-802 | whatever the batch cuts, control capsules, pieces of the wire and packets that find no room, the receiver takes exactly the packets that left the queue, in order, interleaved with what the control capsules carry, and hands on an in-order subsequence of them: all when each found room |
| Checksum.Ipv4HeaderChecksum | native/aether/aether/src/masque.rs:342-356 | the loop in 32 bits is the checksum for every header whose sum fits |
| Checksum.ChecksumVerifies | native/aether/aether/src/masque.rs:299-313 | the checksum written into its zeroed word makes the header check out, for every header and every word of it |
| Checksum.OneWordChanged | native/aether/aether/src/masque.rs:342-356 | a header with one word changed still checks out if and only if the words are the same modulo 65535 and not all is zero |
| Checksum.BuildDnsProbePacket | native/aether/aether/src/masque.rs:294-340 | the probe is a well-headed packet of 60 octets of UDP from the source to port 53 of 8.8.8.8 with the ids and the port given, whose header checks out, whose length fields are its lengths and which carries the query |
| Checksum.ProbeAsks | native/aether/aether/src/masque.rs:322-338 | that query is the one the resolver writes for the IPv4 address of cloudflare.com |
| ApiCall.ApiCallBy | native/aether/aether/src/account.rs:648-842 | a name outside the socket mark, no way and no ECH key end the call before any request; else the attempt loop is the machine's run of five attempts, whose end, sleep, way and outcome `ApiCall.EndsEarlyAlone`, `ApiCall.EndsEarlyAmong`, `ApiCall.SleepsExactly` and `ApiCall.AccountIff` tell in status numbers |
| ApiCall.NextSkips | native/aether/aether/src/account.rs:298-303 | the next way is the first standing one, and all passed over have turned the call away |
| ApiCall.MarkedIff | native/aether/aether/src/account.rs:742-826 | over every run of answers a way is marked if and only if some answer by it turned the call away |
| ApiCall.NeverAskedOnceTurned | native/aether/aether/src/account.rs:678-842 | over every run of answers, once an answer that is neither the API's nor worth asking for again has come by a way and there is another, that way is never asked again |
| ApiCall.AskedAgain | native/aether/aether/src/account.rs:678-842 | a way is asked again only because the API itself answered by it, or once every other standing way was asked since |
| ApiCall.CallIsBounded | native/aether/aether/src/account.rs:250-268 | over every run of answers there are one to five requests and at most 131.25 s of sleep |
| ApiCall.EndsEarlyAlone | native/aether/aether/src/account.rs:732-842 | with one way a call ends within m attempts if and only if one of the first m answers has no status of HTTP's or any status but 408, 429 and 500 to 599 |
| ApiCall.EndsEarlyAmong | native/aether/aether/src/account.rs:742-842 | with more ways a call ends within m attempts if and only if one of the first m answers is a success, a refusal in the API's envelope other than 408, 429 and 500 to 599, or completes foreign refusals by every way |
| ApiCall.SleepsExactly | native/aether/aether/src/account.rs:255-268 | over every run of answers a call sleeps exactly the pauses between its requests, half of 900 ms doubled each time and up to a third more by chance, and what its answers to come back asked for, 30 s at most and none after the fifth |
| ApiCall.RemembersIff | native/aether/aether/src/account.rs:756-780 | over every run of answers a call with more ways than one remembers the way of the last request that the API itself answered, and a call with one way none |
| ApiCall.SleepBoundIsReached | native/aether/aether/src/account.rs:255-268 | the bound on sleep is reached by an API that is busy throughout |
| ApiCall.LastAnswerDecides | native/aether/aether/src/account.rs:732-842 | a call ends with what its last answer says, whatever came before |
| ApiCall.IdentityRefusedIff | native/aether/aether/src/account.rs:791-804 | the identity is called refused if and only if the last answer is 401 or 410, or 404 in the API's envelope or with one way only |
| ApiCall.AccountIff | native/aether/aether/src/account.rs:782-791 | a call gives an account if and only if its last answer is a success that reads as one, and is undecodable if and only if it is a success that does not |
| ClientHello.FindServerName | native/aether/aether/src/sniff.rs:99-121 | the loop over the names is the recursive walk |
| ClientHello.FindSniExtension | native/aether/aether/src/sniff.rs:79-96 | the loop over the extensions is the recursive walk |
| ClientHello.CutWalk | native/aether/aether/src/fragment.rs:134-153 | the cutter's loop is the recursive walk |
| ClientHello.NameInRange | native/aether/aether/src/sniff.rs:47-97 | on arbitrary octets the sniffed name lies inside what has come |
| ClientHello.WalkersAgree | native/aether/aether/src/fragment.rs:115-154 | on arbitrary octets, when the sniffer gives a name the cutter finds a range if and only if the list starts with a host name, and then exactly the name's octets |
| ClientHello.CutInsideName | native/aether/aether/src/fragment.rs:213-221 | such a hello is cut strictly inside the name that the sniffer normalises |
| Hellos.BothRecoverTheName | native/aether/aether/src/sniff.rs:47-121 | from any serialised single-record hello whose list starts with the name of a host, with any dots behind it and any white space around it, whatever follows, the sniffer gives that name in small letters and both walkers recover exactly its octets |
| Hellos.NoNameNoHost | native/aether/aether/src/sniff.rs:47-121 | from any such hello whose first name writes no name of a host the sniffer gives none |
| Hosts.HostIff | native/aether/aether/src/sniff.rs:23-45 | the sniffer gives a host for octets if and only if they are, 253 at most, a name of ASCII letters, digits, hyphens, underscores and dots with a dot inside that is no IPv4 address, with any dots behind it and any white space around it, and the host is that name in small letters |
| Hosts.DomainIff | native/aether/aether/src/dns.rs:199-210 | a domain may be asked for if and only if it is labels of 1 to 63 letters, digits, hyphens and underscores with dots between them, 253 octets at most, and perhaps a dot behind |
| Spelling.Utf8Iff | native/aether/aether/src/sniff.rs:28 | octets are taken for UTF-8 if and only if they write code points that are no surrogates, as section 3 of RFC 3629 has it |
| Spelling.WhiteIff | native/aether/aether/src/sniff.rs:28 | a character is trimmed if and only if it is one of the code points with the Unicode property White_Space |
| Fragment.WriteAll | native/aether/aether/src/fragment.rs:180-235 | the pieces are the buffer, in order, none empty, each as long as its cut and the connection allow, all that is left being the cut of a piece when cutting is off or once something was read; each that is cut and that no name decides keeps to the smallest and the largest size set; the first is cut inside the name when the connection takes it whole |
| Fragment.PieceSize | native/aether/aether/src/fragment.rs:63-71 | a piece that no name decides has at least one octet, no more than the largest size or than is left, and no fewer than the smallest size where those allow it |
| Fragment.EverySize | native/aether/aether/src/fragment.rs:63-71 | every length between the two sizes is one that chance can give |
| Dns.BuildQuery | native/aether/aether/src/dns.rs:478-496 | the loop writes exactly the query |
| Dns.ResponseMatches | native/aether/aether/src/dns.rs:424-476 | the loop over the labels is the recursive match |
| Dns.AcceptsExactlyTheQuestion | native/aether/aether/src/dns.rs:424-476 | a message is accepted if and only if it has the id, the reply bit and a count of one question, and the question is the one asked, up to ASCII case, with the type asked for, all in octets |
| Hosts.AsksFor | native/aether/aether/src/dns.rs:478-496 | the query for any domain that may be asked for, in octets: id, flags, counts, each label behind its length, type and class |
| Dns.QueryIsAccepted | native/aether/aether/src/dns.rs:478-496 | for every valid domain the query with the reply bit set is accepted |
| Ech.SkipNameLoop | native/aether/aether/src/dns.rs:554-565 | the loop over a name is the recursive walk, and ends |
| Ech.ParseSvcParamsEch | native/aether/aether/src/dns.rs:532-552 | the loop over the parameters is the recursive walk |
| Ech.ParseHttpsEch | native/aether/aether/src/dns.rs:498-530 | the two loops over questions and answers give the octets of the walk's range, inside the message |
| Ech.InsideOneRecord | native/aether/aether/src/dns.rs:498-530 | on arbitrary octets the result is the whole value of an ech parameter inside the data of the first answer the walk reaches that is of type HTTPS and has one |
| Ech.WellFormedReply | native/aether/aether/src/dns.rs:498-552 | from any well-formed reply, whatever follows, comes the ech value of the first HTTPS record that has one, and nothing when none has |
| Racing.Interleaved | native/aether/aether/src/egress.rs:116-129 | the loop over the two queues is the weave of the families |
| Racing.OrderKeepsFamilies | native/aether/aether/src/egress.rs:114-129 | the order is a permutation that starts with the first address and keeps each family's order |
| Racing.WeaveAlternates | native/aether/aether/src/egress.rs:114-129 | the families take turns from the first one's while both last, then the longer one's rest follows |
| Racing.RunRace | native/aether/aether/src/egress.rs:135-166 | the loop over attempts and delays is the machine's run |
| Racing.RaceSound | native/aether/aether/src/egress.rs:131-166 | over every course of events attempts start in order, each once, one more with each event until all have; one is always in flight until the end; a race is lost only when all have failed, with the last error |
| Racing.WonBy | native/aether/aether/src/egress.rs:154-156 | over every course of events a race is won by an attempt if and only if the last event is that attempt's connection |

## Left out

- smoltcp, quiche, h2, BoringSSL, tokio and the `octets` crate: other people's code, modelled as sockets,
  queues and a varint written here.
- `lib.rs`, `ffi.rs`, `api.rs`, `tunnelping.rs`, `bridges.rs`, `lastconn.rs`: session loops and plumbing
  around calls that are not part of this model.
- TLS, ECH handshakes, keys, certificates and stored settings: library calls.
- Log lines, telemetry windows, peak counters and the smoothing of the drain rate: the rate enters as an
  arbitrary number and only its clamp is modelled.
- `StackDevice` and `flush_tx`: the device queue and its hard ceiling would only add easy members.
- Isolation of flows through the 512 KB guard of the shared backlog: the guard is global, so
  `Isolation.NonInterference` takes the messages as they are ingested.
- Several readings of the clock within one pass: a pass has one.
- AnswerReader.Http1Answer.TakeHeadAt: keeps header fields as the octets that came, without the replacement
  of malformed UTF-8, whose replacement character is neither white space, digit nor a letter of a field name
  that decides the framing.
- The key a server hands back in `api_call_by`, and the names of the hosts: ways are numbers.
- `http_host` in `sniff.rs`, `parse_range` and the delays in `fragment.rs`: text of settings and of plain
  HTTP.
- Admission.OutstandingBounded: says nothing of a flow whose writer waited its twenty seconds out, which
  the code then lets through.
- Tunnel.EndToEnd: is stated for well-headed packets and a buffer that was never cleared for being over its
  limit; what a receiver reads behind a cleared buffer starts in the middle of a capsule.
- NetObjects.NetStack.TryHandleData: keeps the datagrams handed to a UDP socket, whether or not its buffer had
  room, since the code does not look either.
- NetObjects.NetStack.ServiceFlow: takes what the pass finds of the socket as an input: its phase, its room,
  which `Uploads.Honest` ties to the send buffer, and of the downlink half, octets to the app, whether the app
  is gone and whether there is more to read.
- Scheduling.Driver.Tick: leaves out the poll, UDP towards the app and the device queue; the packets for the
  poll are kept in `rx` from the first on.
- Chunked.WholeIffChunked: is stated for bodies no longer than a usize can count.
- Senders.EndsAtLength: is stated for heads as section 4 of RFC 9112 writes them, with single spaces in the status
  line and names of visible ASCII, and so are the laws beside it; what other octets come to is the reference reader's.
