# A verified model of CSPTP

CSPTP is client/server PTP: a client sends a Sync request with its time, a
service answers with the time the request came in and the time the answer went
out, and the client collects the four times from unordered datagrams. This
project models that program in Dafny and proves what it is for:

- **Time** (`Octets`, `Time`): normalised seconds and nanoseconds, 48-bit
  seconds, truncating division, 64-bit bounds, big-endian timestamps.
- **Messages** (`Wire`, `Message`, `Builder`, `RoundTrip`, `Parsing`, `Formats`,
  `Parts`):
  the octet layouts, the in-place builder and the in-place parser as operations
  on values, the builder invariant, the build/parse round trip, framing of any
  octets, which headers and TLVs are accepted and built, octet by octet in the
  values of the standard, and messages as the parts that were put into them.
  `MessageObject` and `PtpMessage` are the same operations in place, on an array
  of octets and a message object, proved equal to the operations on values.
- **Lists and store** (`SortedList`, `Interleaving`, `ListManager`, `TextOrder`,
  `Bits`, `HashTable`, `Store`): heap-linked sorted lists that share one free
  list, the cleanup that drops its lock at every step while other threads
  insert, and the hash table of lists that behaves as a map.
- **Exchange** (`Sizes`, `Dialogue`, `Network`, `Service`, `Client`, `Exchange`,
  `Exactness`, `Delivery`): the messages both sides build and read, one flow of
  the service, one flow of the client over any trace of polls, a client and a
  service on a network that loses, delays and reorders, exactly when the client's
  times are its own, and that what is delivered succeeds.
- **Options** (`Options`, `Opt`, `OptCheck`): iteration over chained record
  arrays, parsing of option values, and the duplicate-key check that rests on a
  bit set and a sorted list.

The host is little-endian. A buffer is an array of octets of which some are in
use; a message's TLV table holds offsets into it. Each class method states its
whole result as a function of the old state; what the program promises is then
proved of these functions, for all inputs and all runs. Clock readings, memory
allocation, the results of sends and what each poll brings are inputs of the
methods. The mutex is atomic sections; the calls of other threads between two
sections of a cleanup are an input of `CleanUpNodes`.

`Exchange` is a state machine whose steps are the same functions that the
methods of `Client` and `Service` are proved to compute: the client makes an
attempt, any of its sends fails, the network loses a message or delivers any one
in flight, a poll brings nothing or something from elsewhere, the client
finishes. Messages are octets; the attempt and the count of used-up sequenceIds
on each are only for stating what is proved.

The timestamp of a message follows section 5.3.3 of IEEE Std 1588-2019, the
header section 13.3, Sync 13.6, Follow_Up 13.7 and the TLVs section 14.1.

## Model

| member | source | states |
|---|---|---|
| Time.SetUint48 | src/time.c:202-213 | fails exactly above 48 bits; else the two parts make up the value |
| Time.PtpRoundTrip | src/time.c:46-79 | exactly the times with seconds from 0 to 2^48 - 1 and nanoseconds below 10^9 have a PTP Timestamp; its parts make up the seconds, and converting back gives the same time |
| Time.PtpRoundTripBack | src/time.c:46-79 | exactly the Timestamps with nanoseconds below 10^9 convert, and converting back gives the same Timestamp |
| Time.NanosAre | src/time.c:80-96 | a time is normalised with nanoseconds below 10^9, and worth seconds * 10^9 + nanoseconds |
| Time.TimeSurvivesTheWire | src/time.c:230-245 | a time in range survives conversion, host to network, network to host and conversion back, and its first six wire octets are the big-endian seconds |
| Time.GetAfterSet | src/time.c:80-96 | after setTs the product in getTs stays in 64 bits exactly for values from -9223372036000000000 up |
| Time.Timestamp.FromTimespec | src/time.c:27-36 | takes over a normalised time, ignores any other |
| Time.Timestamp.FromTimestamp | src/time.c:46-58 | fails without change exactly for nanoseconds of 10^9 or more |
| Time.Timestamp.ToTimestamp | src/time.c:59-79 | the Timestamp of the time, or failure, as PtpRoundTrip characterises them |
| Time.Timestamp.SetTs | src/time.c:80-91 | the time is normalised and worth exactly the given nanoseconds, negative ones included |
| Time.Timestamp.GetTs | src/time.c:92-96 | the mathematical value in nanoseconds where the 64-bit product does not overflow |
| Time.Timestamp.AddMilliseconds | src/time.c:157-171 | adds exactly ms * 10^6 nanoseconds for every int, and one carry restores normal form |
| Time.Timestamp.Eq | src/time.c:107-115 | equality of the values in nanoseconds |
| Time.Timestamp.Less | src/time.c:116-125 | order of the values in nanoseconds |
| Time.Timestamp.LessEq | src/time.c:126-135 | order of the values in nanoseconds, ties included |
| Wire.EncodeTlv | src/msg.c:180-243 | succeeds exactly for a TLV that obeys the size law of its type, which Formats.EncodeAccepts spells out; then every multi-octet field is swapped and an odd-length name is padded with a zero |
| Wire.EncodeThenDecode | src/msg.c:100-243 | host to network to host is the identity on every TLV that encodes, but for the zeroed pad octet of an odd-length name, whatever follows the TLV |
| Wire.DecodeThenEncode | src/msg.c:100-243 | network to host to network is the identity on every TLV that is accepted, but for that pad octet |
| Wire.DecodedIsHost | src/msg.c:100-179 | an accepted TLV obeys its type's exact size law in host order, which Formats.DecodeAccepts spells out in the octets received; what follows it is untouched |
| Wire.SwapHeaderTwice | src/msg.c:75-99 | swapping a header's fields twice restores it |
| Formats.EncodeAccepts | src/msg.c:180-243 | cpu_to_net_tlv accepts a TLV if and only if its header is right and it is: a time zone of 20 octets and the name made even, a REQUEST of 8, a RESPONSE of 28, a STATUS of 36 octets with protocol 1 and address length 4 or of 48 with protocol 2 and address length 16, or a PAD |
| Formats.DecodeAccepts | src/msg.c:100-179 | net_to_cpu_tlv accepts the same TLVs and no other, by the octets received, and returns their type and length |
| Formats.AddTlvRecords | src/msg.c:313-390 | addTlv succeeds if and only if fewer than four TLVs are recorded and there is room for: a name of up to 10 (or, wrongly, 255) octets, a RESPONSE, or a STATUS with protocol 1 in 36 octets or protocol 2 in 48; and records exactly these sizes |
| Formats.AddTlvOctets | src/msg.c:313-390 | the octets addTlv writes: type and length of the TLV; the type alone if it fails after its first checks; and no other |
| Formats.AddReqTlvRecords | src/msg.c:391-429 | addCSPTPReqTlv needs one of the four entries and 8 octets; the octets it writes, and that it writes no other |
| Formats.SizesAccepted | src/msg.c:430-455 | buildDone accepts no size, or an even one with room for the message and either no PAD or one of at least 4 octets |
| Formats.BuildDoneRecords | src/msg.c:430-490 | the message after buildDone has the size asked for, its PAD recorded where an entry is left; a failure leaves lengths and table as they were |
| Formats.PadIs | src/msg.c:473-488 | the octets of the PAD: its type, its length big-endian, and zeros |
| Formats.InitHeader | src/msg.c:249-307 | init succeeds for a Sync or a Follow_Up in 44 octets or more; every octet of the header it writes: controlField 0 for a Sync and 2 for a Follow_Up, flags 6 or 4, the parameters, and constants |
| Formats.BuiltHeaderIs | src/msg.c:430-490 | every octet of the header of every message buildDone makes, on the wire: the constants, the message length, and the parameters big-endian |
| Formats.ParseAccepts | src/msg.c:491-577 | by the octets received: parse accepts if and only if all 44 octets are there, messageLength is no more than what was received, and type, controlField, version, sdoIds, flags, port identity and message interval have the values of the standard |
| Formats.ParsedParams | src/msg.c:608-615 | the parameters parse returns, by the octets received |
| Formats.ReachesTlvsIs | src/msg.c:505-577 | by the octets received: which messages get past all checks before the TLVs, whatever messageLength they claim |
| Formats.LoadsAre | src/msg.c:75-99 | the model's loads in both byte orders, octet by octet |
| MessageObject.CpuToNetTlv | src/msg.c:180-243 | in the buffer, field by field, what EncodeTlv says, with the lengths of Formats.EncodeAccepts, and nothing outside the TLV |
| MessageObject.NetToCpuTlv | src/msg.c:100-179 | in the buffer, field by field, what DecodeTlv says, with the lengths of Formats.DecodeAccepts, and nothing outside |
| MessageObject.Buffer.SetLen | src/buf.c:26-38 | the data length never exceeds the buffer size |
| PtpMessage.CpuToNetMsg | src/msg.c:88-99 | messageLength stored and the header swapped, in place |
| PtpMessage.NetToCpuMsg | src/msg.c:75-87 | the header swapped in place; the result is the big-endian messageLength |
| PtpMessage.PtpMsg.Init | src/msg.c:249-307 | the state Message.Init gives, octet by octet the one of Formats.InitHeader; on failure nothing changes |
| PtpMessage.PtpMsg.NextTlv | src/msg.c:308-312 | a position exactly if the rounded size is left and the TLV table has room; it is the end of the message |
| PtpMessage.PtpMsg.AddTlv | src/msg.c:313-390 | the state Message.AddTlv gives, with the sizes of Formats.AddTlvRecords |
| PtpMessage.PtpMsg.AddCSPTPReqTlv | src/msg.c:391-429 | the state Message.AddReqTlv gives |
| PtpMessage.PtpMsg.BuildDone | src/msg.c:430-490 | the state Message.BuildDone gives: TLVs converted until one fails, header sealed, PAD written |
| PtpMessage.PtpMsg.Parse | src/msg.c:491-617 | the octets and the message Message.Parse gives, for the headers of Formats.ParseAccepts; on a false return the message object is unchanged |
| PtpMessage.PtpMsg.Detach | src/msg.c:645-649 | the message has no buffer any more |
| Builder.InitBuilds | src/msg.c:249-307 | init succeeds exactly with a supported type and room for a header, and starts the builder invariant |
| Builder.FillStores | src/msg.c:308-312 | the octets a caller stores at the position nextTlv gives change nothing else |
| Builder.StepStarts | src/msg.c:308-429 | every fill and add, of anything, keeps lengths, tiling, header and recorded TLVs; a failed add leaves the lengths and the TLV table as they were |
| Builder.AddTlvKeeps | src/msg.c:343-351 | for every id, addTlv keeps the builder invariant if and only if it fails or the name has not 255 octets |
| Builder.NameOf255 | src/msg.c:343-351 | a name of 255 octets is accepted, recorded in 20 octets that do not hold it, and leaves a message that buildDone cannot take |
| Builder.StartedIsBuilding | src/msg.c:190-200 | what every run keeps is what buildDone needs, if and only if no recorded name has 255 octets |
| Builder.RunBuilds | src/msg.c:249-429 | over every run of init, fills and adds: at most four TLVs tile the octets from 44 to the end, the end is the message length, length and octets left make up the buffer, every length is even; and every TLV has its type's size exactly if no call added a name of 255 octets |
| Builder.BuildDoneSucceeds | src/msg.c:430-466 | buildDone succeeds if and only if the size is accepted and each STATUS address length is the one of its protocol |
| Builder.BuildDoneKeeps | src/msg.c:460-490 | buildDone, failing or not, leaves a message that is ready for every further call |
| RoundTrip.BuildThenParse | src/msg.c:430-617 | for every message under construction and every size buildDone accepts: the wire header is the parameters, big-endian; parse accepts exactly if flagField2 is below 64, and returns the parameters, the TLV table in order and every host-order octet, but for messageLength, name pads and the PAD |
| Parsing.RunThenParse | src/msg.c:249-617 | the round trip over every run of the builder; the run ends with a message for buildDone exactly if no call added a name of 255 octets; the only TLV built but not recorded on parse is a PAD of exactly four octets |
| Parsing.ParseFrames | src/msg.c:491-617 | for any received octets: accepted TLVs tile a prefix of the body, each obeys its size law and is the host form of what was received; end and left make up the buffer; at most the header, the accepted TLVs and the next four octets change; the scan stops only for want of octets or room or at a refused TLV |
| Parsing.ScanSizeInBuffer | src/msg.c:521-529 | the size parse takes into its TLV loop, a difference in 64 bits, is within the buffer if and only if a message that passes all checks before the loop has a messageLength of at least 44 |
| Parsing.RejectedKeeps | src/msg.c:513-578 | a rejected message leaves the octets as they were, but for a swapped header |
| Parsing.ParsedIsReady | src/msg.c:563-617 | a parsed message is ready for every builder call |
| Parsing.ParseLocal | src/msg.c:491-617 | what the buffer holds beyond the message changes neither the verdict nor the parameters nor the TLVs |
| SortedList.PutIsUpdate | src/slist.c:95-166 | updateNode keeps the list strictly sorted and is a map update: one node per key |
| SortedList.FindIsLookup | src/slist.c:167-182 | fetchNode is map lookup: the early exit never misses a key that is present |
| SortedList.RemoveIsDelete | src/slist.c:205-231 | unlinking a node keeps the order and removes exactly its key |
| SortedList.MapSize | src/slist.c:95-166 | a sorted list has as many nodes as its map has keys |
| ListManager.Manager.GetFreeNode | src/slist.c:15-36 | fails only without free nodes and memory; allocates only when the free list is empty |
| ListManager.Manager.UpdateNode | src/slist.c:95-166 | the heap list becomes what Put makes of it, all lists and the free list stay disjoint and acyclic, the counters stay exact; when it fails nothing changes |
| ListManager.Manager.FetchNode | src/slist.c:167-182 | the node of the key exactly if the list has the key |
| ListManager.Manager.UnlinkNode | src/slist.c:37-48 | exactly one node moves from its list to the free list, and both counters follow |
| ListManager.Manager.CleanUpNodes | src/slist.c:185-236 | for any calls of other threads between its lock sections: prv stays on the list, the list stays sorted, the counters exact; every removed node was on the list and satisfied the predicate when it was removed; the result is their number; every key present at the start that satisfies the predicate throughout is removed |
| ListManager.Manager.CleanUpAlone | src/slist.c:185-236 | with nobody else at work, exactly the nodes that satisfy the predicate go to the free list |
| ListManager.Manager.NodesCounted | src/slist.c:15-48 | in every reachable state each node ever allocated is counted once: used plus free |
| Interleaving.CompleteAtEnd | src/slist.c:212-234 | when the cleaner reaches the end of the list, every key that was doomed throughout has been removed |
| Interleaving.CompleteAfterUpdates | src/slist.c:214-217 | updates by other threads take no doomed key out of the cleaner's way |
| Interleaving.CleanedAlone | src/slist.c:185-236 | a history without updates removes exactly the keys whose data satisfied the predicate at the start |
| Interleaving.UpdateApplies | src/slist.c:95-166 | an update of another thread sets its key on its list and no other, or changes nothing if it fails |
| TextOrder.MemCmpIsOrder | src/store.c:33-37 | memcmp is a strict total order, so the store's lists are strictly descending |
| TextOrder.MemCmpIs | src/store.c:33-37 | the first octet that differs decides, the larger one being the larger text |
| Bits.MaskIsRemainder | src/store.c:58-65 | the mask of n bits keeps the remainder modulo 2 to the n |
| Bits.BitAndIs | src/store.c:56-69 | the operator & is bitwise |
| HashTable.ContentsAt | src/store.c:94-100 | looking a key up on the list of its hash is looking it up in the whole table |
| HashTable.ContentsSize | src/store.c:148-152 | the lists together have as many nodes as the table has keys |
| Store.Hash | src/store.c:56-69 | the hash is a bucket of the table for every address and width |
| Store.HashIs | src/store.c:56-69 | the hash is the last four octets of the address, big-endian, modulo the number of buckets |
| Store.UpdateSets | src/store.c:86-100 | what an update makes of the map and of the free nodes, and when it fails |
| Store.FetchFinds | src/store.c:101-125 | a fetch with another sequenceId fails without change; one that succeeds leaves the map alone, but for a timestamp of zero if it clears |
| Store.CleanupRemoves | src/store.c:126-143 | after a cleanup an address is there if and only if it was there with a last time of at least now - gap; its record is unchanged, and the result is the number of addresses that went |
| Store.UpdateThenFetch | src/store.c:86-125 | over every run, a stored time is found again until it is overwritten, cleared or grown too old |
| Store.TimestampStore.Update | src/store.c:86-100 | sets the address's record in the map; fails exactly for a new address without a free node and memory |
| Store.TimestampStore.Fetch | src/store.c:101-125 | succeeds exactly if the address is present with that sequenceId; clear zeroes the timestamp and nothing else |
| Store.TimestampStore.Cleanup | src/store.c:126-143 | for every state: an address stays if and only if its last time is at least now - gap, its record is unchanged, and the result is the number of addresses that went, over all buckets |
| Store.TimestampStore.Records | src/store.c:148-152 | the number of addresses in the map |
| Store.TimestampStore.Perform | src/store.c:86-152 | any run of requests has the outcomes and the final state that the plain map has, request by request as UpdateSets, FetchFinds and CleanupRemoves say |
| Store.WidthsAgree | src/store.c:154-200 | stores of any two hash widths, 0 bits included, answer every run of requests alike |
| Store.StoreAlloc | src/store.c:154-211 | fails exactly for an unsupported protocol, more than 32 bits or lack of memory; else an empty store |
| Sizes.SmoothSizeIsLeast | src/main_client.c:60-65 | the smoothed size is a multiple of 16 that is at least size + 10, no other such multiple is smaller, so 10 to 25 more; up to the wrap-around of size_t, which is stated exactly |
| Sizes.MsgSizes | src/main_client.c:66-77 | the size of each option set: 72, 102, 108 or 120, 138 or 150 octets |
| Sizes.FlagsAre | src/main_client.c:78-89 | bit 0 of the request flags asks for a STATUS, bit 1 for a time zone |
| Dialogue.ClientSizesAre | src/main_client.c:60-77 | the smoothed size of each option set: 96, 112, 128 or 144, 160 octets |
| Dialogue.SizesAgree | src/main_client.c:60-77 | for every option set and family, whatever the family of the service's parent address, and every zone name of at most 10 octets: the client's two messages and the service's two answers build and pad to the client's size |
| Parts.AddBodyHolds | src/msg.c:308-390 | filling and adding a body that fits adds exactly this part, exactly if there is room, and every part before stays |
| Parts.AddBodyIs | src/main_service.c:51-122 | nextTlv, the stores and addTlv as the service calls them: when nothing is added, and else what addTlv makes of the filled octets |
| Parts.PartsSent | src/msg.c:430-490 | a built message is its parts on the wire, each its header and its swapped body, in order, then the PAD |
| Parts.PartsFound | src/msg.c:491-617 | whoever parses a built message finds exactly its parts, in host order, and the PAD where it is recorded |
| Dialogue.RespTlvsBuild | src/main_service.c:51-122 | the TLVs of a response are RESPONSE with the ingress time, STATUS if asked and ALTERNATE_TIME_OFFSET_INDICATOR if asked, in this order and with the clock's properties as bodies; and they are added whenever they can be told and there is room |
| Dialogue.TellableIs | src/main_service.c:62-122 | what a response can tell: a status for IPv4 and IPv6, a time zone with 48 bits for its next change and at most 10 octets of name |
| Dialogue.PartsAsked | src/main_service.c:123-140 | a RESPONSE comes first, a STATUS follows exactly if bit 0 of the flags is set, and a time zone comes last exactly if bit 1 is |
| Dialogue.ResponseIsParts | src/main_service.c:123-140 | every response that is built, whole: its parts on the wire and the PAD, and every receiver finds exactly these parts |
| Dialogue.HeaderOnWire | src/msg.c:239-242 | every part on the wire begins with its type and length, big-endian |
| Dialogue.ResponseOnWire | src/main_service.c:51-61 | the RESPONSE part on the wire: each field big-endian at the offset of its layout |
| Dialogue.StatusOnWire | src/main_service.c:62-94 | the STATUS part on the wire: 36 octets and address length 4 for IPv4, 48 and 16 for IPv6, each clock property at the offset of its layout |
| Dialogue.AltTimeOnWire | src/main_service.c:95-122 | the ALTERNATE_TIME_OFFSET_INDICATOR part on the wire: each property at the offset of its layout, the name and its zero last |
| Dialogue.RequestIsRead | src/main_client.c:90-108 | whoever receives a built request reads its parameters and its two request flags |
| Dialogue.PlainIsRead | src/main_client.c:109-124 | whoever receives a built Follow_Up reads its parameters and no TLV of the exchange |
| Dialogue.ResponseIsRead | src/main_service.c:123-140 | whoever receives a built response reads its parameters and exactly the ingress time |
| Dialogue.LastRequest | src/main_service.c:164-184 | a message with REQUESTs has the flags of the last one, a message without has none |
| Dialogue.IngressInOrder | src/main_client.c:125-161 | the ingress times of a message are those of its RESPONSEs, in order |
| Service.ServeMeaning | src/main_service.c:164-219 | a flow sends nothing unless the datagram reads as a Sync with a REQUEST; then answers of the datagram's own size with its domain, correctionField, sequenceId and second flag octet, the ingress time, the send time and exactly the parts its flags ask for; the Follow_Up only in two steps and after a successful send |
| Service.ServeAnswers | src/main_service.c:190-219 | a request whose size leaves room for what it asks for is answered in full |
| Service.ServiceState.RcvReqSync | src/main_service.c:164-184 | the flags of the last REQUEST, or failure exactly without one |
| Service.ServiceState.AddAltTimeTlv | src/main_service.c:95-122 | fills and adds the TLV, fails for a time above 48 bits or a name above 10 octets; a failure changes nothing up to the end of the message |
| Service.ServiceState.BuildRespSync | src/main_service.c:123-140 | the message BuildResponse gives, or failure where it gives none |
| Service.ServiceState.MainFlow | src/main_service.c:190-219 | one poll sends exactly what Serve says, to the address the datagram came from; true exactly if all of it was built and sent |
| Client.RequestsMeaning | src/main_client.c:90-124 | the messages a flow sends, as any receiver reads them, parameter by parameter |
| Client.FlowMeaning | src/main_client.c:186-234 | for whatever the polls bring: their number is 50 less the loops left plus the accepted messages; early failure exactly on an accepted Sync without RESPONSE; otherwise success exactly if a Sync and a message with the send time were accepted; r1 and r2 of the latest Sync, t2 of the latest message with a send time |
| Client.LatestWins | src/main_client.c:196-222 | later accepted times replace earlier ones |
| Client.HearIs | src/main_client.c:186-222 | by the octets received: a poll is accepted if and only if it is a datagram from the service that parse takes, with the flow's sequenceId at octet 30 and its domain at octet 4; what the client takes from it |
| Client.NextIs | src/main_client.c:186-226 | a poll that is not accepted uses up a loop and changes no time; one that is uses up none and changes exactly the times it brings |
| Client.LastValidIs | src/main_client.c:141-143 | r1 takes over the last ingress time with nanoseconds below 10^9, if there is one |
| Client.StopsFirst | src/main_client.c:186-226 | by the datagrams taken: the flow goes on exactly as long as fewer than 50 polls were not accepted, a Sync or a time is missing, and no Sync without RESPONSE came |
| Client.StandsAt | src/main_client.c:186-234 | where the flow stands after any number of polls, by the datagrams taken |
| Client.LatestSyncTaken | src/main_client.c:196-209 | r2 and r1 are of the latest Sync taken |
| Client.LatestTimeTaken | src/main_client.c:199-215 | t2 is of the latest message taken that has the send time |
| Client.NothingTaken | src/main_client.c:186-226 | without such messages the times stay as they were; the polls in which nothing came are counted |
| Client.ClientState.SendRequests | src/main_client.c:90-124 | sends exactly what Requests says, and stops after a failed send |
| Client.ClientState.RcvRespSync | src/main_client.c:125-161 | r1 takes over the ingress times of the RESPONSEs in turn; true exactly if there is one |
| Client.ClientState.WaitForResponse | src/main_client.c:186-226 | the bit-mask loop stops after the first number of polls at which, by the datagrams taken, 50 were not accepted, or a Sync and a time have come, or a Sync without RESPONSE; early return, success and timeouts by the same, and the times the trace says |
| Client.ClientState.Flow | src/main_client.c:162-246 | the whole flow: the requests, the wait on the polls of WaitForResponse, the result, the sleep of a second less 50 ms for each timeout, and the next sequenceId, which a failed send and the early return keep and 65535 wraps to 1 |
| Exchange.StepKeeps | src/main_client.c:162-246 | every step of client, service and network keeps the invariant with any sends failing; and the times the client has stay its own if it begins to poll only with a fresh sequenceId |
| Exchange.SuccessfulAttempt | src/main_client.c:162-246 | at every moment of every run, with any sends failing: the client never takes its early return; and if attempts begin to poll only while no request that may be answered and no answer with their sequenceId is in flight, an attempt that has all it waits for holds the four times of its own request: t1, r1, t2 and r2 |
| Exchange.AttemptIsFlow | src/main_client.c:186-234 | the client of the state machine is the flow: when an attempt ends, a flow on its polls, whatever would follow, ends there with the same times |
| Exchange.TakenById | src/main_client.c:190-195 | the client accepts an answer of the service if and only if it bears the current sequenceId, whichever attempt it is for, and takes its times |
| Exchange.NewClient | src/main_client.c:78-89 | a client that is set up as the configuration says has the parameters, flags and size of the state machine |
| Exchange.SendsAre | src/main_client.c:177-181 | the network has the first message exactly if its send succeeds, the second exactly if both do |
| Exchange.BeginsAnew | src/main_client.c:162-185 | an attempt that goes on to poll has 50 loops, waits for all, keeps the times the client had, and has a t1 of its own |
| Exchange.LoseLoses | src/main_client.c:162-246 | a lost message is on its way no more, and nothing else changes |
| Exchange.NetworkIsFree | src/main_client.c:186-226 | in every state the network can lose any message, deliver any that is in flight, and bring nothing |
| Exactness.FreshIsExact | src/main_client.c:174-195 | from any world of any run, with any sends having failed: all that can follow an attempt's begin is safe if and only if no request that may be answered and no answer in flight bears its sequenceId |
| Exactness.SuccessfulWholeAttempt | src/main_client.c:162-246 | in every run without half-sent requests and with fewer than 65535 sequenceIds in flight, what the client is done with is its own |
| Exactness.SendsExact | src/main_client.c:177-181 | going on from such a run, a request keeps all that can follow safe if and only if it is not half-sent |
| Exactness.HalfSentRun | src/main_client.c:177-181 | for every client that sends in two messages, a run from the start: the first message is sent, the second is not, the sequenceId stays, and the client ends with a time that is not its own |
| Exactness.ClientsExact | src/main_client.c:177-181 | whatever sends fail, with fewer than 65535 sequenceIds in flight: exactly the clients that send in one message are safe |
| Exactness.BoundIsTight | src/main_client.c:235-238 | with messages of 65535 sequenceIds ago still in flight, a run from the start without half-sent requests goes wrong |
| Delivery.DeliveredAttempt | src/main_client.c:186-226 | whatever came before, an attempt whose request and answers arrive is done, in either order of response and Follow_Up and with up to 49 idle polls in between; with a fresh sequenceId its times are its own |
| Options.NextRecVisits | src/opt.c:44-57 | the iteration visits every record of the chained arrays once, in order |
| Opt.FirstValueStays | src/opt.c:58-66 | over every run of calls without the replace flag, an option keeps the first value that was parsed for it |
| Opt.ValuesInRange | src/opt.c:101-129 | over every run of calls, the value of a number or enumerator is in its range if its default is |
| Opt.StoresWithoutText | src/opt.c:58-73 | a value that is set stays without the replace flag; the flag for booleans stores the inverse of the default; without a text nothing else is stored |
| Opt.StoresText | src/opt.c:78-99 | a text option stores the text |
| Opt.StoresNumber | src/opt.c:101-115 | a number option and an enumerator store a number in their range, and refuse every other |
| Opt.StoresName | src/opt.c:116-129 | a name stores the first enumerator in range that goes by it, or is refused |
| Opt.StoresBoolean | src/opt.c:130-142 | which numbers and words a boolean takes for 0 and 1, and that it takes no other |
| Opt.ParseFinds | src/opt.c:290-309 | a value is parsed for the first record with that short key or key |
| Opt.ParseFindsNone | src/opt.c:290-309 | without such a record, and for the short key 0 and the empty key, it fails without change |
| Opt.ValueIs | src/opt.c:310-342 | a record that is not set has its default |
| Opt.GetoptIs | src/opt.c:212-222 | the string, record by record |
| Opt.FirstNamed | src/opt.c:119-127 | the first enumerator in range that goes by the name, or none if there is none |
| Opt.OptObject.AddRecords | src/opt.c:169-195 | the new records come last, their values not set |
| Opt.OptObject.ParseOption | src/opt.c:290-309 | parses for the first record of that name and changes no other; fails without change if there is none |
| Opt.OptObject.ParseSlot | src/opt.c:58-148 | the loop over the enumerators finds what FirstNamed says |
| Opt.OptObject.GetVal | src/opt.c:310-342 | the set value of the first record of that name, else its default |
| Opt.OptObject.Getopt | src/opt.c:196-225 | the pre-options and every short key in order, a colon after each that takes an argument, and a final zero, within the octets allocated |
| OptCheck.TestAndSet | src/opt_check.c:103-109 | the 32 octets hold a set of characters: the test is membership and the store is insertion |
| OptCheck.MaskIs | src/opt_check.c:78-84 | the bit of a character is 1 shifted by the remainder |
| OptCheck.AddName | src/opt_check.c:119-125 | the sorted list holds a set of names: a name is refused exactly if it was seen before |
| OptCheck.UnambiguousIs | src/opt_check.c:61-136 | option by option: pre-options from 33 to 126 and different, but for - : ; + and W; short keys in the same range, none of these five, different from each other and from the pre-options; long names different |
| OptCheck.OptDuplicates | src/opt_check.c:61-136 | given memory, true if and only if there are records, every pre-option is graphic, every short key is valid, all valid pre-options and short keys are pairwise distinct, and all non-empty long names are pairwise distinct |

## Left out

- Where code and documentation disagree the model follows the code: `opt_duplicates` is documented to return true if it found a duplication (src/opt.h:109) and returns true if it found none.
- Objects that a caller leaves out (null arguments) and a mutex that cannot be locked.
- Buffers above 65535 octets, which messageLength cannot describe (src/msg.c:90).
- A received message that passes every check of parse with a messageLength below 44: parse subtracts the header size without a check (src/msg.c:521-529). Receiving requires that there is none (`ClaimsHeader`, whose exactness is Parsing.ScanSizeInBuffer).
- buildDone on a message with a recorded time-zone name of 255 octets, where it would store a zero outside the TLV (src/msg.c:190-196); adding such a name is in the model.
- Hash widths of 31 and 32 bits, where the shift of an `int` overflows (src/store.c:174).
- `copy` of a message, and the getters of the message object.
- The `release` callback (every caller passes none), `freeList` and `free` of the list manager, which end a list's life (src/slist.c:54-94).
- The key part of a node is set once and its data part overwritten by updateNode; the set callback is the pair (key, data) of the cookie and reads no clock of its own: the time it stores is an input.
- Store.TimestampStore.Fetch: one step; the code reads and clears the node after the lock is dropped (src/store.c:114-125).
- Store.TimestampStore.Cleanup: runs without other threads; the interleaving with updates is proved for the list cleanup it calls.
- Opt.OptObject.AddRecords: takes arrays with at least one record; the code accepts an empty one, and its loops then read past it (src/opt.c:42-57).
- OptCheck.AddName: gives the list's nodes memory, as OptCheck.OptDuplicates does.
- OptCheck.OptDuplicates: gives the list's nodes memory; the code ignores a failed `updateNode`, and may then miss a duplicate.
- The octets of the service's buffer after an answer that cannot be built; nothing is sent then, and the next receive overwrites them.
- Exchange.SuccessfulAttempt: one client; a failed send of the service is a message the network loses; datagrams from elsewhere bear other addresses.
- A failed receive leaves the buffer and the addresses as they were.
- Sockets, polling, phc and interface clocks, threads, logging, configuration files and command lines.
- Characters outside ASCII as option keys: `isgraph` is the one of the C locale.
- Float options, who owns a string option's memory, `getoptLong`, the help text, and the lookups of a record's type (the same search as in the getters). `strtoll` and `strcasecmp` are parameters.
- An enumerator whose maximum is the largest 64-bit number, where the loop over the names cannot end (src/opt.c:119).
- The word for a false boolean is spelt `flase` (src/opt.c:133); the model keeps it.
- `getLocalTZ`, sleeping, and the offset that the client only logs.
