# libevent, verified

A Dafny model of the hard core of libevent 2.1.8 as it is vendored under
`ss/src/main/jni/libevent`, with proofs about it. `dafny verify dfyconfig.toml`
checks everything. Allocation succeeds, a locked section is one step, and system
calls act on small ghost state. `Words` has the sizes of machine words.

- **Event map, change list, epoll** (`EventKinds`, `EpollTable`, `EpollKernel`,
  `IoMap*`, `IoBase`): per-descriptor counters and the coalescing change list
  against a kernel that may answer EEXIST and ENOENT. `IoMap` has the steps as
  functions, `IoMapEvents` which events a descriptor lists, `IoBase` the object
  that takes the steps in place.
- **evbuffer** (`Bytes`, `EvBuffer*`): linked chunks with `misalign` and `off`
  windows and the pointer-to-pointer `last_with_datap`, refining a byte sequence.
  The invariant includes that no empty chunk comes before the last one with data.
  `EvBufferReport` adds the counters that callbacks are told.
- **DNS names and packets** (`DnsNames`, `DnsEncodes`, `DnsCompress`,
  `DnsPacket`, `DnsResponse`): name compression as in sections 2.3.4, 3.1 and
  4.1.4 of RFC 1035, from the label table to whole responses.
- **DNS requests** (`DnsRequests`, `DnsRequestLemmas`, `DnsRehash`, `DnsRuns`,
  `DnsIds`, `DnsBase`): inflight buckets, waiting queue, failover, transaction
  identities and retransmission, whatever sendto answers.
- **Event base** (`Queues`, `Timevals`, `MinHeap`, `Event*`): flags, priority
  queues, the later queue, the timer heap and the common-timeout lists.
  `EventModel` to `EventTheorems` have the steps and what every run keeps,
  `EventEffects` what a step does to its event and that it does nothing else;
  `EventLoop`, `EventActions`, `EventDispatch` and `EventProcess` the object and
  the loops.
- **Rate limits** (`TokenBucket`, `RateLimit`, `RateGroup`): the
  overflow-avoiding refill, the refill timer of a connection, and the try-lock
  protocol of a group as a state machine over the steps of all threads.
- **Tagged data** (`TagNumbers`, `Tagging`, `TagLoops`): nibble integers, tags and
  the marshal family.

Where the code does less than one would expect, the exact condition is proved,
and a case that can be reached is given where it is one:

- A dispatch does not restore an interest the kernel lost when the recorded
  change cancels out (`IoMapRuns.DispatchExact`, `IoMapCoalesce.CoalescingExact`;
  the run is `IoMapLost.DispatchMisses`).
- EPOLLET is dropped from what is left by a change that only deletes or only adds
  the close interest, with a change list (`IoMapEdge.EdgeKeptExactly`) and
  without one (`IoMapEdge.DirectDelDropsEdge`, `IoMapEdge.DirectAddEdge`; the run
  is `IoMapEdge.EdgeLost`).
- `evbuffer_prepend_buffer` breaks the invariant of a non-empty destination
  exactly when the source has trailing empty chunks (`EvBufferMove.PrependBuffer`;
  the calls are `EvBufferCases.PrependBufferGap`).
- `evbuffer_prepend` breaks it exactly when a new chunk goes before a read-only
  one and one of the two is empty (`EvBuffer.Buffer.Prepend`; the calls are
  `EvBufferCases.PrependNothingGap`).
- `evbuffer_remove_buffer` does not look at the result of its last
  `evbuffer_add`: what that refuses is lost (`EvBufferMove.RemoveBuffer`; the
  calls are `EvBufferCases.RemoveBufferLoses`, and `EvBufferMove.AllArrive` has
  the sizes for which nothing is lost).
- `orig_size` is the size when a callback was last invoked, as buffer.h says, for
  every callback but those with EVBUFFER_CB_NODEFER on a buffer whose callbacks
  are deferred, and for those exactly while the counters are in step
  (`EvBufferReport.Reported.RunCallbacks`, `EvBufferReport.Reported.InStepWhen`;
  the calls are `EvBufferReport.ToldAgain`).
- `event_deferred_cb_set_priority_` breaks the active queues exactly when it
  changes the priority of an active callback (`EventRuns.PriorityExact`; the run
  is `EventTheorems.PriorityBreaks`).
- A bare callback activated behind the loop's back may be overtaken by a less
  important one; exactly when it cannot is `EventPriority.CallbackActivateExact`,
  and the run `EventOvertake.BareOvertaken`. So may any callback of priority 0
  when an internal one is asked to stop, or no callbacks are allowed at all and
  priority 0 is not exempt (`EventOvertake.InternalOvertaken`); otherwise
  `EventProcess.ProcessActive` holds.
- `transaction_id_pick` never ends exactly when all 65535 identities are taken
  (`DnsIds.IdsLeft`, `DnsBase.EvdnsBase.TransactionIdPick`; the run is
  `DnsIds.IdsRunOut`).
- The bucket refill is min(limit + n*rate, maximum) exactly when the limit is not
  above the maximum or n*rate reaches the wrap-around (`TokenBucket.RefillExact`;
  the input is `TokenBucket.RefillOvershoots`).
- The closing zero of a DNS name is written without a check, so an end index can
  be one past the limit, and no more (`DnsPacket.EmitFits`); when it is, is
  `DnsPacket.EmitPast`, and one input `DnsPacket.EmitPastLimit`.
- `decode_tag_internal` pulls up five bytes and may look at a sixth; exactly when
  is `TagLoops.DecodeTagBytes`, one input `TagLoops.SixthByte`.
  `evtag_peek_length` and `evtag_consume` differ on huge lengths; exactly when
  they agree is `Tagging.PeekIsConsumed`, the inputs `Tagging.PeekDiffers`.
- The comment in event_tagging.c shows the high tag group first and calls the
  nibbles of an integer big-endian; the code writes the low ones first, and the
  model follows the code (`TagNumbers.LowGroupFirst`, with the comment's tag in
  `TagNumbers.LowGroupExample`; `TagNumbers.LowNibbleFirst`, with an integer in
  `TagNumbers.LowNibbleExample`).

`USE_REINSERT_TIMEOUT` is not defined in the repository, so a re-added timeout is
removed and inserted again.

## Model

| member | source | states |
|---|---|---|
| EpollTable.TableFollowsRule | ss/src/main/jni/libevent/epolltable-internal.h:124-1164 | for every old interest and every three change bytes, the 512-entry table gives the operation and events of the rule: the least EPOLL_CTL that turns the old interest into the wanted one |
| EpollKernel.AppliedAllFrame | ss/src/main/jni/libevent/epoll.c:358-374 | applying a change list leaves every descriptor it does not name alone |
| EpollKernel.AppliedAllAt | ss/src/main/jni/libevent/epoll.c:358-374 | a descriptor named once ends as applying its own change alone would leave it |
| EpollKernel.Epoll.Ctl | ss/src/main/jni/libevent/epoll.c:269-355 | epoll_ctl against ghost kernel state: ADD of a present and MOD or DEL of an absent descriptor fail with EEXIST and ENOENT and change nothing |
| EpollKernel.Epoll.ApplyOneChange | ss/src/main/jni/libevent/epoll.c:269-355 | the table entry with its MOD/ADD and DEL retries leaves the kernel at Applied, whatever the kernel held |
| EpollKernel.Epoll.ApplyChanges | ss/src/main/jni/libevent/epoll.c:358-374 | the loop over the change list is AppliedAll |
| IoMapLemmas.AddKeepsInv | ss/src/main/jni/libevent/evmap.c:266-342 | an add keeps counters equal to the listed events, slots and links in bijection, and every recorded change on course from what was to what is wanted |
| IoMapLemmas.DelKeepsInv | ss/src/main/jni/libevent/evmap.c:347-409 | a delete keeps the same invariant, also when it undoes an add that was never committed |
| IoMapLemmas.DispatchKeepsInv | ss/src/main/jni/libevent/epoll.c:416-520 | apply-then-clear keeps the invariant |
| IoMapLemmas.RecordKeepsInv | ss/src/main/jni/libevent/evmap.c:824-852 | recording a change in its own slot or a new one, then the events and counters it stands for, keeps slots and links in bijection and every change on course |
| IoMapLemmas.ListedIsWanted | ss/src/main/jni/libevent/evmap.c:347-409 | a listed event is counted, so the counters of a delete never go below zero |
| IoMapRuns.DispatchExact | ss/src/main/jni/libevent/epoll.c:416-520 | after a dispatch a touched descriptor is watched for exactly the kinds with nonzero counters if and only if its change is effective or the kernel still held what the change started from; untouched ones stay |
| IoMapLost.DispatchMisses | ss/src/main/jni/libevent/epoll.c:416-520 | from an empty base: add a reader, dispatch, let the kernel forget the descriptor, add and delete a writer, dispatch; the reader is wanted and nothing is watched |
| IoMapRuns.ReinitOk | ss/src/main/jni/libevent/evmap.c:642-653 | after a reinit every descriptor is on its way to exactly its nonzero counters, with or without a change list |
| IoMapRuns.RunKeepsClean | ss/src/main/jni/libevent/evmap.c:266-409 | every legal run keeps the invariant, and cleanliness of every descriptor nobody disturbed |
| IoMapRuns.KernelFollowsCounters | ss/src/main/jni/libevent/epoll.c:268-374 | from an empty base, after any legal run and a dispatch, the kernel watches each undisturbed descriptor for exactly the kinds with nonzero counters |
| IoMapEvents.AddEvents | ss/src/main/jni/libevent/evmap.c:336-339 | an added event leads its descriptor's list and is counted whether or not the backend was told; refused exactly on overflow; other descriptors keep theirs |
| IoMapEvents.WithoutAt | ss/src/main/jni/libevent/evmap.c:347-409 | a deleted event leaves the others in order |
| IoMapEvents.RunEvents | ss/src/main/jni/libevent/evmap.c:266-409 | after any legal run each descriptor lists exactly the events added and not deleted since, the newest first |
| IoMapEvents.KernelFollowsEvents | ss/src/main/jni/libevent/epoll.c:268-374 | from an empty base, after any legal run and a dispatch, the kernel watches an undisturbed descriptor for exactly what the events added and not deleted since wait for |
| IoMapCoalesce.CoalescingMatchesDirect | ss/src/main/jni/libevent/evmap.c:767-939 | for every legal run ending in a dispatch, one coalesced change per descriptor has the effect of applying each add and delete at once |
| IoMapCoalesce.CoalescingExact | ss/src/main/jni/libevent/evmap.c:767-939 | with a kernel disturbed behind the base, the two backends agree if and only if nothing is pending, or the pending change is effective, or the kernel held what was wanted |
| IoMapEdge.EdgeKeptExactly | ss/src/main/jni/libevent/evmap.c:890-939 | after any legal run with edge-triggered events only, reinits included, a dispatch registers EPOLLET if and only if a read or write interest was added since the last one |
| IoMapEdge.DirectDelDropsEdge | ss/src/main/jni/libevent/epoll.c:398-413 | without a change list, a delete that leaves interests behind registers them without EPOLLET |
| IoMapEdge.DirectAddEdge | ss/src/main/jni/libevent/epoll.c:377-395 | without a change list, an add registers EPOLLET if and only if the event asks for it and a read or write interest is new |
| IoMapEdge.EdgeLost | ss/src/main/jni/libevent/epoll.c:398-413 | from an empty base: an edge-triggered reader and writer come, the writer leaves, and the reader is registered level-triggered |
| IoBase.EventBase.IoAdd | ss/src/main/jni/libevent/evmap.c:266-342 | keeps the invariant; -1 exactly when a 16-bit counter would overflow, 1 exactly when a kind is new to the descriptor and the backend is told; unless refused, the event leads its descriptor's list and is counted; other descriptors keep their events and counters |
| IoBase.EventBase.IoDel | ss/src/main/jni/libevent/evmap.c:347-409 | keeps the invariant; -1 and no change past the end of the map; 1 exactly when the last event of some kind leaves and the backend is told; the event is off its list, the others in order, and uncounted; other descriptors keep theirs |
| IoBase.EventBase.AddToBackend | ss/src/main/jni/libevent/evmap.c:855-887 | event_changelist_add_ and epoll_nochangelist_add in place |
| IoBase.EventBase.DelFromBackend | ss/src/main/jni/libevent/evmap.c:890-939 | event_changelist_del_ and epoll_nochangelist_del in place |
| IoBase.EventBase.RemoveAll | ss/src/main/jni/libevent/evmap.c:768-786 | the list is emptied and every link cleared |
| IoBase.EventBase.Dispatch | ss/src/main/jni/libevent/epoll.c:416-520 | apply then clear, in place; no descriptor's events or counters change |
| IoBase.EventBase.Reinit | ss/src/main/jni/libevent/evmap.c:642-653 | re-adds the interest of every descriptor to a new kernel object; no descriptor's events or counters change |
| EvBuffer.AllocSize | ss/src/main/jni/libevent/buffer.c:156-192 | the doubling ends without overflow, with room for the request and less than twice it |
| EvBuffer.ChainNew | ss/src/main/jni/libevent/buffer.c:156-192 | null exactly for a request that is too large, else an empty writable chunk of that room |
| EvBuffer.Buffer.FreeTrailingEmpty | ss/src/main/jni/libevent/buffer.c:290-302 | cuts the empty chunks after the data, content unchanged |
| EvBuffer.Buffer.ChainInsert | ss/src/main/jni/libevent/buffer.c:308-326 | appends a chunk: content, links, last, last_with_datap and total_len all follow |
| EvBuffer.Buffer.Add | ss/src/main/jni/libevent/buffer.c:1723-1817 | content becomes content ++ data; or nothing changes and -1, exactly when frozen, past SIZE_MAX in all, or when neither the chunk nor any that can be had would hold it |
| EvBuffer.Buffer.TooMuchOnly | ss/src/main/jni/libevent/buffer.c:1723-1817 | with no chunk larger than evbuffer_chain_new makes them, only data too large for a chunk of its own is refused for want of one |
| EvBuffer.Buffer.AddReference | ss/src/main/jni/libevent/buffer.c:2908-2945 | content becomes content ++ data through a read-only chunk, which may be empty; -1 exactly when frozen |
| EvBuffer.Buffer.Prepend | ss/src/main/jni/libevent/buffer.c:1820-1899 | content becomes data ++ content, in front space or a new chunk; exactly when it fails, and exactly which end of the data it leaves then; its invariant holds afterwards if and only if no new chunk was put before a read-only one with either of the two empty |
| EvBufferCases.PrependNothingGap | ss/src/main/jni/libevent/buffer.c:1820-1899 | a reference, and nothing prepended to it: the content is right and the invariant broken |
| EvBuffer.Buffer.Drain | ss/src/main/jni/libevent/buffer.c:1096-1161 | drops exactly the first len bytes, or all |
| EvBuffer.Buffer.CopyOut | ss/src/main/jni/libevent/buffer.c:1185-1249 | reads exactly the first bytes across chunks, changing nothing |
| EvBuffer.Buffer.Remove | ss/src/main/jni/libevent/buffer.c:1165-1176 | bytes removed ++ bytes left is what was there; the count comes back cut to 32 bits |
| EvBuffer.Buffer.AdvanceLastWithData | ss/src/main/jni/libevent/buffer.c:703-716 | stops at the last of a run of chunks with data |
| EvBufferMove.AddBuffer | ss/src/main/jni/libevent/buffer.c:961-1004 | destination gains all of the source at its end, source is empty, no chunk is in both, both invariants hold |
| EvBufferMove.PrependBuffer | ss/src/main/jni/libevent/buffer.c:1050-1093 | destination gains all of the source at its front; its invariant holds afterwards if and only if the source had no trailing empty chunk or the destination was empty |
| EvBufferCases.PrependBufferGap | ss/src/main/jni/libevent/buffer.c:1050-1093 | a reference with room made behind it, put in front of other data: the content is right and the invariant broken |
| EvBufferMove.RemoveBuffer | ss/src/main/jni/libevent/buffer.c:1255-1342 | the first datlen bytes leave the source, which keeps the rest; all of them arrive in order unless the copy of the last few is refused, which is then exactly what is lost; both invariants hold; the count comes back cut to 32 bits |
| EvBufferCases.RemoveBufferLoses | ss/src/main/jni/libevent/buffer.c:1255-1342 | a reference larger than any chunk, most of it moved to an empty buffer: the bytes leave the one and do not arrive in the other |
| EvBufferMove.AllArrive | ss/src/main/jni/libevent/buffer.c:1255-1342 | with no chunk larger than evbuffer_chain_new makes them and sizes that add up to a size_t, nothing is lost |
| EvBufferExpand.Pullup | ss/src/main/jni/libevent/buffer.c:1345-1454 | content unchanged; on success the first n bytes are in the first chunk; null exactly for nothing, for more than there is, or when neither the first chunk nor any to be had could hold them |
| EvBufferExpand.ExpandSingleChain | ss/src/main/jni/libevent/buffer.c:1928-2035 | content unchanged; one chunk at or after the data has room for datlen |
| EvBufferExpand.ExpandFast | ss/src/main/jni/libevent/buffer.c:2040-2147 | content unchanged; at most n chunks at or after the data have room for datlen together; behind a read-only last chunk the room is a chunk of its own |
| EvBufferSearch.PtrMemcmp | ss/src/main/jni/libevent/buffer.c:2666-2699 | memcmp of the bytes at the position with those given, sign included, across chunk boundaries; -1 for no position or too few bytes |
| EvBufferSearch.PtrSet | ss/src/main/jni/libevent/buffer.c:2610-2659 | reaches exactly the position asked for, the end included, and nothing beyond |
| EvBufferSearch.PtrAdd | ss/src/main/jni/libevent/buffer.c:2610-2659 | goes forward exactly that far; -1 and unchanged on a position that is none or a sum above SIZE_MAX, -1 and none past the end |
| EvBufferSearch.PtrSubtract | ss/src/main/jni/libevent/buffer.c:2590-2607 | goes back exactly that far, or -1 and unchanged exactly when there is not so much in front |
| EvBufferSearch.SearchRange | ss/src/main/jni/libevent/buffer.c:2708-2769 | the leftmost match at or after start that ends by end, or none exists; an empty pattern gives start |
| EvBufferSearch.FindEolChar | ss/src/main/jni/libevent/buffer.c:1489-1513 | the first CR or LF, looked for 128 bytes at a time |
| EvBufferSearch.Scan | ss/src/main/jni/libevent/buffer.c:1467-1486 | the first wanted byte from a position on, across chunks |
| EvBufferSearch.SpanEol | ss/src/main/jni/libevent/buffer.c:1538-1574 | the length of the run of CR and LF from a position on, across chunks |
| EvBufferSearch.SearchEol | ss/src/main/jni/libevent/buffer.c:1590-1677 | the first end of line of each style with its length, or there is none |
| EvBufferSearch.ReadLn | ss/src/main/jni/libevent/buffer.c:1680-1716 | content is line ++ terminator ++ rest, the line free of its terminator; without one nothing changes |
| EvBufferSearch.LineUnbroken | ss/src/main/jni/libevent/buffer.c:1680-1716 | what comes before the first end of line does not contain one |
| EvBufferReport.Reported.RunCallbacks | ss/src/main/jni/libevent/buffer.c:455-510 | exactly the callbacks the flags and the pass ask for are told, the size when the counters were last cleared and what came and went since, counters wrapping as they do; to one without NODEFER that is always the size when it was last invoked, to one with it if and only if the counters are in step |
| EvBufferReport.Reported.InStepWhen | ss/src/main/jni/libevent/buffer.c:455-510 | after a change that was told, the counters are in step if and only if callbacks are not deferred or as much was added as deleted since they were cleared |
| EvBufferReport.Reported.Note | ss/src/main/jni/libevent/buffer.c:513-530 | a change is counted and told to the callbacks that are due, the rest is left for the deferred pass, and whether a NODEFER callback is told its own last size depends on the counters before the change |
| EvBufferReport.Reported.Add | ss/src/main/jni/libevent/buffer.c:1723-1817 | an add that succeeds is counted and told as the pass asks, one that fails is neither |
| EvBufferReport.Reported.Prepend | ss/src/main/jni/libevent/buffer.c:1820-1899 | so is a prepend; exactly the part a failed one leaves in place is counted for the next report |
| EvBufferReport.Reported.Drain | ss/src/main/jni/libevent/buffer.c:1096-1161 | exactly what is drained is counted, and told as the pass asks |
| EvBufferReport.ToldAgain | ss/src/main/jni/libevent/buffer.c:455-510 | data come and go in a buffer whose callbacks are deferred: the NODEFER callback is told the second time that the buffer had been empty at the first, which it was not; the ordinary one is told what is so, once, in the deferred pass |
| DnsNames.NameParse | ss/src/main/jni/libevent/evdns.c:960-1013 | ends on every packet, cyclic pointers included; is the recursive reading of the packet; result shorter than the buffer and inside the packet |
| DnsNames.SpellLabels | ss/src/main/jni/libevent/evdns.c:960-1013 | putting out the labels of a well-formed name gives the name without its last dot |
| DnsEncodes.EncodesKept | ss/src/main/jni/libevent/evdns.c:1559-1663 | an encoded name stays encoded, and ends where it did, when the packet grows or is written elsewhere |
| DnsEncodes.EncodesParse | ss/src/main/jni/libevent/evdns.c:960-1013 | the parser reads exactly the encoded labels through all pointers, each with both high bits set, within its hop limit, and returns the right end |
| DnsCompress.EmitOk | ss/src/main/jni/libevent/evdns.c:1600-1663 | a successful call appends an encoding of the name that ends the packet, and every new table entry points at its suffix |
| DnsPacket.HoldsReads | ss/src/main/jni/libevent/evdns.c:960-1013 | what has been written as a name is read back by the parser, with the right next index |
| DnsPacket.EmitRoom | ss/src/main/jni/libevent/evdns.c:1600-1663 | a well-formed name always fits in two bytes more than its text |
| DnsPacket.EmitFits | ss/src/main/jni/libevent/evdns.c:1600-1663 | the end index passes the limit by at most the closing zero |
| DnsPacket.EmitPast | ss/src/main/jni/libevent/evdns.c:1600-1663 | a successful call ends past the limit if and only if every label fits, no suffix at a label is in the table used, the last byte is not a dot and the text with one length byte fills the room exactly |
| DnsPacket.EmitPastLimit | ss/src/main/jni/libevent/evdns.c:1600-1663 | a one-letter name in two bytes of room takes three |
| DnsPacket.EmitExact | ss/src/main/jni/libevent/evdns.c:1600-1663 | a call succeeds if and only if every label before the first suffix in the table is at most 63 bytes and those labels and the pointer fit; and then it takes exactly that and the closing zero |
| DnsPacket.NameRepeats | ss/src/main/jni/libevent/evdns.c:1572-1586 | a name written while the table has a free entry is from then on written as two bytes that point to where it was first spelled |
| DnsPacket.Big16Reads | ss/src/main/jni/libevent/evdns.c:1607-1613 | a 16-bit field is read back from its bytes in network order |
| DnsPacket.Big32Reads | ss/src/main/jni/libevent/evdns.c:1614-1620 | so is a 32-bit field |
| DnsPacket.Packet.GetPos | ss/src/main/jni/libevent/evdns.c:1560-1568 | the position of the first entry for the name, or -1 |
| DnsPacket.Packet.EmitName | ss/src/main/jni/libevent/evdns.c:1600-1663 | the loop is the recursive Emit |
| DnsPacket.Packet.ToLabels | ss/src/main/jni/libevent/evdns.c:1600-1663 | keeps every earlier claim about the packet and adds that the name stands at its start; succeeds exactly when the labels to spell are short and fit with the pointer, and then takes exactly those bytes; past the limit exactly as EmitPast says |
| DnsPacket.Packet.Append | ss/src/main/jni/libevent/evdns.c:1607-1620 | appends exactly when there is room, keeping every earlier claim |
| DnsPacket.Packet.Patch | ss/src/main/jni/libevent/evdns.c:1947-1956 | writes a length afterwards without touching any name |
| DnsResponse.WriteRecord | ss/src/main/jni/libevent/evdns.c:1938-1966 | one record: owner name, fields, and a name or raw bytes as data with its true length |
| DnsResponse.FormatResponse | ss/src/main/jni/libevent/evdns.c:1891-1985 | a response that is sent reads back part by part: the header with its flags and counts, each well-formed name through its pointers, each field, each data length, contiguously to the end; a response with names that can be written and room for its parts is truncated exactly when its whole form, which reads back as well, is longer than 512 bytes |
| DnsResponse.AnswerFlags | ss/src/main/jni/libevent/evdns.c:1904-1907 | the response bit is set, the error code joins the low bits and all other bits are those of the question |
| DnsResponse.HeaderFields | ss/src/main/jni/libevent/evdns.c:1910-1915 | identity, flags and the four counts are read back from the header |
| DnsResponse.RequestDataBuild | ss/src/main/jni/libevent/evdns.c:1680-1704 | sent exactly when the name and the fields behind it fit; the request sent reads back as its question after a header with its identity, the recursion flag and one question |
| DnsRequestLemmas.SubmitInflightKeeps | ss/src/main/jni/libevent/evdns.c:2824-2841 | a submitted request with a server keeps all scheduler invariants |
| DnsRequestLemmas.SubmitWaitingKeeps | ss/src/main/jni/libevent/evdns.c:2824-2841 | one without a server waits, invariants kept |
| DnsRequestLemmas.PromoteKeeps | ss/src/main/jni/libevent/evdns.c:743-770 | promotion keeps them: counters, bucket by identity, server count |
| DnsRequestLemmas.FinishKeeps | ss/src/main/jni/libevent/evdns.c:649-706 | so does finishing, from either list |
| DnsRequestLemmas.SwapKeeps | ss/src/main/jni/libevent/evdns.c:545-553 | so does a change of server |
| DnsRehash.ResizeKeeps | ss/src/main/jni/libevent/evdns.c:3386-3414 | rehashing files every request in flight under its identity again and loses none |
| DnsRuns.RunKeepsInv | ss/src/main/jni/libevent/evdns.c:648-770 | after every run: counters equal list lengths, each request in flight is once in bucket trans_id mod n, waiting exactly without server, server counts and the good-server count exact, identities unique |
| DnsRuns.RunRequests | ss/src/main/jni/libevent/evdns.c:648-770 | after every run exactly the requests submitted and not finished are there |
| DnsRuns.SendsBounded | ss/src/main/jni/libevent/evdns.c:714-735 | from submission until finish, at most (1 + max_reissues) * max(1, max_retransmits) counted transmissions in any order of events |
| DnsRuns.RunSends | ss/src/main/jni/libevent/evdns.c:2238-2286 | the count kept in the request is the number of counted transmissions of the run |
| DnsRuns.InBucket | ss/src/main/jni/libevent/evdns.c:469-483 | a bucket holds exactly the requests in flight whose identity falls there |
| DnsBase.EvdnsBase.FindFromTransId | ss/src/main/jni/libevent/evdns.c:469-483 | finds a request exactly when a scan of all requests in flight would |
| DnsIds.IdsLeft | ss/src/main/jni/libevent/evdns.c:1318-1329 | at most 65535 requests are in flight, and an identity is free if and only if fewer are |
| DnsIds.IdsRunOut | ss/src/main/jni/libevent/evdns.c:1318-1329 | from any base with a server and no requests, 65535 submissions are a legal run after which no identity is free |
| DnsBase.EvdnsBase.TransactionIdPick | ss/src/main/jni/libevent/evdns.c:1318-1329 | given draws in which every identity keeps coming up, ends with the first free draw if and only if fewer than 65535 requests are in flight |
| DnsBase.EvdnsBase.Pick | ss/src/main/jni/libevent/evdns.c:1335-1367 | -1 exactly without servers; the first good server of the ring from its head on, the head moving past it, or the one after the head if none is good; the walk always ends |
| DnsBase.EvdnsBase.AddNameserver | ss/src/main/jni/libevent/evdns.c:2485-2564 | 3 exactly for an address that is there already, the error of a long address or of what the system refuses, and then no change; else the new server stands next to the head of the ring and the others stay in order |
| DnsBase.EvdnsBase.SwapNs | ss/src/main/jni/libevent/evdns.c:545-553 | moves one request between servers |
| DnsBase.EvdnsBase.NameserverFailed | ss/src/main/jni/libevent/evdns.c:558-615 | the server is down; exactly its requests not sent yet have moved, each to a good server, while one is good; nothing else changes |
| DnsBase.EvdnsBase.RequestTransmit | ss/src/main/jni/libevent/evdns.c:2238-2286 | for any answer of sendto: to a choked server nothing is sent and the mark stays; sent counts one transmission; blocked chokes the server and leaves the mark; failed takes the server down and counts; lists unchanged |
| DnsBase.MarkMeans | ss/src/main/jni/libevent/evdns.c:2251-2283 | a request is still marked after a transmission only because its server is choked; otherwise it is counted once and stays with its server unless that went down |
| DnsBase.EvdnsBase.TransmitMarked | ss/src/main/jni/libevent/evdns.c:2345-2366 | every marked request is tried: afterwards only those of choked servers are marked; only marked ones are sent, each at most once; lists unchanged |
| DnsBase.EvdnsBase.PumpWaitingQueue | ss/src/main/jni/libevent/evdns.c:743-770 | promotes from the head of the queue, in order, onto good servers while one is good; stops only when nothing waits, the maximum is reached or there is no server, and is stuck only with all 65535 identities taken below the maximum; what was in flight stays so under its identity; what it promoted has been tried |
| DnsBase.EvdnsBase.RequestFinished | ss/src/main/jni/libevent/evdns.c:649-706 | exactly this request is gone, and waiting ones have taken its place: afterwards nothing waits, the maximum is reached, there is no server, or no identity is free |
| DnsBase.EvdnsBase.OnTimeout | ss/src/main/jni/libevent/evdns.c:2161-2196 | finishes the request and takes its server down exactly when its retransmissions are used up; else sends it again, once, to the server picked, or leaves it marked because that is choked; a server past its allowed timeouts is down and counts afresh |
| DnsBase.EvdnsBase.Reissue | ss/src/main/jni/libevent/evdns.c:715-735 | pointless exactly when the server picked is its own, and then nothing changes; else it moves there with a fresh count, marked, and one more reissue |
| DnsBase.EvdnsBase.OnRefusal | ss/src/main/jni/libevent/evdns.c:896-906 | while it has reissues left its server goes down and it is reissued on the server picked then, if and only if that is not the one it is on; so always if it had been sent and another server is good; otherwise, and once the reissues are used up, finished; no other request is lost |
| DnsBase.EvdnsBase.Submit | ss/src/main/jni/libevent/evdns.c:2747-2821 | in flight on the server picked, sent once or kept back by its choked server, exactly when below the maximum and there is a server; else last of those that wait; stuck exactly when all 65535 identities are taken below the maximum; other requests stay |
| DnsBase.EvdnsBase.SubmitTo | ss/src/main/jni/libevent/evdns.c:2315-2339 | forced in flight on the given server, sent once or kept back by its choked server; other requests stay |
| DnsBase.EvdnsBase.SetMaxRequestsInflight | ss/src/main/jni/libevent/evdns.c:3386-3414 | the new maximum, at least 1, one bucket for every five; the loops file every request anew and change none |
| Timevals.SlotRoundTrip | ss/src/main/jni/libevent/event.c:1496-1507 | the slot written into a common timeout is the slot read back, with its time |
| Timevals.SameSlotOrder | ss/src/main/jni/libevent/event.c:3290-3303 | within one slot the raw comparison of tv_usec is the order of the times |
| Timevals.NextRunOk | ss/src/main/jni/libevent/event.c:1519-1581 | a persistent event runs next in the same slot, not before now: exactly one interval after it was due if it ran for its timeout and that has not passed, else one interval after now |
| Timevals.PlusTotal | ss/src/main/jni/libevent/include/event2/util.h:518-526 | adding normal times adds up their microseconds and stays normal, and comparing them compares those |
| MinHeap.TopIsMin | ss/src/main/jni/libevent/minheap-internal.h:69-69 | the first event of a heap has the earliest deadline |
| MinHeap.TimerHeap.Top | ss/src/main/jni/libevent/minheap-internal.h:69-69 | the top is a minimum |
| MinHeap.TimerHeap.ShiftUp | ss/src/main/jni/libevent/minheap-internal.h:161-171 | heap order and every min_heap_idx restored, same events |
| MinHeap.TimerHeap.ShiftDown | ss/src/main/jni/libevent/minheap-internal.h:173-186 | the same downwards |
| MinHeap.TimerHeap.Push | ss/src/main/jni/libevent/minheap-internal.h:71-77 | adds exactly one event |
| MinHeap.TimerHeap.Erase | ss/src/main/jni/libevent/minheap-internal.h:96-115 | removes exactly that event, -1 when it is not there |
| EventLists.SortedInsert | ss/src/main/jni/libevent/event.c:3280-3307 | keeps a list sorted; the head is the old head or the new event |
| EventSteps.DelKeeps | ss/src/main/jni/libevent/event.c:2761-2844 | a delete keeps the base invariant and takes the event off every queue, unless it is being finalized |
| EventEffects.DelQueues | ss/src/main/jni/libevent/event.c:2761-2844 | a deleted event leaves the order of its queues alone |
| EventSteps.ActiveKeeps | ss/src/main/jni/libevent/event.c:2865-2913 | an activation keeps it; reasons add up; a finalizing event is refused |
| EventEffects.ActiveQueues | ss/src/main/jni/libevent/event.c:3326-3344 | an event that becomes active goes to the end of the queue of its priority; the timers, the map and the other queues stay |
| EventSteps.ActiveLaterKeeps | ss/src/main/jni/libevent/event.c:2924-2938 | so does an activation for later |
| EventSteps.CallbackActivateKeeps | ss/src/main/jni/libevent/event.c:2952-2979 | so does the activation of a bare callback |
| EventSteps.ScheduleKeeps | ss/src/main/jni/libevent/event.c:1407-1413 | sets the list timer to the head's own deadline, which covers the list again |
| EventSteps.AddTimeoutCommon | ss/src/main/jni/libevent/event.c:2612-2692 | a common deadline goes to its list and, if it leads it, the timer is set |
| EventRuns.AddKeeps | ss/src/main/jni/libevent/event.c:2547-2716 | an add keeps the invariant; a failed add changes nothing; it fails exactly when finalizing or the map refuses |
| EventRuns.ScheduleIsAdd | ss/src/main/jni/libevent/event.c:1407-1413 | scheduling a list is an ordinary absolute add of its timer |
| EventRuns.FinalizeKeeps | ss/src/main/jni/libevent/event.c:2197-2208 | finalizing keeps the invariant, off the map and the timers |
| EventRuns.CancelKeeps | ss/src/main/jni/libevent/event.c:3014-3041 | cancelling takes a callback off the active queues |
| EventRuns.CallbackFinalizeKeeps | ss/src/main/jni/libevent/event.c:2239-2253 | finalizing a callback keeps the invariant |
| EventRuns.PriorityExact | ss/src/main/jni/libevent/event.c:3054-3057 | an unchecked change of priority keeps the queues right if and only if the callback is not active or keeps its priority |
| EventTheorems.PriorityBreaks | ss/src/main/jni/libevent/event.c:3054-3057 | from a new base: a callback made and activated, then given any other priority, no longer agrees with the queues |
| EventRuns.ExpireKeeps | ss/src/main/jni/libevent/event.c:3126-3149 | one expiry: off every queue, active for the timeout, invariant kept, also for a list timer |
| EventRuns.PromoteKeeps | ss/src/main/jni/libevent/event.c:3388-3400 | one promotion keeps counters and queues |
| EventMachine.StartKeeps | ss/src/main/jni/libevent/event.c:1591-1706 | taking a callback off its queue and re-arming it keeps the invariant |
| EventMachine.RearmKeeps | ss/src/main/jni/libevent/event.c:1519-1581 | re-arming a persistent event keeps it |
| EventMachine.FinishKeeps | ss/src/main/jni/libevent/event.c:1419-1439 | the end of the list callback leaves the list covered without it |
| EventMachine.NewKeeps | ss/src/main/jni/libevent/event.c:2065-2111 | a new event is on no queue |
| EventMachine.InitCommonKeeps | ss/src/main/jni/libevent/event.c:1444-1515 | the slot returned decodes to its own list and duration; refused exactly when 256 lists with other durations exist |
| EventMachine.PlainlyTotal | ss/src/main/jni/libevent/event.c:1453-1460 | the duration of a common list, normalised, is as many microseconds as the one asked for |
| EventTheorems.StepKeeps | ss/src/main/jni/libevent/event.c:3165-3400 | every step of callers and of the loop keeps the base invariant |
| EventTheorems.RunKeepsInv | ss/src/main/jni/libevent/event.c:3884-3940 | after every run: flags say exactly which queues, each active queue only its own priority once, counters exact, lists sorted and covered |
| EventTheorems.RunFromEmpty | ss/src/main/jni/libevent/event.c:3884-3940 | from a new base: the counters count, and a finalizing event is on no timer structure and not on the map |
| EventTheorems.HeapLeads | ss/src/main/jni/libevent/event.c:3088-3122 | with nothing active, some heap event is due no later than any pending timeout, common lists included, so the loop never sleeps too long |
| EventPriority.CallbackActivateExact | ss/src/main/jni/libevent/event.c:2952-2979 | activating a bare callback, which does not tell the loop, leaves nothing more important active behind its back if and only if it is not queued, is not more important than what runs, finds its queue in use, or the loop has been told |
| EventPriority.CallbackFinalizeExact | ss/src/main/jni/libevent/event.c:2239-2253 | the same if and only if for finalizing a callback |
| EventPriority.PoliteCalm | ss/src/main/jni/libevent/event.c:2897-2898 | no action of callers that keep to that, and do not ask the loop to start over during an internal callback, makes a more important event active without telling the loop |
| EventLoop.EventBase.EventAdd | ss/src/main/jni/libevent/event.c:2547-2716 | keeps the invariant; -1 and no change exactly when finalizing or when the map refuses an event that is to go there; else on the map if it was or is to be; with a time, a timeout at it or exactly that long after now in the slot asked for, and off the active queue if an old timeout put it there; without one, timeout and deadline as before; a persistent event keeps a relative time as its interval; no event changes but this one and the timer of its list; flags and queues agree |
| EventEffects.AddEffect | ss/src/main/jni/libevent/event.c:2547-2716 | the same of every add, field by field, without naming how it is done |
| EventLoop.EventBase.QueueInsertTimeout | ss/src/main/jni/libevent/event.c:3364-3385 | in place, heap or list |
| EventLoop.EventBase.InsertInOrder | ss/src/main/jni/libevent/event.c:3280-3307 | the search from the end finds the place after the last event that is not later |
| EventActions.DelEvent | ss/src/main/jni/libevent/event.c:2761-2844 | keeps the invariant; off every queue, the others in order, with both counters lowered by what it was on, or unchanged exactly when finalizing and not forced; no other event changes |
| EventActions.ActivateEvent | ss/src/main/jni/libevent/event.c:2865-2913 | keeps the invariant; last on its own queue and off the later one, reasons added up, counters following, the loop told exactly when it is more important than what runs; unchanged exactly when finalizing |
| EventActions.ActivateEventLater | ss/src/main/jni/libevent/event.c:2924-2938 | keeps the invariant; last on the later queue unless active or there already, reasons added up, counters following |
| EventActions.ActivateCallback | ss/src/main/jni/libevent/event.c:2952-2979 | keeps the invariant; last on its queue exactly unless active or finalizing, 1 exactly when it was on no active queue, counters following |
| EventActions.EventFinalize | ss/src/main/jni/libevent/event.c:2197-2208 | keeps the invariant; finalizing, off the map and the timers, and last on its active queue to run its finalizer; its other fields and all other events unchanged |
| EventActions.CallbackCancel | ss/src/main/jni/libevent/event.c:3014-3041 | keeps the invariant; off the active and later queues, an event off every queue, or unchanged exactly when finalizing and not forced |
| EventActions.CallbackFinal | ss/src/main/jni/libevent/event.c:2239-2253 | keeps the invariant; finalizing, off the map and the timers, and last on its active queue to run its finalizer; its other fields and all other events unchanged |
| EventActions.PrioritySet | ss/src/main/jni/libevent/event.c:2306-2318 | -1 and no change exactly for an active event or a priority out of range; else the new priority, invariant kept |
| EventActions.InitCommonTimeout | ss/src/main/jni/libevent/event.c:1444-1515 | keeps the invariant; the search finds the first list with that duration and changes nothing, or makes a new one with a new timer; refused exactly when there are 256 others |
| EventDispatch.MakeLaterEventsActive | ss/src/main/jni/libevent/event.c:3388-3400 | every later event, and no other, becomes active, in order, counters unchanged |
| EventDispatch.TimeoutProcess | ss/src/main/jni/libevent/event.c:3126-3149 | over the array heap: ends; activates exactly the heap events with deadline <= now; what is left in the heap is later than now, and the array stays in order and in step with the base |
| EventDispatch.CommonTimeoutCallback | ss/src/main/jni/libevent/event.c:1419-1439 | activates exactly the due events of the list, in order, and sets the timer for the first of the rest |
| EventProcess.StartCallback | ss/src/main/jni/libevent/event.c:1591-1706 | takes the first callback of its queue, keeps the invariant, and alone writes to the journal; an event that is neither persistent nor finalizing is deleted altogether, a persistent one with an interval has a timeout at its next deadline, and no event changes but this one and the timer of its list |
| EventEffects.StartEffect | ss/src/main/jni/libevent/event.c:1591-1706 | the same of every start: exactly what becomes of the event whose callback begins |
| EventEffects.RearmEffect | ss/src/main/jni/libevent/event.c:1519-1581 | a persistent event with an interval, unless finalizing or refused by the map, has a timeout exactly one interval after its old deadline if it ran for that and the time has not passed, else one interval after now |
| EventProcess.RearmNow | ss/src/main/jni/libevent/event.c:1519-1581 | in place, Rearm |
| EventProcess.RearmAsked | ss/src/main/jni/libevent/event.c:1519-1581 | the assertion that deadline and interval share a slot never fails |
| EventProcess.ProcessQueue | ss/src/main/jni/libevent/event.c:1591-1706 | each callback the journal gains was the first of its queue with nothing more important active; the count is that of the callbacks run that are not internal, or -1 after a break; 0 only when the queue has emptied; it stops early only at the maximum, past the end time, or when the loop is told to start over |
| EventProcess.ProcessActive | ss/src/main/jni/libevent/event.c:1715-1757 | over a whole run, every callback the journal gains began with nothing more important active; the count is exact; 0 means every queue has emptied; a queue is left unfinished only at the maximum, past the end time, after a break, or when the loop is told to start over |
| EventOvertake.BareOvertaken | ss/src/main/jni/libevent/event.c:2952-2979 | from a new base: a bare callback becomes active while a less important one runs, the loop is not told, and another less important one begins before it |
| EventOvertake.InternalOvertaken | ss/src/main/jni/libevent/event.c:1715-1757 | from a new base: an internal callback runs while the loop is asked to start over or may run no callback at all, its queue is left with 0, and a less important callback begins while one of priority 0 is active |
| TokenBucket.RefillExact | ss/src/main/jni/libevent/bufferevent_ratelim.c:74-111 | the overflow-avoiding refill is min(limit + n*rate, maximum) if and only if limit <= maximum or n*rate >= 2^64 - (limit - maximum) |
| TokenBucket.RefillOvershoots | ss/src/main/jni/libevent/bufferevent_ratelim.c:74-111 | a limit above its maximum is pushed further up |
| TokenBucket.UpdateOk | ss/src/main/jni/libevent/bufferevent_ratelim.c:74-111 | with ticks modulo 2^32: forward ticks refill both directions, zero or backward ticks change nothing |
| TokenBucket.UpdatesCompose | ss/src/main/jni/libevent/bufferevent_ratelim.c:74-111 | two forward updates are one |
| TokenBucket.Throughput | ss/src/main/jni/libevent/bufferevent_ratelim.c:197-293 | with charges within the allowed maximum, under any group shares, the bytes in either direction over any k forward ticks are at most maximum + k*rate |
| RateLimit.StepKeeps | ss/src/main/jni/libevent/bufferevent_ratelim.c:272-346 | every operation keeps: exhausted means suspended, suspended means the refill timer is pending |
| RateLimit.NoLostWakeUp | ss/src/main/jni/libevent/bufferevent_ratelim.c:391-439 | so does every run |
| RateLimit.RefillLetsGo | ss/src/main/jni/libevent/bufferevent_ratelim.c:394-439 | one firing clears a direction exactly when its refilled limit is positive |
| RateLimit.FiringsClear | ss/src/main/jni/libevent/bufferevent_ratelim.c:394-439 | in either direction, a legal run of at most -limit/rate + 1 firings on new ticks clears the suspension |
| RateLimit.StepBucket | ss/src/main/jni/libevent/bufferevent_ratelim.c:272-346 | of every operation but setting a limit: a charge comes off its own limit and nothing else, a tick refills both, the configuration stays |
| RateLimit.SetStarts | ss/src/main/jni/libevent/bufferevent_ratelim.c:560-636 | the configuration and the bucket that setting, changing, repeating or removing a limit leaves |
| RateLimit.RunThroughput | ss/src/main/jni/libevent/bufferevent_ratelim.c:197-346 | over every legal run of a connection whose charges keep to what is allowed, either direction gets through at most what the bucket held, a rate for every tick and what was given back |
| RateLimit.Connection.DecrementReadBuckets | ss/src/main/jni/libevent/bufferevent_ratelim.c:273-308 | the bytes come off the read limit and nothing else; suspended exactly when it is used up; keeps the wake-up invariant |
| RateLimit.Connection.DecrementWriteBuckets | ss/src/main/jni/libevent/bufferevent_ratelim.c:311-346 | the same for writing |
| RateLimit.Connection.DecrementReadLimit | ss/src/main/jni/libevent/bufferevent_ratelim.c:972-996 | the adjustment comes off the read limit and nothing else; suspended or let go exactly when that changes its sign; keeps the wake-up invariant |
| RateLimit.Connection.DecrementWriteLimit | ss/src/main/jni/libevent/bufferevent_ratelim.c:999-1025 | the same for writing |
| RateLimit.Connection.GetRlimMax | ss/src/main/jni/libevent/bufferevent_ratelim.c:198-258 | for reading and writing, the refilled limit or the single-call maximum, lowered to the group share, never negative, and nothing while the group is suspended |
| RateLimit.Connection.OnRefillTimer | ss/src/main/jni/libevent/bufferevent_ratelim.c:394-439 | refills for the ticks passed; each direction let go exactly when its limit is positive; pending again exactly while something is suspended |
| RateLimit.Connection.SetLimit | ss/src/main/jni/libevent/bufferevent_ratelim.c:560-636 | a new limit starts with one rate each way; a changed one keeps what is left up to the new maximum; the same one changes nothing; none lets everything go; keeps the wake-up invariant |
| RateGroup.StepKeeps | ss/src/main/jni/libevent/bufferevent_ratelim.c:349-389 | every step of every thread keeps the group invariant |
| RateGroup.NeverForgotten | ss/src/main/jni/libevent/bufferevent_ratelim.c:445-557 | in every interleaving a member with the group bit, or about to get it, is remembered: suspended, pending, or the pass under way will see to it |
| RateGroup.NewGroupOk | ss/src/main/jni/libevent/bufferevent_ratelim.c:639-670 | a new group satisfies the invariant |
| RateGroup.PassPending | ss/src/main/jni/libevent/bufferevent_ratelim.c:488-504 | pending is set exactly when some member could not be locked |
| RateGroup.PassWakes | ss/src/main/jni/libevent/bufferevent_ratelim.c:488-504 | a pass clears the bit of exactly the members it can lock and changes nothing else but the pending flag |
| RateGroup.PassSuspends | ss/src/main/jni/libevent/bufferevent_ratelim.c:350-371 | a suspending pass sets the bit of exactly the members it can lock and changes nothing else |
| RateGroup.ChargeSettles | ss/src/main/jni/libevent/bufferevent_ratelim.c:294-304 | a charge with its pass: the limit falls by the bytes, the group is suspended exactly when nothing is left, and then every member that can be locked is, or is let go if the group was suspended before |
| RateGroup.RefillSettles | ss/src/main/jni/libevent/bufferevent_ratelim.c:529-557 | a refill with its pass: exactly when pending, or suspended and up to the minimum share, every member that can be locked is let go and the group is not suspended |
| RateGroup.RunLimit | ss/src/main/jni/libevent/bufferevent_ratelim.c:294-304 | over every interleaving the group's limit is what it was, less every charge, plus every refill |
| RateGroup.StepMembers | ss/src/main/jni/libevent/bufferevent_ratelim.c:736-815 | joining and leaving change membership for one member only, and only charges and refills change the limit |
| RateGroup.StepOwn | ss/src/main/jni/libevent/bufferevent_ratelim.c:736-815 | a member that checks a suspended group or joins one takes the bit; one that leaves gives it up if it was told to |
| RateGroup.StepOthers | ss/src/main/jni/libevent/bufferevent_ratelim.c:349-389 | no step changes the bit of a member it does not name; a visit changes it exactly if the member can be locked |
| RateGroup.RefillWakes | ss/src/main/jni/libevent/bufferevent_ratelim.c:529-557 | a refill that may unsuspend, and finds every member free, leaves no bit and no flag |
| RateGroup.EnoughTicks | ss/src/main/jni/libevent/bufferevent_ratelim.c:704-722 | enough ticks bring the bucket to the minimum share |
| RateGroup.TicksWake | ss/src/main/jni/libevent/bufferevent_ratelim.c:529-557 | a suspended group whose members are all free, refilled after n ticks with n*rate >= rate - limit, has no bit and no flag left |
| RateGroup.RandomOrder | ss/src/main/jni/libevent/bufferevent_ratelim.c:474-485 | the two loops visit the members from the random one round to the one before it |
| RateGroup.RotationOnce | ss/src/main/jni/libevent/bufferevent_ratelim.c:474-485 | which visits each exactly once |
| TagNumbers.IntRoundTrip | ss/src/main/jni/libevent/event_tagging.c:117-141 | every integer of up to maxnibbles nibbles decodes to itself with any bytes after it |
| TagNumbers.LowNibbleFirst | ss/src/main/jni/libevent/event_tagging.c:117-141 | an integer is its number of significant nibbles less one, then its nibbles, the lowest first, and a zero if one is left over |
| TagNumbers.LowNibbleExample | ss/src/main/jni/libevent/event_tagging.c:89-93 | 0x12 is written 12 10, where the comment's big-endian order would give 11 20 |
| TagNumbers.DecodedFits | ss/src/main/jni/libevent/event_tagging.c:315-349 | a number is read if and only if its count is within the width and all its bytes are there, and then fits the width and takes exactly them |
| TagNumbers.TagRoundTrip | ss/src/main/jni/libevent/event_tagging.c:174-194 | every 32-bit tag decodes to itself with any bytes after it |
| TagNumbers.TagReads | ss/src/main/jni/libevent/event_tagging.c:197-242 | a tag is read if and only if some byte ends it within 32 bits, and then is the number that its groups spell |
| TagNumbers.LowGroupFirst | ss/src/main/jni/libevent/event_tagging.c:174-194 | byte i of any tag holds its group i of seven bits, the lowest first, and whether another follows |
| TagNumbers.LowGroupExample | ss/src/main/jni/libevent/event_tagging.c:174-194 | the tag of the comment, which shows the groups the other way round |
| TagLoops.EncodeIntInternal | ss/src/main/jni/libevent/event_tagging.c:117-141 | the loop over the byte array writes exactly that encoding |
| TagLoops.EncodeTagBytes | ss/src/main/jni/libevent/event_tagging.c:174-194 | the loop writes exactly that encoding |
| TagLoops.DecodeTagBytes | ss/src/main/jni/libevent/event_tagging.c:197-242 | the loop reads the tag, refusing more than 32 bits; it looks past the five bytes pulled up if and only if all five go on, the fifth stays within 32 bits and there are more |
| TagLoops.SixthByte | ss/src/main/jni/libevent/event_tagging.c:197-242 | one such input |
| TagLoops.DecodeIntBytes | ss/src/main/jni/libevent/event_tagging.c:315-349 | the loop from the highest nibble down reads the number |
| Tagging.ItemRoundTrip | ss/src/main/jni/libevent/event_tagging.c:256-312 | any raw, string, 32-bit, 64-bit or timeval item unmarshals to itself, leaving exactly what follows |
| Tagging.SequenceRoundTrip | ss/src/main/jni/libevent/event_tagging.c:484-605 | so does any sequence of items, in order |
| Tagging.FixedRoundTrip | ss/src/main/jni/libevent/event_tagging.c:539-555 | a fixed-length payload comes back exactly when its length is the one asked for |
| Tagging.PeekIsConsumed | ss/src/main/jni/libevent/event_tagging.c:402-417 | for every buffer that consume accepts, the peeked length is what it drains if and only if the length fits an int, or the item ends the buffer and its size fits 32 bits |
| Tagging.PeekDiffers | ss/src/main/jni/libevent/event_tagging.c:454-462 | every item of 2^31 bytes or more, but for the largest length, with bytes behind it: consume drops those too, and peek says otherwise |
| Tagging.ConsumeItem | ss/src/main/jni/libevent/event_tagging.c:454-462 | consume drops exactly one item of any kind |

## Left out

- EvBufferMove.PrependBuffer: the destination's invariant is promised only under the condition above, because the code does not restore it otherwise.
- EvBuffer.Buffer.Prepend: the same for its own buffer, under its own condition.
- Pinned, dangling, multicast, sendfile and file-segment chunks, and reading from and writing to sockets.
- EvBufferReport.Reported: the counters of one buffer under add, prepend and drain; callbacks that change the buffer or the list while they are being called, and the lock that evbuffer_invoke_callbacks_ lets go while callbacks are deferred, are not modelled.
- Signal events in the event map, and the loop that repeats a signal's callback ncalls times.
- IoBase.EventBase.IoDel: a descriptor inside the map must have the event on its list; for one that has none the code follows a null pointer.
- EventDispatch.TimeoutProcess: adding a timeout and deleting one elsewhere act on the base's heap as a set; that the array does the same is MinHeap.TimerHeap.Push and Erase.
- min_heap_adjust_ and min_heap_pop_, which this build does not call.
- EventProcess.ProcessActive: what breaks the property is passed over or excluded, as said above: bare callbacks that are not harmless, event_base_loopcontinue during an internal callback, and a max_dispatch_callbacks of zero that holds for priority 0 too; waiting for another thread's callback, and waking the loop's thread, are not modelled.
- Times are in the normal form that timevals have; a duration with tv_usec above 999999 is normalised where the code does it.
- DnsResponse.FormatResponse: the bytes of a truncated response are not modelled; positions stay below 0x4000, as in the 1500-byte buffer of the code.
- DnsBase.EvdnsBase.TransactionIdPick: random draws are any stream in which every identity keeps coming up; where the code would draw for ever the method returns instead and says so.
- DnsBase.EvdnsBase.RequestTransmit: the timer that it sets is not modelled; a timeout may come at any time.
- DNS search lists, getaddrinfo, resolv.conf and hosts files, clearing nameservers, probes' timers and the disable_when_inactive events.
- Refunds that lift a limit above its maximum are excluded from the runs, as the refill then overshoots.
- RateLimit.Connection.GetRlimMax: that a suspended group also suspends the connection is its second result; the group's bits are in RateGroup.
- The evbuffers of event_tagging.c are byte sequences here; EvBuffer is the proof that this is what an evbuffer is.
- bufferevents themselves, OpenSSL, filters, IOCP, the other backends, HTTP and RPC.
- bufferevent_rate_limit_group_decrement_read and -write, which suspend or let go only when the limit changes sign.
- Other word sizes: size_t, ssize_t and chunk headers are those of a 64-bit build.
