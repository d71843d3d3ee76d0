# Verified model of the desktop client's hardest algorithms

A Dafny model of nine parts of a Telegram desktop client and of its tools, each proved against a simple reference.
State that the program updates in place is a class or an array here, and its methods are proved to do the steps of a
state machine; the theorems are about those steps, over all inputs, all reachable states or all runs.

- **Update packer.** `Fips180` is SHA-1 as FIPS 180-4 defines it; `PackerSha1` is the packer's hash over a byte buffer.
  `PackerFlatten` is the loop that flattens directories.
- **Allocation trace reader.** `TraceRecords` defines records, states and one pass over a file, `TraceFormat` their bytes;
  `TraceReader` is the reader with its 1 MiB buffer; `TraceLedger` is what its counters mean, and `TraceOutput` all that
  it prints.
- **Requests of the API object.** `MessageData` with `MessageDataRuns`, `MessageDataOrder` and `MessageDataRequests`;
  `Dialogs` with `DialogRuns`, `DialogReloads`, `DialogPages`, `DialogGuards` and `DialogLoader`; `WebPages` with
  `WebPageRequests`; `ForwardBatches`; and `StickerSave` with `StickerEffects`, `StickerReorder` and `StickerSets`. A
  request is a fresh positive id and a later answer or failure, in any order.
- **Playlist downloads.** `Playlist` is the scheduler with a bounded number of processes, `PlaylistEngine` its object.
- **Web view shell.** `FrameQueue` is the queue of events between the page and its frame, `FrameHistory` what its flags
  mean, `FrameShell` its object; `ButtonColor` is the ripple colour over the reals.
- **Mesh tools.** `MeshBytes` and `MeshReader` for the binary form, `MeshText`, `MeshObj` and `MeshForms` for the text
  form, `MeshLayout` for what is where in both, and `MeshTools` for both tools.
- **Search in deleted messages.** `LikeSearch`, with the LIKE predicate of section 8.5 of ISO/IEC 9075:1992.
- **Updater.** `UpdateTree` is the breadth-first scan on names, `UpdateOrder` its order, `UpdateScan` the same on
  paths, `UpdateTargets` where files go; `UpdateEffects` is what steps do to a disk, `UpdateInstall` the installation and
  `mkpath`.

`Basics` holds the few notions that several modules share. `dafny verify dfyconfig.toml` checks the project.

Where the code does less than its comments or callers expect, the model keeps the code and the theorem says exactly when
the expectation holds: hashing of large buffers, payments beyond the range of an int, folders that are loaded again, loads
stopped by an answer of no change, pages of failed requests, the offset of a page of dialogs, playlists without items or
without room, and meshes with incomplete groups.

## Model

| member | source | states |
|---|---|---|
| PackerSha1.HashSha1 | Telegram/SourceFiles/_other/packer.cpp:96-132 | For every buffer of fewer than 2^29 bytes the twenty bytes written are the SHA-1 digest of section 6.1.2 of FIPS 180-4; for longer ones they are the hash of the message padded with a length taken modulo 2^32 bits. |
| PackerSha1.PackerPadIsPad | Telegram/SourceFiles/_other/packer.cpp:111-123 | The tail with its single length word is the padding of section 5.1.1 exactly for messages of fewer than 2^29 bytes. |
| PackerSha1.BlockLoopEnds | Telegram/SourceFiles/_other/packer.cpp:99-101 | The guard of the block loop, whose sum wraps in 32 bits, becomes false exactly for lengths below 2^32 - 64; from there on the loop never ends. |
| PackerSha1.PartHash | Telegram/SourceFiles/_other/packer.cpp:60-92 | One call adds the 80 rounds of section 6.1.2 over the sixteen words in `temp` to the hash in place, although the schedule is extended inside the rounds. |
| PackerSha1.AllRounds | Telegram/SourceFiles/_other/packer.cpp:61-82 | The five loops leave in a..e what 80 rounds over the precomputed schedule give; every schedule word is written before it is read. |
| PackerSha1.Shift | Telegram/SourceFiles/_other/packer.cpp:56-58 | For every shift between 0 and 32 each bit moves up by the shift, and those shifted out come in again below: the circular left shift of section 3.2. |
| Fips180.FirstByteHighest | Telegram/SourceFiles/_other/packer.cpp:100-129 | Words are read and written with their highest byte first. |
| PackerSha1.HashWholeBlocks | Telegram/SourceFiles/_other/packer.cpp:100-109 | The loop hashes exactly the whole blocks and leaves fewer than 64 bytes. |
| PackerSha1.HashTailBlocks | Telegram/SourceFiles/_other/packer.cpp:111-123 | Both tail cases, below and from 56 bytes on, hash the rest with its one bit and its length word. |
| PackerSha1.LoadTail | Telegram/SourceFiles/_other/packer.cpp:111-117 | OR-ing bytes into zeroed words one at a time gives the words of the padded tail. |
| PackerSha1.WriteDigest | Telegram/SourceFiles/_other/packer.cpp:125-129 | Byte i of the result is byte i of the five words in big-endian order. |
| PackerSha1.HashTail | Telegram/SourceFiles/_other/packer.cpp:111-123 | Hashing the whole blocks and then the tail is hashing the padded message. |
| PackerFlatten.Flatten | Telegram/SourceFiles/_other/packer.cpp:211-234 | The restart loop ends for every finite forest, succeeds exactly when every regular file of the forest can be read, and then the list is, with multiplicity, the regular files that are not hidden, level by level. |
| PackerFlatten.Scan | Telegram/SourceFiles/_other/packer.cpp:213-233 | One run of the inner loop leaves the entries that are shown and readable files, and stops at the first other one: a directory goes, with its entries added at the end, a hidden file goes, and an unreadable file fails. |
| PackerFlatten.QueueIsShownFiles | Telegram/SourceFiles/_other/packer.cpp:217-231 | The order of the result holds each shown file of the forest as often as the forest does. |
| PackerFlatten.QueueIsLevels | Telegram/SourceFiles/_other/packer.cpp:217-231 | The order of the result is by levels: the shown files that were given, then those directly in the given directories, in their order, and so on. |
| TraceReader.Reader.Run | cmake/linux_allocation_tracer/linux_allocation_trace_reader.cpp:181-211 | For every file and every way `fread` cuts it, the map, the counters and everything printed are those of one pass over the whole file. |
| TraceReader.Reader.Turn | cmake/linux_allocation_tracer/linux_allocation_trace_reader.cpp:182-202 | Each turn asks for at least one byte, the leftover is the start of a single record, and what is left of the file still leads to the same end. |
| TraceReader.Reader.Parse | cmake/linux_allocation_tracer/linux_allocation_trace_reader.cpp:120-163 | A parse applies the whole records in front and returns where they end, or -1 behind the records before garbage. |
| TraceReader.Reader.Full | cmake/linux_allocation_tracer/linux_allocation_trace_reader.cpp:46-49 | The printed total is the sum of the live sizes modulo 2^64, in whatever order the map is visited. |
| TraceReader.Reader.Move | cmake/linux_allocation_tracer/linux_allocation_trace_reader.cpp:199-201 | The move puts the leftover bytes at the front of the buffer, overlapping or not. |
| TraceFormat.RecordsRead | cmake/linux_allocation_tracer/linux_allocation_trace_reader.cpp:69-163 | Records written one after another, each as its command, a time of 4 bytes and fields of 8, all with their low byte first, are decoded as they were, whatever comes behind them. |
| TraceFormat.FileIsWritten | cmake/linux_allocation_tracer/linux_allocation_trace_reader.cpp:120-163 | Every file is its decoded records, written one after another, and a rest that starts no whole record; it is garbage exactly when its first byte is no command. |
| TraceFormat.RecordWritten | cmake/linux_allocation_tracer/linux_allocation_trace_reader.cpp:69-118 | The bytes of one record are read as that record, with what comes behind them left. |
| TraceRecords.DecodeAppend | cmake/linux_allocation_tracer/linux_allocation_trace_reader.cpp:120-163 | Decoding may stop anywhere: more bytes only continue what was left. |
| TraceRecords.RunOverAppend | cmake/linux_allocation_tracer/linux_allocation_trace_reader.cpp:181-211 | The run over two pieces is the run over the second one, with what the first one left before it, from the state after the first one. |
| TraceReader.RestUnparsed | cmake/linux_allocation_tracer/linux_allocation_trace_reader.cpp:137-139 | What a parse without garbage leaves is shorter than the record it starts, so at most 28 bytes. |
| TraceLedger.Conservation | cmake/linux_allocation_tracer/linux_allocation_trace_reader.cpp:69-118 | For every sequence of records, live blocks, frees and repeated-entry warnings together make the mallocs and unknown reallocs, and every record is counted once. |
| TraceLedger.ConsistentTrace | cmake/linux_allocation_tracer/linux_allocation_trace_reader.cpp:69-118 | The reader reports nothing unknown and nothing repeated exactly for the traces of a consistent heap, and then its map is the live heap. |
| TraceLedger.PrintedTotals | cmake/linux_allocation_tracer/linux_allocation_trace_reader.cpp:41-67 | On a consistent trace each total printed on the way is the sum of the blocks live at that point, printed once for every record that moves the clock on. |
| TraceLedger.FileTotals | cmake/linux_allocation_tracer/linux_allocation_trace_reader.cpp:41-67 | For every file whose records are a consistent trace, whatever is left at its end, exactly those totals are printed, and a last one of the blocks that stay, unless the clock never moved. |
| TraceOutput.AllPrinted | cmake/linux_allocation_tracer/linux_allocation_trace_reader.cpp:41-211 | For every file, consistent or not, exactly the lines told from its records alone are printed, in order: the totals, records that come too late, repeated entries, the complaint about its end, the last total, and the counts. |
| TraceOutput.AllTold | cmake/linux_allocation_tracer/linux_allocation_trace_reader.cpp:41-118 | After any records the map holds, address by address, what a look at the records alone says, and each counter is the number of records of its kind. |
| MessageDataRuns.Reachable | Telegram/SourceFiles/apiwrap.cpp:628-759 | The invariant of the bookkeeping in every reachable state: tags and requests match, an untagged entry implies a queued resolve, no channel has an empty bucket (so the erase at 699-702 never happens). |
| MessageDataRuns.HeldOrCalledOnce | Telegram/SourceFiles/apiwrap.cpp:635-637 | In every interleaving a registered callback is either called, once, or held in exactly one entry, once. |
| MessageDataRuns.RequestIsItsEntries | Telegram/SourceFiles/apiwrap.cpp:691-696 | The ids of a request on its way are exactly the entries tagged with it. |
| MessageDataRuns.QuietMeansDone | Telegram/SourceFiles/apiwrap.cpp:628-759 | With no resolve queued and no request on its way nothing is left and every callback was called. |
| MessageData.ReplyCalls | Telegram/SourceFiles/apiwrap.cpp:736-758 | A reply or failure calls exactly the callbacks of the entries that wait for it, each once. |
| MessageDataOrder.CalledInOrder | Telegram/SourceFiles/apiwrap.cpp:736-758 | A reply calls its callbacks message by message in the order of the ids, and those of one message in the order in which they wait, behind all calls before. |
| MessageData.WaitingCall | Telegram/SourceFiles/apiwrap.cpp:628-641 | A new callback waits behind those that wait for its message already, and no other changes its place. |
| MessageDataRequests.DataRequests.RequestMessageData | Telegram/SourceFiles/apiwrap.cpp:628-641 | The method does the call step: it adds the entry and callback and queues a resolve for an entry without a request. |
| MessageDataRequests.DataRequests.ResolveMessageDatas | Telegram/SourceFiles/apiwrap.cpp:673-727 | The method does the resolve step, for any order of the channels. |
| MessageDataRequests.DataRequests.Send | Telegram/SourceFiles/apiwrap.cpp:703-724 | One request for all entries of a peer that have none, which are tagged with it. |
| MessageDataRequests.DataRequests.FinalizeMessageDataRequest | Telegram/SourceFiles/apiwrap.cpp:729-759 | The method does the reply step: it takes out the tagged entries and calls their callbacks in order. |
| MessageDataRequests.DataRequests.TakeTagged | Telegram/SourceFiles/apiwrap.cpp:736-752 | The loop splits off exactly the tagged entries and gathers their callbacks in the order of the ids. |
| DialogRuns.Reachable | Telegram/SourceFiles/apiwrap.cpp:903-1121 | The invariant of the load states in every reachable state. |
| DialogRuns.OneRequestOfAKind | Telegram/SourceFiles/apiwrap.cpp:910-935 | Of every list at most one page request and one request for pinned dialogs are on their way. |
| DialogRuns.AnswerFindsLoad | Telegram/SourceFiles/apiwrap.cpp:972-974 | A list request on its way has a load state that has not received the list, at the offset it was sent with, so the dereference in the failure handler is never of null. |
| DialogPages.PageAsked | Telegram/SourceFiles/apiwrap.cpp:920-935 | Every page request on its way asks at the offset that the last page of its list brought, or without one if none came since the load was made, which is the offset of its load; for 20 dialogs without a date, and else for 500. |
| DialogPages.LoadProgress | Telegram/SourceFiles/apiwrap.cpp:935-1109 | Every step moves a load to the offset a page brings, notes the end of its list and its pinned dialogs exactly when they come, and drops it exactly when both have come. |
| DialogPages.LoadStarts | Telegram/SourceFiles/apiwrap.cpp:903-908 | A list without a load gets one exactly when its folder is asked for, and that starts without an offset. |
| DialogGuards.PinnedOnTheWay | Telegram/SourceFiles/apiwrap.cpp:976-978 | A list whose pages have been asked for has its pinned dialogs, or a request for them is on its way. |
| DialogGuards.BlockedOnlyWhenOld | Telegram/SourceFiles/apiwrap.cpp:984-994 | Loading is blocked only while the next page of the main list is not newer than the date to load to, and a new date blocks it exactly then. |
| DialogGuards.BlockedAfterPage | Telegram/SourceFiles/apiwrap.cpp:966-970 | After the handler of a page of the main list loading is blocked exactly when the next page is not newer than that date. |
| DialogGuards.RequestLeavesBlock | Telegram/SourceFiles/apiwrap.cpp:903-982 | A request for a list, whether it sends or not, never blocks or unblocks loading. |
| DialogReloads.RequestAfterList | Telegram/SourceFiles/apiwrap.cpp:903-946 | Once a list is received, with its load still there or dropped in that step or later, a request for a page of it is sent later exactly when the list is a folder that is asked for without a load, and then or later while loading is not blocked; the main list is never asked for again. |
| DialogReloads.IfNeededSends | Telegram/SourceFiles/apiwrap.cpp:996-1014 | Which list is asked for when more is needed: none while exceptions load, the main one until it is received, and then a needed archive; unless loading is blocked or the list has a request. |
| DialogReloads.FolderLoadedAgain | Telegram/SourceFiles/apiwrap.cpp:903-908 | A folder with all its dialogs loaded and announced is loaded again from the start when it is asked for once more, as `Telegram/SourceFiles/data/data_folder.cpp` lines 360-362 do for every small folder. |
| DialogReloads.GetsStuck | Telegram/SourceFiles/apiwrap.cpp:935-946 | A load keeps the id of a request that is over exactly by an answer that its list is not modified. |
| DialogReloads.StuckForever | Telegram/SourceFiles/apiwrap.cpp:910-946 | Such a load stays as it is however the run goes on, and its list is never asked for again. |
| DialogReloads.MainGetsStuck | Telegram/SourceFiles/apiwrap.cpp:910-946 | One such answer to the first request for the main list is enough. |
| DialogRuns.ListDoneIsRun | Telegram/SourceFiles/apiwrap.cpp:935-971 | The handler of a page is a run of these steps, so what holds in every run holds around it: the answer, a request for each folder applied, a look at the block for the main list, and the request for more. |
| DialogRuns.PinnedAppliedIsRun | Telegram/SourceFiles/apiwrap.cpp:1103-1118 | The handler of pinned dialogs is the answer and a request for each folder applied. |
| DialogRuns.AnnouncedOnce | Telegram/SourceFiles/apiwrap.cpp:1071-1088 | The done notification of a load state comes exactly once, when the list and the pinned dialogs have both arrived, and after them. |
| DialogRuns.MainOnce | Telegram/SourceFiles/apiwrap.cpp:1085-1087 | The main list is announced at most once, and its load state is gone from then on. |
| DialogLoader.Loader.RequestDialogs | Telegram/SourceFiles/apiwrap.cpp:903-908 | The method does the request step. |
| DialogLoader.Loader.RequestMoreDialogs | Telegram/SourceFiles/apiwrap.cpp:910-982 | The method sends a page request with its size and offset only without one on its way and not blocked by date, and the pinned request with it. |
| DialogLoader.Loader.RequestPinnedDialogs | Telegram/SourceFiles/apiwrap.cpp:1090-1121 | The method sends at most one pinned request for each load. |
| DialogLoader.Loader.DialogsDone | Telegram/SourceFiles/apiwrap.cpp:935-971 | The handler of a page: it closes the request, finds the next offset among the dialogs and messages of a slice, sends the requests of the folders applied, refreshes the block and asks for more. |
| DialogLoader.Loader.PinnedDialogsDone | Telegram/SourceFiles/apiwrap.cpp:1103-1118 | The handler of pinned dialogs, with the requests of the folders applied. |
| DialogLoader.Loader.DialogsLoadFinish | Telegram/SourceFiles/apiwrap.cpp:1071-1088 | A load with both parts is dropped and announced. |
| DialogLoader.FindOffset | Telegram/SourceFiles/apiwrap.cpp:1020-1049 | The scan from the last dialog back gives the offset of the next page. |
| DialogLoader.OffsetNames | Telegram/SourceFiles/apiwrap.cpp:1020-1049 | There is an offset exactly when some dialog with a peer and a message has a date; it names the last dialog with a peer and a message. |
| DialogLoader.TopDateIs | Telegram/SourceFiles/apiwrap.cpp:1034-1042 | The date of a dialog is that of the last listed message with its id and peer. |
| DialogLoader.OffsetOfOneDialog | Telegram/SourceFiles/apiwrap.cpp:1023-1049 | The date of the offset is that of a known dialog behind which none has a date; it is the date of the offset's own message exactly when that message is listed with one. |
| DialogLoader.OffsetOfTwoDialogs | Telegram/SourceFiles/apiwrap.cpp:1023-1049 | Two dialogs and one message give an offset with the second dialog's message and the first one's date. |
| WebPages.RunKeeps | Telegram/SourceFiles/apiwrap.cpp:2419-2518 | In every state of a run no page holds a negative placeholder: its request id is zero or that of a request that was sent. |
| WebPageRequests.PageRequests.ResolveWebPages | Telegram/SourceFiles/apiwrap.cpp:2442-2518 | Every page that was not asked for, whose time has come and that a message shows, ends with the id of a new request that went to the channel of the message, or nowhere in particular, and asks for it, once for each page; no other page changes; the timer is set for the next page due, a day at most. |
| WebPageRequests.PageRequests.RequestWebPageDelayed | Telegram/SourceFiles/apiwrap.cpp:2419-2428 | A page that waits and has not failed joins the pages to ask for, unless it is one of them. |
| WebPageRequests.PageRequests.GotWebPages | Telegram/SourceFiles/apiwrap.cpp:2768-2786 | The answer to a request takes out exactly its pages, keeps the ids of the others, and fails the pages that wait and that it did not resolve. |
| WebPages.AskedStays | Telegram/SourceFiles/apiwrap.cpp:2419-2518 | A page that was asked for leaves the map, or changes its request, only by the answer to that request or by a clear. |
| WebPages.FailedRequestStrands | Telegram/SourceFiles/apiwrap.cpp:2483-2500 | These requests have no failure handler: a page of a failed request keeps its dead request id through every later resolve until it is cleared. |
| WebPages.StrandedPage | Telegram/SourceFiles/apiwrap.cpp:2419-2500 | Such a run from the initial state: request, resolve, failure, and a later resolve that asks for nothing although the page is due. |
| WebPageRequests.PageRequests.SendChannels | Telegram/SourceFiles/apiwrap.cpp:2491-2501 | One request for each channel, with its id in the slot of the channel's index. |
| WebPageRequests.PageRequests.Replace | Telegram/SourceFiles/apiwrap.cpp:2502-2514 | Every placeholder is replaced by the id of the request it stands for. |
| ForwardBatches.BatchesCoverItems | Telegram/SourceFiles/apiwrap.cpp:3892-3930 | The requests, one after another, hold the messages in order with their source peers. |
| ForwardBatches.BatchesCoverRandomIds | Telegram/SourceFiles/apiwrap.cpp:3927-3930 | The requests, one after another, hold the random ids in order. |
| ForwardBatches.BatchesAreRuns | Telegram/SourceFiles/apiwrap.cpp:3922-3928 | Every request has messages, as many random ids as messages, and another source peer than the next one. |
| ForwardBatches.StarsPaid | Telegram/SourceFiles/apiwrap.cpp:3803-3809 | However the messages are split, the stars paid are the lesser of those approved and the price of all messages, for every approved amount, exactly when the price of every request fits an int. |
| ForwardBatches.StarsPaidOfInt | Telegram/SourceFiles/apiwrap.cpp:3803-3809 | For approved amounts that an int holds it is also enough that the charges of the requests together reach the largest int and no tail of them is negative. |
| ForwardBatches.EachPays | Telegram/SourceFiles/apiwrap.cpp:3803-3809 | While these prices fit, no request pays less than nothing or more than was approved. |
| ForwardBatches.EachPaysItsPart | Telegram/SourceFiles/apiwrap.cpp:3803-3809 | Each request pays the price of its own messages, cut to an int, as far as what the requests before it left of the approved amount goes. |
| ForwardBatches.ToIntIs | Telegram/SourceFiles/apiwrap.cpp:3803-3809 | The cast to int keeps a number modulo 2^32, in the range of an int. |
| ForwardBatches.PaidIsMinimum | Telegram/SourceFiles/apiwrap.cpp:3803-3805 | One request pays that minimum for every approved amount exactly when its price fits an int or is cut to the largest one. |
| ForwardBatches.NegativePayment | Telegram/SourceFiles/apiwrap.cpp:3803-3809 | A payment is negative exactly when its price, cut to an int, is, and then more is left than was approved. |
| ForwardBatches.WrongPayments | Telegram/SourceFiles/apiwrap.cpp:3803-3809 | Two prices beyond an int, one paid with a negative amount and one with less than was due. |
| ForwardBatches.CallbackAfterAll | Telegram/SourceFiles/apiwrap.cpp:3861-3864 | With every request sent before the first answer, the success callback runs once exactly if every request succeeds, and else never. |
| ForwardBatches.Forwarding.ForwardMessages | Telegram/SourceFiles/apiwrap.cpp:3700-3714 | Saved music is taken out, the rest is sent in the batches, paid and remaining stars add up to those approved, and with nothing to send the callback runs at once. |
| ForwardBatches.NotMusicIs | Telegram/SourceFiles/apiwrap.cpp:3700-3714 | What is sent is every message that is not saved music, as often as it is there and in the same order. |
| ForwardBatches.Forwarding.SendAll | Telegram/SourceFiles/apiwrap.cpp:3892-3930 | The loop over the messages sends exactly the batches. |
| ForwardBatches.Forwarding.SendAccumulated | Telegram/SourceFiles/apiwrap.cpp:3798-3890 | One request with all that has accumulated, which is empty afterwards. |
| ForwardBatches.Forwarding.Answer | Telegram/SourceFiles/apiwrap.cpp:3861-3885 | A success counts down and the last one runs the callback; a failure does neither. |
| StickerSave.SavedOrder | Telegram/SourceFiles/apiwrap.cpp:1750-1784 | The new order is the given one without the sets that are gone, and each set in it exists and is installed. |
| StickerSave.SavedSets | Telegram/SourceFiles/apiwrap.cpp:1737-1798 | Every installed set of the type that is not archived is in the order, and every set left has a reason to be kept; no disjointness of removed and ordered ids is needed. |
| StickerSave.SavedSet | Telegram/SourceFiles/apiwrap.cpp:1655-1798 | For each id, the two cloud-recent ones and the custom set included: whether its set is left, with which flags and install date, and which requests were sent for it; removing any cloud-recent id wipes all three. |
| StickerEffects.SavedFields | Telegram/SourceFiles/apiwrap.cpp:1655-1798 | Field by field, which flags and which install date a set ends with, and exactly when it stays; a date is kept by an ordered set that has one, and the stickers and the other flags never change. |
| StickerEffects.OtherTypesStay | Telegram/SourceFiles/apiwrap.cpp:1738-1748 | A set of another type that is neither ordered nor removed, and has a reason to be kept, stays exactly as it was. |
| StickerEffects.SavedRecents | Telegram/SourceFiles/apiwrap.cpp:1656-1701 | The recent stickers are those from before, in their order, without the stickers of removed sets; none if a cloud-recent set is removed. |
| StickerEffects.SavedRequests | Telegram/SourceFiles/apiwrap.cpp:1655-1784 | How many requests are sent for a set: one to install it if it comes out of the archive, and one to uninstall it for each time it is removed while it is there. |
| StickerEffects.OrderIsFiltered | Telegram/SourceFiles/apiwrap.cpp:1750-1784 | The new order is the given one, filtered to the sets that are left. |
| StickerSave.OrdinaryRemoval | Telegram/SourceFiles/apiwrap.cpp:1656-1689 | No set is wiped, and every removed id counts as removed, for all other ids, and for these three while no cloud-recent id is removed. |
| StickerSave.SavedArchived | Telegram/SourceFiles/apiwrap.cpp:1757-1778 | An ordered set ends archived exactly when it was archived and is among the removed ones too. |
| StickerSave.SavedRecent | Telegram/SourceFiles/apiwrap.cpp:1691-1701 | No sticker of a removed known set stays among the recent ones. |
| StickerSets.SetsStorage.SaveStickerSets | Telegram/SourceFiles/apiwrap.cpp:1579-1837 | The method changes sets, order and recent stickers as specified, touches one type only, and starts that type's save protocol with one request for each set it changes. |
| StickerSets.SetsStorage.RemoveSet | Telegram/SourceFiles/apiwrap.cpp:1655-1735 | One turn of the loop over the removed ids. |
| StickerSets.SetsStorage.ClearAllInstalled | Telegram/SourceFiles/apiwrap.cpp:1738-1748 | The installed flag goes from every set of the type that is not archived, and from no other. |
| StickerSets.SetsStorage.PlaceSet | Telegram/SourceFiles/apiwrap.cpp:1751-1784 | One turn of the loop over the ordered ids. |
| StickerSets.SetsStorage.Sweep | Telegram/SourceFiles/apiwrap.cpp:1786-1798 | Exactly the sets with a reason to be kept stay. |
| StickerReorder.OrderAfterAnswers | Telegram/SourceFiles/apiwrap.cpp:1622-1632 | In every run the order of a save is sent at most once, for two ids at least, and only when each of its set requests is answered. |
| StickerReorder.OrderOfLastSave | Telegram/SourceFiles/apiwrap.cpp:1586-1632 | The order of the last save has been sent exactly when its requests are all answered and it has two ids at least. |
| StickerReorder.NoOrderOfOldSave | Telegram/SourceFiles/apiwrap.cpp:1579-1582 | The order of a superseded save is not sent any more. |
| Playlist.UncancelledRun | Telegram/SourceFiles/alex/video_downloader_engine.cpp:643-692 | Between the events of an uncancelled run the active count is the number of live processes and the greatest that the bound and the work left allow; items start once and in order; the end is announced with the number of zero exit codes exactly when every item has finished, once and last. |
| Playlist.RunEnds | Telegram/SourceFiles/alex/video_downloader_engine.cpp:679-686 | No process is alive exactly when every item was started and the end was announced. |
| Playlist.EndIsReachable | Telegram/SourceFiles/alex/video_downloader_engine.cpp:669-692 | The end is announced in some run exactly when there is an item and room for a process; without either every uncancelled run is empty, with no event, no process and the download still marked as running. |
| Playlist.CancelledRun | Telegram/SourceFiles/alex/video_downloader_engine.cpp:98-116 | After a cancel nothing starts and the end is not announced, however late the processes end. |
| Playlist.CancelLeaves | Telegram/SourceFiles/alex/video_downloader_engine.cpp:98-116 | A cancel leaves alive only the processes that did not die in time, forgets them, and ends the download. |
| Playlist.FinishedKeeps | Telegram/SourceFiles/alex/video_downloader_engine.cpp:788-822 | A finished process, whatever its code, keeps the invariant of the run. |
| PlaylistEngine.Engine.StartPlaylistDownload | Telegram/SourceFiles/alex/video_downloader_engine.cpp:643-673 | The method starts the first items, as many as the bound and the list allow. |
| PlaylistEngine.Engine.ProcessNextPlaylistItem | Telegram/SourceFiles/alex/video_downloader_engine.cpp:675-692 | The method starts the next item, or announces the end when nothing is active. |
| PlaylistEngine.Engine.OnFinished | Telegram/SourceFiles/alex/video_downloader_engine.cpp:788-822 | The handler of a finished process. |
| PlaylistEngine.Engine.CancelPlaylistDownload | Telegram/SourceFiles/alex/video_downloader_engine.cpp:98-116 | The method cancels the run while any of the killed processes end. |
| FrameQueue.Reachable | Telegram/Resources/bot_webview_shell_html/page.js:144-158 | In every reachable state what waits is for the frame shown, there are at most 64 events of it, none wait for a loaded frame, and none while the reload timer is set. |
| FrameQueue.SentIsExpected | Telegram/Resources/bot_webview_shell_html/page.js:144-213 | Every frame receives, in posting order, exactly the events posted while it was loaded and those that waited for it and arrive. |
| FrameQueue.ArrivesIff | Telegram/Resources/bot_webview_shell_html/page.js:144-213 | A waiting event arrives exactly when its frame loads before it is replaced, with fewer than 64 events posted in between. |
| FrameQueue.ReplacedFramesAreMute | Telegram/Resources/bot_webview_shell_html/page.js:947-954 | Load events and messages of replaced frames can be struck out of a run without changing its result. |
| FrameHistory.FlagsOfFrame | Telegram/Resources/bot_webview_shell_html/page.js:850-873 | The frame shown counts as loaded exactly when it has loaded and not announced to reload itself since, and as able to reload itself exactly when its last greeting said so. |
| FrameHistory.FramesAndTimer | Telegram/Resources/bot_webview_shell_html/page.js:936-985 | A new frame is made by a bootstrap, when the timer runs out, and by a reload of a frame that is not loaded or cannot reload itself; any other reload sets the timer, until the frame announces its own or is replaced. |
| FrameQueue.FlushSendsAll | Telegram/Resources/bot_webview_shell_html/page.js:206-213 | A flush sends every waiting event in order; its comparison of generations never drops one. |
| FrameShell.Shell.PostToFrame | Telegram/Resources/bot_webview_shell_html/page.js:144-158 | The method queues an event for a frame that is not loaded, keeping the youngest 64, or sends it. |
| FrameShell.Shell.FlushPendingEvents | Telegram/Resources/bot_webview_shell_html/page.js:206-213 | The method empties the queue and sends its events in order. |
| FrameShell.Shell.CreateIframe | Telegram/Resources/bot_webview_shell_html/page.js:936-963 | The method replaces the frame, drops what waits and the timer, and starts a new generation. |
| FrameShell.Shell.OnLoad | Telegram/Resources/bot_webview_shell_html/page.js:947-954 | The load listener of a frame. |
| FrameShell.Shell.OnMessage | Telegram/Resources/bot_webview_shell_html/page.js:850-873 | The ready and will-reload messages of the frame shown. |
| FrameShell.Shell.ReloadFrame | Telegram/Resources/bot_webview_shell_html/page.js:969-985 | A frame that can is asked to reload itself under a timer; another one is replaced. |
| ButtonColor.ShiftedScales | Telegram/Resources/bot_webview_shell_html/page.js:352-398 | Through hue, saturation and sector every channel keeps its proportion to the largest one, which becomes the next value; black gives the grey 32. |
| ButtonColor.ScaledRange | Telegram/Resources/bot_webview_shell_html/page.js:367-369 | The clamp of the next value never acts, and no channel leaves 0..223. |
| ButtonColor.RippleScales | Telegram/Resources/bot_webview_shell_html/page.js:345-399 | A result exists exactly for `#` and six hexadecimal digits, is such a colour itself, and each of its channels is the rounded proportional one. |
| ButtonColor.HexByteValue | Telegram/Resources/bot_webview_shell_html/page.js:338-343 | A byte is written as exactly two digits that read back as the rounded and clamped value. |
| ButtonColor.HexDigits | Telegram/Resources/bot_webview_shell_html/page.js:338-345 | Digits are read in both cases and written in lower case. |
| ButtonColor.ChannelDigits | Telegram/Resources/bot_webview_shell_html/page.js:345-352 | Each channel is two digits, the higher one first. |
| ButtonColor.RoundIsNearest | Telegram/Resources/bot_webview_shell_html/page.js:338-341 | Rounding takes the nearest integer, the greater one of two. |
| ButtonColor.HueIsPosition | Telegram/Resources/bot_webview_shell_html/page.js:352-365 | The hue is sixty times a position on the wheel that arranges the channels and gives the middle one its share. |
| MeshBytes.UnpackedIsLayout | Telegram/cmake/binobj2obj.py:34-55 | A file unpacks to a mesh exactly when it is the big-endian layout of that mesh. |
| MeshLayout.LayoutIs | Telegram/cmake/binobj2obj.py:34-55 | The layout, byte by byte: four counted lists, of positions, texture coordinates, normals and corners, each number in four bytes with the highest first, and negative ones as 32 bits. |
| MeshObj.RoundTrip | Telegram/cmake/binobj2obj.py:31-82 | Decoding a file and encoding the text gives the layout of its full groups, and so the same bytes exactly when the counts are divisible by 3, 2, 3 and 3. |
| MeshObj.EncodedRoundTrip | Telegram/cmake/obj2binobj.py:30-71 | Whatever text the encoder accepts, its file decodes and the decoded text encodes to the same bytes. |
| MeshLayout.LinesAre | Telegram/cmake/binobj2obj.py:57-82 | The text, line by line: two comments, then the positions, texture coordinates, normals and triangles, three or two numbers a line, and indices counted from one. |
| MeshObj.VertexParsed | Telegram/cmake/obj2binobj.py:49-55 | The vertex of a face is read back from its text, absent indices, stored as -1 and written as 0, among them. |
| MeshForms.VertexForms | Telegram/cmake/obj2binobj.py:49-55 | The four forms of a vertex; a field that is missing or empty stands for no index, -1. |
| MeshForms.NumberLine | Telegram/cmake/obj2binobj.py:40-46 | The first numbers of a `v`, `vt` or `vn` line go behind those of its list and leave the other lists; the line fails when one is missing or no number. |
| MeshForms.OtherLine | Telegram/cmake/obj2binobj.py:37-40 | Comments, empty lines and lines with another tag change nothing. |
| MeshForms.SignedText | Telegram/cmake/obj2binobj.py:51-53 | A number may have a sign of either kind; an empty text is none. |
| MeshForms.SplitIs | Telegram/cmake/obj2binobj.py:37 | Spaces keep words apart, however many there are, and a text without spaces is one word. |
| MeshObj.GroupParsed | Telegram/cmake/obj2binobj.py:36-46 | The lines of a section are read back as its full groups. |
| MeshObj.FacesParsed | Telegram/cmake/obj2binobj.py:47-58 | The face lines are read back as the full triangles. |
| MeshText.DecimalParsed | Telegram/cmake/obj2binobj.py:52-54 | An integer is read back from its decimal text, whatever its sign. |
| MeshText.JoinedSplit | Telegram/cmake/obj2binobj.py:37 | Words joined by single spaces are split into themselves. |
| MeshText.UnlinesSplit | Telegram/cmake/obj2binobj.py:36 | Lines written one after another are read back one by one. |
| MeshTools.FanTriangles | Telegram/cmake/obj2binobj.py:56-58 | A face of n corners becomes n - 2 triangles, the i-th with the first, the i-th and the next corner. |
| MeshTools.DecodeFile | Telegram/cmake/binobj2obj.py:25-82 | The decoder, step by step, with its two failures. |
| MeshTools.EncodeFile | Telegram/cmake/obj2binobj.py:25-71 | The encoder, step by step; it fails for lines it cannot read and numbers that do not fit. |
| MeshReader.ReadMesh | Telegram/cmake/binobj2obj.py:34-55 | The reads with a moving offset unpack the file, or fail where a read passes its end or the offset does not end there. |
| MeshReader.Reader.NextCorners | Telegram/cmake/binobj2obj.py:49-52 | Corners are read twelve bytes apart; a negative count reads none and moves the offset back. |
| LikeSearch.PatternFinds | Telegram/SourceFiles/alex/alex_database.cpp:243-259 | The pattern with its escapes accepts exactly the texts that contain the query, up to the case of ASCII letters. |
| LikeSearch.EscapedMatchesItself | Telegram/SourceFiles/alex/alex_database.cpp:243-251 | An escaped query followed by any pattern matches the texts that start with the query and go on with that pattern. |
| LikeSearch.EscapesNeeded | Telegram/SourceFiles/alex/alex_database.cpp:245-251 | Without the escapes the pattern would find the right texts exactly for the queries without special characters. |
| LikeSearch.EmptyQueryBranch | Telegram/SourceFiles/alex/alex_database.cpp:229-241 | The branch for the empty query selects the rows that the pattern would. |
| LikeSearch.Escape | Telegram/SourceFiles/alex/alex_database.cpp:243-250 | The loop escapes every special character and nothing else. |
| LikeSearch.GetDeletedMessages | Telegram/SourceFiles/alex/alex_database.cpp:227-267 | Both branches answer by descending message id and up to the limit; without a limit, or below it, with exactly the rows of the user, in the dialog, the topic and between the ids that are not zero, whose text has the query in it. |
| LikeSearch.FoundExactly | Telegram/SourceFiles/alex/alex_database.cpp:229-263 | Each row that is wanted is found as often as the table has it, and no other row. |
| LikeSearch.AnswerIsTop | Telegram/SourceFiles/alex/alex_database.cpp:239-240 | Such an answer is as long as the limit and the rows allow, and no row left out has a greater message id than a row in it. |
| LikeSearch.AnswersAgree | Telegram/SourceFiles/alex/alex_database.cpp:239-240 | The rows determine the message ids of the answer and their order; only rows of the same message id may change places. |
| UpdateTree.PlanIsTree | Telegram/SourceFiles/_other/updater_linux.cpp:232-290 | For every finite tree the scan ends; it plans exactly when every directory outside the data directory opens and no file there is the updater; then it copies every file outside the data directory but the ready file, and forces every directory there. |
| UpdateTree.PlanIsOrdered | Telegram/SourceFiles/_other/updater_linux.cpp:237-290 | Every forced directory comes after its parent, and the directory of every copied file is forced. |
| UpdateOrder.PlanIsLevels | Telegram/SourceFiles/_other/updater_linux.cpp:232-290 | Files and directories are planned level by level, those of each directory in the order of its listing. |
| UpdateScan.ScanUpdate | Telegram/SourceFiles/_other/updater_linux.cpp:219-290 | The loops over paths, prefixes and substrings compute that plan: each `to` is the install path with the relative path, or with the name of the binary. |
| UpdateScan.ListEntry | Telegram/SourceFiles/_other/updater_linux.cpp:254-288 | The decision for one directory entry. |
| UpdateScan.EntryPath | Telegram/SourceFiles/_other/updater_linux.cpp:258-283 | The path of an entry, and the prefix test for the data directory and the comparison with the ready file on it, say what the names say. |
| UpdateTargets.TargetIs | Telegram/SourceFiles/_other/updater_linux.cpp:206-276 | Every file goes to its path below the install path, but the binary, in whatever case, to the name that it has now; the updater is the file that would go to the path of the updater that runs, in whatever case. |
| UpdateTargets.PathIsNames | Telegram/SourceFiles/_other/updater_linux.cpp:258-276 | Paths are names put together with slashes. |
| UpdateTargets.TopPath | Telegram/SourceFiles/_other/updater_linux.cpp:219-230 | The update is in `tupdates/temp` of the working directory if that has a ready file, and else in `tupdates/ready`. |
| UpdateInstall.RunUpdate | Telegram/SourceFiles/_other/updater_linux.cpp:216-346 | An update that cannot be opened changes nothing; one with the updater in it is dropped and nothing is written; a good one is carried out, each forced directory by the `mkdir` calls of `mkpath`, up to its first failure and dropped afterwards. Each call has an outcome of its own, also when the same directory is made again. When all work, each target holds the last file planned for it, unless a later target is a directory it was in, and no other path has changed. |
| UpdateEffects.CopyStepAt | Telegram/SourceFiles/_other/updater_linux.cpp:303-341 | For each planned file its target is cleared and then written, file after file. |
| UpdateEffects.CopiesInstall | Telegram/SourceFiles/_other/updater_linux.cpp:303-341 | What these steps leave on a disk, path by path. |
| UpdateInstall.TakenIs | Telegram/SourceFiles/_other/updater_linux.cpp:292-341 | The outcomes of the steps determine which are taken, and the job succeeds exactly when all of them work. |
| UpdateInstall.ParentsAreForced | Telegram/SourceFiles/_other/updater_linux.cpp:292-341 | The directories are forced one after another, each after the `mkdir` of the directory it is in, and files are only copied after that of theirs. |
| UpdateInstall.ForceDir | Telegram/SourceFiles/_other/updater_linux.cpp:292-300 | Forcing one directory takes its part of the plan, up to the first `mkdir` that fails. |
| UpdateInstall.PathStepsAre | Telegram/SourceFiles/_other/updater_linux.cpp:175-195 | Forcing a directory makes it last, after exactly the directories that its path names up to a slash behind a name. |
| UpdateInstall.MakePath | Telegram/SourceFiles/_other/updater_linux.cpp:175-195 | The buffer that is cut and mended at each slash makes exactly the parents and the path, up to the first failure. |
| UpdateInstall.ParentsAreParts | Telegram/SourceFiles/_other/updater_linux.cpp:181-192 | The directories made on the way are exactly the prefixes that end at a slash that is neither first nor behind another slash. |
| UpdateInstall.ParentsInOrder | Telegram/SourceFiles/_other/updater_linux.cpp:181-192 | They are made from the shortest to the longest, each a part of the next. |

## Left out

- PackerSha1.HashSha1: buffers from 2^32 - 64 bytes on are excluded, because the block loop does not end for them (PackerSha1.BlockLoopEnds).
- RSA signatures, LZMA, QDataStream and the arguments of the packer: library calls. The path prefix check behind the flattening is a one-branch fact.
- PackerFlatten.Flatten: a directory's entries are what its listing returns; sorting and filters of the listing are not part of this model.
- The reader of traces: the host is little-endian, counters are unbounded, and the formatting of times and digits is not part of this model; `Snapshots` is never used by the program.
- MessageData: message ids are natural numbers, and a callback that calls back into the object is a later step of the run.
- Dialogs: `requestContacts`, shortcuts, the copy of the blocking flag for the user interface, and what an answer brings into the chat lists, of which the handlers only take the small folders as a parameter.
- WebPages: the timer started or cancelled by `requestWebPageDelayed` and `clearWebPageRequest`; the timer of a resolve is modelled.
- ForwardBatches: client-side messages and their local ids, flags, the sending of saved music itself, re-uploads for restricted peers. Answers come after all requests are sent.
- ForwardBatches.Forwarding.SendAccumulated: the amount left is an unbounded integer; after a negative payment the program's int may overflow.
- StickerSave: writing to local storage and the requests that clear recent stickers.
- Albums, links, stories and the other parts of `apiwrap.cpp`: wrappers around single requests.
- Playlist: processes, arguments, parsed output and thumbnails; no process of an earlier run is alive when one starts, each process ends once, and a cancel kills a snapshot of the live processes.
- FrameQueue: markup, menus, buttons and tokens; the window of an attached frame exists, and its origin is acceptable.
- ButtonColor.ShiftedScales: over the reals, so the rounding errors of binary floating point are not modelled.
- The mesh tools: the text of a float is an abstract function with an abstract parser, assumed inverse for the floats that are written; text files are ASCII, and underscores in integers are not accepted.
- MeshObj.Encode: a failure says nothing about the part of the file that was written before it.
- MeshObj.RoundTrip: for counts that are not divisible the text drops the numbers of the last group, although `Telegram/cmake/binobj2obj.py` line 15 claims identical bytes; the theorem says exactly when they are.
- LikeSearch.GetDeletedMessages: texts with null characters and errors of the database, which give an empty answer; which of several rows with one message id comes first is left open.
- Storage, transactions, statistics and the other queries of the database.
- UpdateInstall.RunUpdate: the content and the owner of files (a file is known by where it was copied from), tries to copy again, and how targets are cleared; each step works or fails as a whole. The file system does not change during a scan and has no cycles of links, and lower case is that of ASCII.
- UpdateScan.ScanUpdate: the queue holds each path with the directory it names, in place of looking the path up; names in a directory are not empty and have no slash; they and the install path have no null character.
- Windows, widgets, tray, logs, crash reports, build scripts and the remaining API files.
