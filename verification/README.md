# Verified model of a client/server music player

This project models the parts of the player in which its pieces must agree with
one another, and proves that they do, or exactly when they do:

- **Playlist replication** (`Playlist`, `CurrentIndex`, `Replication`, `ClientEdits`,
  `OvertakingReply`, `ClientHandlers`, `ServerHandlers`). The server owns the list, queues an event
  for every edit in each client's packet queue, and answers requests past those
  queues; clients replay the events. The protocol is a state machine over every
  interleaving of server, clients and channels; the handlers of both sides are
  classes proved against its steps.
- **The socket** (`Bytes`, `Codec`, `Messages`, `WireEvents`, `Framing`, `Socket`).
  Values, messages and streams of messages as bytes, nested buffer guards, packets,
  and what the other end reads; the events and commands of the replication as
  messages.
- **The output path** (`FifoBuf`, `OutBuf`, `PutAndPlay`). A ring buffer, and above
  it a reader thread, writers, and callers of stop, pause, reset and wait, with one
  mutex and two condition variables. A critical section is one step; the theorems
  are about all interleavings, from the bytes put to the bytes played.
- **The play scheduler** (`Scheduler`, `ShuffleDraws`, `ServerPlaylist`, `PlayThread`,
  `ListOrder`). Shuffle orders and the draws behind them, next, prev and the repeat
  modes, and whole runs of the play thread.
- **The ratings file** (`RatingsSpec`, `Ratings`, `RatingsFile`). A scanner that
  reads in chunks, and updates in place, against a file of lines.
- **The tag service** (`TagsCache`, `TagTable`, `CacheRecord`). The round-robin
  reader thread, the client's counted table of tags with its pending changes, and
  the records of the database.
- **Transformers** (`AudioConversion`, `FlacPack`, `AacScanner`, `BitrateList`,
  `PathOrder`). PCM conversion, FLAC interleaving, the ADTS frame scan (header of
  Annex 1.A of ISO/IEC 14496-3), the pruned bitrate timeline, and the order of the
  items in a list.

Code that changes things step by step is a class or a method with loops, proved
against functions on values; the theorems are about those functions and about
runs of them. Files, sockets and the reads of a decoder are byte sequences read
in pieces of any size. Random draws are parameters in range. Exceptions are the
failure case of a result.

Where the code and its comments or evident intention differ, the model follows
the code and a lemma says when it matters:

- a list reply can overtake queued events (`OvertakingReply.OvertakenEvents`);
- the index reported by the removal of files counts the items that stay instead
  of those that go (`Playlist.ReportedIndexIsRightIff`);
- `find_rating` keeps bytes in a signed `char`, so every byte from 0x80 on reads
  as the end of the file, or as no trailing garbage (`RatingsSpec.ScanAgreesIff`);
- the position it reports misses every chunk that a block of bytes runs into, the
  rest of a name or of a line (`Ratings.NoLagIff`), and ratings are then written or
  removed in the wrong place (`RatingsFile.WritesInPlaceIff`, `RemovesInPlaceIff`);
- a rating appended behind an unfinished line is not found, but for an accident of
  bytes from 0x80 on (`RatingsFile.WriteTakesEffectIff`);
- the line of a name is also taken for one of any name that it continues with such
  a byte, as "a" is continued in "aé", so that writing or removing one rating can
  change another (`RatingsFile.NamesGetConfused`, `WriteKeepsOthersIff`,
  `RemoveKeepsOthersIff`);
- the index that a client adjusts is past the end after a deletion of the current
  item with everything behind it, and what is appended next becomes current
  (`CurrentIndex.IndexFollowsItem`, `CutOffLosesMark`);
- the only valid song is not repeated under shuffle
  (`Scheduler.LoneSongIsNotRepeated`);
- asking for the song to precache can make a new shuffle order, after which the key
  for prev goes to a drawn song (`ListOrder.PrevKeyGoesBack`);
- CMD_PLAY with index -1 and a list leaves the rest of the list to be read as
  commands (`Messages.PlayRoundTrip`);
- an item released under a changed path can take another entry away
  (`TagTable.RenamedReleaseIsHarmlessIff`);
- the wait in `out_buf_stop` is not repeated after a spurious wakeup
  (`OutBuf.StopSilencesDeviceIff`).

`dafny verify dfyconfig.toml` checks the whole project.

## Model

| member | source | states |
|---|---|---|
| `Replication.ReplicaConverges` | client/client.cc:574-582 | main theorem: in every run in which the list is only sent while no list event waits in that client's queue, no reply is taken for another, replaying wire and queue gives a synced client the server's list unless a refetch is wanted by then, and with empty channels the lists are equal |
| `Replication.RunKeepsInv` | server/server.cc:540-643 | over every run, replaying the wire and then the queue on each client's view gives the server's list, unless it ends unsynced, with a refetch wanted, or with the client's own list still on its way |
| `Replication.StepKeepsInv` | server/server.cc:520-643 | every single step of server, client or channel keeps that |
| `Replication.HandleKeepsInv` | server/server.cc:540-643 | a command handled for one client keeps it for all of them |
| `Replication.BroadcastKeepsPeer` | server/server.cc:358-397 | each command changes the server's list exactly as its event changes a synced copy |
| `Replication.ReplySettles` | server/server.cc:594-600 | a reply written past the queue has the same effect as if it came last, for a list reply if no list event is queued |
| `Replication.ListPlayKeepsPeer` | server/server.cc:554-569 | a client's own list taken over by the server leaves every synced client wanting a refetch |
| `Replication.ActKeepsPeer` | client/client.cc:617-648 | whatever a client does from its loop keeps the invariant: a synced one sends its edits instead of making them |
| `Replication.IdleMeansNoReply` | client/client.cc:146-157 | a client running its loop has no EV_DATA in flight |
| `Replication.OtherDataOvertakes` | server/server.cc:320-331 | a reply that carries no list commutes with all events it overtakes |
| `Replication.FatalIsFinal` | client/client.cc:940-942 | a client that ended in interface_fatal takes nothing more |
| `Replication.CanConverge` | client/client.cc:574-582 | from every state with the invariant there are steps after which a connected client is idle with empty channels and, if synced, wants no refetch and equals the server |
| `Replication.WorkOff` | server/server.cc:520-643 | the server can always work off everything a client asked for, ending with empty channels |
| `Replication.Refetch` | client/client.cc:574-582 | a wanted refetch, once run, makes the copy equal to the server's list and clears the wish |
| `Replication.Drain` | server/server.cc:400-427 | packets and messages in flight can always be delivered, ending in the settled view |
| `OvertakingReply.OvertakenEvents` | server/server.cc:594-600 | main theorem: a list reply that overtakes any number of queued events leaves the client with the server's list, or wanting a refetch, exactly if one of them is NEW, or it wants one already while it fetches its first list, or all of them together do nothing to that list |
| `OvertakingReply.QueuedAdditions` | server/server.cc:574-583 | queued additions leave the list as it is exactly if all of them are empty |
| `OvertakingReply.QueueOnView` | client/client.cc:852-916 | what a queue of events makes of a synced client: whether it wants a refetch in the end, and else its list |
| `OvertakingReply.OvertakenEvent` | server/server.cc:594-600 | in particular with one event in the queue: exactly if that event is harmless on the current list |
| `OvertakingReply.EventOnCurrentList` | client/client.cc:852-916 | which events leave a list as it is that already contains their effect: an iff over all kinds |
| `OvertakingReply.ProvisoIsNeeded` | server/server.cc:594-600 | a complete run of two clients in which the reply overtakes an addition and the second client ends idle, synced and with a doubled item |
| `ClientEdits.EditKeys` | client/client.cc:291-345 | an edit key makes the one edit it stands for: a synced client sends one command, which makes it of the server's list, and leaves its own to the event; any other client makes it of its own list and sends nothing |
| `ClientEdits.EditReachesServer` | client/client.cc:335-345 | the key and the server's next turn with that client: the edit is made in the server's list |
| `ClientEdits.EditReachesCopies` | client/client.cc:855-911 | and every synced client that has taken what was sent to it shows it, over any run in which the server handles nothing else |
| `ClientEdits.GoPlaysItem` | client/client.cc:619-645 | the item under the cursor is the one at the index sent, in the list that is or becomes the server's; only a list of the client's own is announced as new |
| `ClientEdits.FileKeys` | client/client.cc:428-448 | files are removed and moved through the server, and its list follows what really happened to them |
| `ClientEdits.SelectionIsDeleted` | client/client.cc:326-346 | deleting the selection deletes the selected items and no others |
| `ClientEdits.ClearKey` | client/client.cc:709-730 | the clear key empties and lets go of a list, or fetches the server's if there is nothing to empty |
| `ClientEdits.LocalKeys` | client/client.cc:731-737 | letting go of the server's list or loading another concerns the client alone |
| `ClientEdits.IdlePassServesWish` | client/client.cc:574-582 | a wanted refetch is done in the idle pass and gives the server's list; a stale wish is dropped |
| `ClientEdits.LocalListFollowsFiles` | client/client.cc:878-916 | of all events only removals and renames of files touch the list of a client that is not synced, item by item |
| `ClientEdits.NewClient` | client/client.cc:38-70 | a client starts with a list of its own and nothing in flight |
| `ClientHandlers.Client.HandleServerEvent` | client/client.cc:825-916 | the handler, field by field, is the state machine's event step, and the current index follows as stated |
| `ClientHandlers.Client.Receive` | client/client.cc:146-157 | an event or an EV_DATA reply read from the socket, against the state machine's delivery |
| `ClientHandlers.Client.HandleKey` | client/client.cc:601-742 | keys and the idle pass change view and send commands as the state machine says |
| `ClientHandlers.Client.MoveSelected` | client/client.cc:488-517 | move_item sends or makes the one move that shifts the selected block by one |
| `ClientHandlers.Client.DeleteSelected` | client/client.cc:326-347 | delete_item, from the selection to the command or the local edit |
| `ClientHandlers.Client.AddToList` | client/client.cc:263-304 | add_to_plist, from what was gathered to the command or the local edit |
| `ServerHandlers.Server.AddEventAll` | server/server.cc:385-397 | the event is appended to the queue of every connected client and to no other |
| `ServerHandlers.Server.MoveFilesInList` | server/server_plist.cc:263-272 | moving files renames the items on the server's list as the broadcast map says |
| `ServerHandlers.Server.HandleCommand` | server/server.cc:540-643 | the command loop's playlist cases: new list, broadcast events and reply are the state machine's |
| `ServerHandlers.Server.SendEvents` | server/server.cc:400-427 | packets leave the queue from its front, in order, until it is empty, a send would block, or one fails and the client is deleted |
| `Playlist.Plist.Remove` | playlist.cc:60-65 | removes exactly the n items from i on, nothing for a range outside the list |
| `Playlist.Plist.Insert` | playlist.cc:124-136 | inserts all items in order in front of pos, or appends |
| `Playlist.Plist.Append` | playlist.cc:106-111 | appends all items in order |
| `Playlist.Plist.Move` | playlist.cc:98-104 | the chain of swaps is the removal of the item and its insertion at j |
| `Playlist.Plist.RemoveFiles` | playlist.cc:76-87 | a stable filter in place; the index returned is the one the code computes |
| `Playlist.Plist.Replace` | playlist.cc:88-96 | renames every path found in the map and no other |
| `Playlist.MoveIsRotation` | playlist.cc:98-104 | every item lands at its target, targets are distinct, and the reverse move undoes it |
| `Playlist.InsertIsBlock` | playlist.cc:124-136 | the new items stand, in their order, where the position says or at the end; removing them gives the old list |
| `Playlist.RemoveIsBlock` | playlist.cc:60-65 | a block in the list is taken out, and putting it back gives the old list; any other request changes nothing |
| `Playlist.KeptCounts` | playlist.cc:76-87 | the filter drops every occurrence of a removed file and no other item |
| `Playlist.AddedBehindPlaying` | client/client.cc:289-294 | what is added goes to the end, or right behind the playing item, or to the front if nothing plays |
| `Playlist.AddKeepsItem` | client/client.cc:855-865 | after an ADD at any position the client's index denotes the same item |
| `Playlist.DelKeepsItem` | client/client.cc:867-876 | in range a surviving current item keeps the index, a deleted one leaves it on the slot of the first survivor behind; for any numbers whatever the index is right exactly if the range is inside the list, or starts at or behind the index, or is empty |
| `Playlist.MoveKeepsItem` | client/client.cc:887-910 | in range the index follows its item; out of range it is right exactly if it is not between the two positions |
| `Playlist.BlockShifts` | client/client.cc:502-513 | the one move of move_item shifts the whole block by one, in order, and changes only its neighbour besides |
| `Playlist.SelectionFollowsBlock` | client/client.cc:892-903 | the selection is moved with the block by the moves sent for it, and by no other |
| `Playlist.ReportedIndexIsRightIff` | playlist.cc:76-87 | for any items removed: the index that remove(files, i0) reports is that of the item at i0, or of the first survivor behind it, exactly if as many items are removed in front of i0 as are kept up to where the scan catches up with the running index |
| `Playlist.ReportedIndexIs` | playlist.cc:76-87 | the index reported, in closed form |
| `Playlist.KeptItemGoesTo` | playlist.cc:76-87 | a kept item goes to the place of the items kept in front of it |
| `CurrentIndex.IndexFollowsItem` | client/client.cc:855-911 | over any run of ADD, DEL and MOVE events within the list the client's index stays on the item it was put on, or each time that one is deleted on the first survivor behind, exactly if no event of the run deletes the item current by then together with everything behind it |
| `CurrentIndex.CutOffLosesMark` | client/client.cc:867-877 | such an event leaves the index at the length of the list, where an unrelated item stands after the next append |
| `CurrentIndex.MarkedEditsAreEdits` | playlist.cc:60-136 | the marked list goes through the same lists as the real one |
| `CurrentIndex.EditKeepsMark` | client/client.cc:855-911 | each other event keeps the index on that item |
| `CurrentIndex.MarkedEditIsEdit` | playlist.cc:60-136 | marking an item changes nothing about the edits |
| `Playlist.ReportedIndexNoRemoval` | playlist.cc:76-87 | what remove(files, i0) reports if nothing is removed: about half of a positive index |
| `Playlist.ReportedIndexWhenNothingRemoved` | playlist.cc:76-87 | if nothing is removed that is so only for index 0 (or none, or an empty list) |
| `Codec.ScalarRoundTrip` | Socket.h:68-80 | integers, booleans and strings: decoding the bytes followed by anything gives the value and exactly what followed |
| `Codec.ScalarBytes` | Socket.h:60-69 | the bytes themselves, by examples: lowest first, complements, a length of eight bytes |
| `Codec.ManyRoundTrip` | Socket.cc:152-219 | sets, maps and lists ended by a mark arrive whole, and nothing behind them is read, exactly if the mark is not among their keys |
| `Codec.MapArrives` | Socket.cc:186-202 | a map or set sent in whatever order of its entries is the map or set that arrives, exactly if the end mark is not a key |
| `Codec.TagsRoundTrip` | Socket.cc:95-120 | file_tags, present or not, arrive as they were |
| `Codec.ChangesRoundTrip` | Socket.cc:122-150 | tag_changes with any of the four fields set arrive as they were |
| `Codec.ValueRoundTrip` | Socket.h:68-115 | the same for every kind of value, as one iff |
| `Codec.NeverStop` | Socket.cc:159-219 | a read never yields the end mark as an element |
| `Codec.ValueExtends` | Socket.cc:43-63 | what a read makes of some bytes does not depend on the bytes after them |
| `Bytes.ToIntOfFromInt` | Socket.h:71-74 | integers of every width: reading back the bytes gives the number |
| `Bytes.FromIntOfToInt` | Socket.h:98-102 | and writing back the number gives the bytes |
| `Messages.ValuesRoundTrip` | server/server.cc:341-357 | the values of a message arrive exactly if none of them holds its end mark |
| `Messages.MessageRoundTrip` | client/client.cc:825-946 | every event and every reply the client waits for decodes to itself, in front of anything |
| `Messages.CommandRoundTrip` | server/server.cc:523-712 | every command other than CMD_PLAY decodes to itself exactly if its collections do not hold their end mark |
| `Messages.PlayRoundTrip` | server/server.cc:540-571 | CMD_PLAY with a list is taken for what it is, and the next command found behind it, exactly if the index is not -1 or the list is empty |
| `Messages.CutMessageFails` | Socket.cc:43-63 | no proper prefix of a message is taken for a message |
| `Messages.StreamRoundTrip` | client/client.cc:535-545 | a stream of messages is read back message by message, up to a tail that is none |
| `Messages.StreamsAreUnique` | client/client.cc:535-545 | two streams of proper messages with the same bytes are the same messages |
| `WireEvents.EventArrivesIff` | server/server.cc:358-397 | an event about the list, written as a message with sets and maps in any order, is read by the client as that event, whatever follows, exactly if no path in it is empty |
| `WireEvents.CommandArrivesIff` | server/server.cc:569-609 | and an edit that a client sends is read by the server as that edit, on the same condition |
| `Framing.GuardsAreTransparent` | Socket.h:120-137 | guards in any nesting, done or left early: exactly the bytes of the finished ones go out, in one place, buffer and depth as before |
| `Framing.LeftGuardUndoes` | Socket.h:131-134 | a guard that is left early changes nothing at all |
| `Framing.OpKeepsInv` | Socket.h:45-57 | between two operations every packet is one whole message and the wire is whole messages |
| `Framing.RunKeepsOrder` | server/server.cc:334-427 | over every run no event is lost, doubled or overtaken by another, and replies keep their order |
| `Framing.WireDecodes` | Socket.h:8-26 | main theorem: whatever a server queues, writes and transmits, the client reads back exactly the messages sent: replies and events, each in order |
| `Framing.CutWireDecodes` | Socket.cc:225-252 | if the connection breaks within a packet everything before is read and the packet is not |
| `Sockets.Socket.Send` | Socket.cc:23-41 | buffered: appended; else handed over in pieces of any size, all of it unless the call fails |
| `Sockets.Socket.Flush` | Socket.cc:65-78 | only the outermost flush sends; the buffer is empty afterwards even on failure |
| `Sockets.Socket.Packet` | Socket.h:45-49 | opens the buffer and puts the type first |
| `Sockets.Socket.Finish` | Socket.h:50-60 | queues the buffer as one packet if it is not empty |
| `Sockets.Socket.SendNextPacketNoblock` | Socket.cc:225-252 | the front packet goes out whole, stays, or breaks the connection |
| `Sockets.Socket.SendScalar` | Socket.h:68-80 | integers, booleans and strings: length and data, one after the other |
| `Sockets.Socket.SendPlist` | Socket.h:85-85 | a list goes out path by path and ends with ""; an early failure leaves a prefix |
| `Sockets.Socket.SendEntries` | Socket.cc:152-209 | a set or map in some order of its elements, ended by its mark, all within a guard |
| `Sockets.Socket.SendTags` | Socket.cc:95-103 | the file_tags record within a guard |
| `Sockets.Socket.SendChanges` | Socket.cc:122-132 | the tag_changes record within a guard |
| `Sockets.Socket.Done` | Socket.h:131-134 | the end of a guard that is done |
| `Sockets.Socket.RollBack` | Socket.h:131-134 | the end of a guard that is not: the state at its start |
| `Sockets.Socket.Receive` | Socket.cc:43-63 | n bytes, in whatever pieces they come, or the exception if they end before |
| `Sockets.Socket.GetElements` | Socket.h:103-115 | the reading loop of lists and sets |
| `Sockets.Socket.GetPairs` | Socket.cc:176-202 | the reading loop of maps |
| `Sockets.Socket.GetFileTags` | Socket.cc:104-120 | get_tags |
| `Sockets.Socket.GetTagChanges` | Socket.cc:133-150 | get_tag_changes |
| `CacheRecord.RecordRoundTrip` | server/tags_db.cc:43-104 | a cache record comes back as it was exactly if its strings hold no NUL and its rating is within -128..127 |
| `CacheRecord.RecordBytes` | server/tags_db.cc:43-65 | the bytes of a record, field by field, by an example |
| `CacheRecord.RecordFound` | server/tags_db.cc:68-104 | every buffer that is read is some storable record followed by the unread bytes |
| `CacheRecord.CutRecordIsRefused` | server/tags_db.cc:73-104 | a record of which the end is missing is refused |
| `CacheRecord.Serialize` | server/tags_db.cc:43-67 | the buffer, filled through a cursor, is the record's bytes |
| `CacheRecord.Deserialize` | server/tags_db.cc:68-104 | the reader with its cursor and count of bytes left |
| `CacheRecord.ExtractStr` | server/tags_db.cc:81-87 | a C string is taken if its NUL lies within the bytes left |
| `OutBuf.NoLostWakeup` | server/output/out_buf.cc:113-312 | main theorem: in every interleaving, with reset called as its comment demands, reader and writer are both blocked without a wakeup pending only if the buffer is paused and full; stop and wait never hang behind a blocked reader |
| `OutBuf.ResetConditionIsNeeded` | server/output/out_buf.cc:299-312 | a reset while a writer waits on a paused, full buffer, which its comment forbids, leaves both asleep on an empty buffer |
| `OutBuf.StopAndWaitAreWoken` | server/output/out_buf.cc:284-297 | a caller in stop or wait is woken by a broadcast after finitely many reader steps, whatever the others do |
| `OutBuf.ReaderProgress` | server/output/out_buf.cc:124-219 | each reader step brings the next broadcast closer |
| `OutBuf.ReaderCanStep` | server/output/out_buf.cc:124-219 | a reader that is not asleep without a signal can always do a step |
| `OutBuf.BroadcastComes` | server/output/out_buf.cc:146-146 | within that many reader steps a broadcast happens |
| `OutBuf.AcceptedIsMerge` | server/output/out_buf.cc:135-312 | main theorem: over every run all bytes accepted are, in order, a merge of those sent to the device, the chunk in flight, the fifo and those discarded by stop or reset |
| `OutBuf.PastIsMerge` | server/output/out_buf.cc:135-219 | the bytes that left the fifo are an order-preserving merge of played and dropped ones |
| `OutBuf.NoDequeueWhileStopped` | server/output/out_buf.cc:172-200 | no step takes bytes from the fifo to the device while stop or pause is set |
| `PutAndPlay.PutTakesAll` | server/output/out_buf.cc:229-264 | main theorem: for every thread and every run without a stop, whatever others do, put takes over all bytes it was asked to, once each and in order, but for those still pending |
| `PutAndPlay.PutStepTakes` | server/output/out_buf.cc:238-262 | one round takes over a front part and needs another round only if the fifo is full; only a stopped buffer makes put give up the rest |
| `PutAndPlay.AcceptedIsMergeOfPuts` | server/output/out_buf.cc:229-264 | the log of accepted bytes is, for every thread, a merge of its own and the others' |
| `PutAndPlay.SingleWriterLog` | server/output/out_buf.cc:229-264 | with a single writer the log is what it put |
| `PutAndPlay.StepAccounts` | server/output/out_buf.cc:113-222 | every step accounts for all bytes: reset, and the loop under stop, drop exactly the fifo; all others keep what is on its way, in order |
| `PutAndPlay.NothingIsDropped` | server/output/out_buf.cc:113-222 | over every run without stop and reset nothing is dropped |
| `PutAndPlay.EndToEnd` | server/output/out_buf.cc:113-264 | from end to end, for a single writer: what the device got or will get and what is pending is what was there before and then what was put |
| `PutAndPlay.EverythingIsPlayed` | server/output/out_buf.cc:113-222 | progress: while nobody stops, pauses or resets, the device has been given all that was in the buffer within 8 steps of the reader per byte and a few more, whatever is put meanwhile |
| `PutAndPlay.PauseHoldsOutput` | server/output/out_buf.cc:266-272 | after pause the device gets no more than the chunk on its way, and nothing is lost |
| `PutAndPlay.UnpausePlaysOn` | server/output/out_buf.cc:274-280 | after unpause all that was held back is played |
| `PutAndPlay.ResetStartsOver` | server/output/out_buf.cc:301-312 | after reset the fifo is gone and put works again |
| `PutAndPlay.StopEmptiesFifo` | server/output/out_buf.cc:130-136 | under stop the top of the reader's loop empties the fifo, and it stays empty until a reset |
| `PutAndPlay.StopReturnsEmpty` | server/output/out_buf.cc:284-297 | when stop, called while the reader is not in its callback, returns because it was woken, the fifo is empty |
| `PutAndPlay.WaitReturnsIff` | server/output/out_buf.cc:377-391 | wait returns exactly if the reader is asleep, with all it took given to the device |
| `PutAndPlay.SendsToOpenDevice` | server/output/out_buf.cc:190-208 | in every reachable state bytes are sent to an open device only |
| `PutAndPlay.DeviceFollowsPause` | server/output/out_buf.cc:148-170 | when the device is closed and opened again, exactly |
| `PutAndPlay.DeviceResetIsServed` | server/output/out_buf.cc:130-133 | when a reset of the device is asked for and done, exactly |
| `PutAndPlay.CallbackInEveryRound` | server/output/out_buf.cc:138-144 | the callback set last is called in every round |
| `OutBuf.StopSilencesDeviceIff` | server/output/out_buf.cc:284-312 | when out_buf_stop returns, no run without a reset gives the device anything more, exactly if no chunk is being sent; that is so unless the wakeup was spurious |
| `OutBuf.KeepsInv` | server/output/out_buf.cc:113-312 | every step of every thread keeps the state invariant |
| `OutBuf.RunKeepsInv` | server/output/out_buf.cc:113-312 | and so every run of them |
| `OutBuf.Buffer.ReaderTop` | server/output/out_buf.cc:130-136 | the top of the reader's loop |
| `OutBuf.Buffer.ReaderAnnounce` | server/output/out_buf.cc:146-158 | broadcast, and whether the reader goes to sleep |
| `OutBuf.Buffer.ReaderCheck` | server/output/out_buf.cc:160-200 | whether and which chunk is taken from the front of the fifo |
| `OutBuf.Buffer.PutMustWait` | server/output/out_buf.cc:240-244 | a writer waits exactly if the buffer is full and not stopped |
| `OutBuf.Buffer.PutSection` | server/output/out_buf.cc:246-260 | refused if stopped, else the longest prefix that fits; a signal exactly if something was put |
| `OutBuf.Buffer.Stop` | server/output/out_buf.cc:284-297 | the critical section of stop |
| `OutBuf.Buffer.Reset` | server/output/out_buf.cc:301-312 | the critical section of reset |
| `FifoBuf.Fifo.Put` | fifo_buf.cc:16-31 | appends the longest prefix that fits |
| `FifoBuf.Fifo.Get` | fifo_buf.cc:33-52 | removes and returns the front |
| `FifoBuf.Fifo.Peek` | fifo_buf.cc:54-76 | returns the front and changes nothing |
| `FifoBuf.Conservation` | fifo_buf.cc:16-76 | over any run since the last clear: everything got and what is inside is everything accepted |
| `FifoBuf.RunFifo` | fifo_buf.cc:16-76 | the ring does the same as the bounded sequence on every list of operations |
| `FifoBuf.SlotIsModulo` | fifo_buf.cc:22-22 | the array index of the k-th byte is (pos + k) % size |
| `PlayThread.ShuffleCoverage` | server/server_plist.cc:127-183 | main theorem: for any draws in range, with Shuffle and Repeat off, the play thread plays every valid item exactly once, the started one first, and stops |
| `PlayThread.RepeatAllCoverage` | server/server_plist.cc:127-183 | with Repeat-all and at least two valid items, every cycle between reshuffles covers all valid items exactly once |
| `PlayThread.NoSongFollowsItself` | server/server_plist.cc:127-183 | and no song follows itself |
| `PlayThread.SongsAreValidItems` | server/server_plist.cc:137-142 | a shuffle order holds every valid item once |
| `Scheduler.ShuffledIsPermutation` | server/server_plist.cc:127-143 | for any draws in range the order is a permutation with the start item first, and order_inv its inverse |
| `ShuffleDraws.EveryOrderCanBeDrawn` | server/server_plist.cc:127-143 | every order that begins with the start item is the outcome of some draws |
| `ShuffleDraws.DrawsAreUnique` | server/server_plist.cc:127-143 | and of one choice only, so that independent uniform draws make them all equally likely |
| `ShuffleDraws.DrawsThatStay` | server/server_plist.cc:136-137 | draws that swap nothing give the start item and then the list in its order |
| `Scheduler.NextKeepsDeck` | server/server_plist.cc:145-183 | next() keeps the deck consistent and yields a valid item of it or nothing |
| `ListOrder.NextInList` | server/server_plist.cc:159-167 | without Shuffle, next is the nearest valid item behind; at the end the first one with Repeat-all or on demand, else none |
| `ListOrder.NextRepeatsOne` | server/server_plist.cc:152-157 | Repeat-one stays on a valid current song, and else draws or takes the first |
| `ListOrder.NextInOrder` | server/server_plist.cc:169-182 | under Shuffle, next is the nearest valid item behind in the order in use, or in a new one that begins with the current song |
| `ListOrder.PrevInList` | server/server_plist.cc:192-197 | without Shuffle, prev is the nearest valid item before, or the last one |
| `ListOrder.PrevInOrder` | server/server_plist.cc:199-205 | under Shuffle, prev is the nearest valid item before in the order, or drawn |
| `ListOrder.ListIsPlayed` | server/audio.cc:192-239 | main theorem: with Shuffle and Repeat off a whole run plays the valid items from the start item on in the order of the list, and then stops |
| `ListOrder.ListGoesRound` | server/audio.cc:192-239 | main theorem: with Repeat-all and no Shuffle they are played round and round, a lone one too |
| `ListOrder.OneSongRepeats` | server/audio.cc:192-239 | with Repeat-one a valid song is played over and over |
| `ListOrder.NextAndStopKeys` | server/audio.cc:220-235 | the key for next goes where the end of the song would, and starts over where that would stop; stop stops |
| `ListOrder.PrevKeyGoesBack` | server/audio.cc:224-227 | the key for prev goes back to the song before, unless asking for a song to precache has made a new order: then the song is drawn |
| `Scheduler.LoneSongIsNotRepeated` | server/server_plist.cc:178-182 | under Shuffle with Repeat-all next() fails and wipes the counter exactly if the current item is the only valid one |
| `Scheduler.PrecacheIsRight` | server/audio.cc:196-232 | two calls of next() with no change between them return the same song, even if the first one reshuffles |
| `Scheduler.PrevUndoesNext` | server/server_plist.cc:185-206 | unless one song is repeated: prev() after next() is the item left, in list order, within one shuffle order and right behind a new one |
| `ServerPlaylists.ServerPlaylist.Reshuffle` | server/server_plist.cc:127-143 | the loops of reshuffle make exactly that permutation and its inverse |
| `ServerPlaylists.ServerPlaylist.Next` | server/server_plist.cc:145-183 | next() in all modes, with the draws it makes |
| `ServerPlaylists.ServerPlaylist.NextInShuffle` | server/server_plist.cc:169-182 | its shuffle branch |
| `ServerPlaylists.ServerPlaylist.Prev` | server/server_plist.cc:185-206 | prev() in all modes |
| `ServerPlaylists.ServerPlaylist.First` | server/server_plist.cc:108-116 | the first valid item |
| `ServerPlaylists.ServerPlaylist.Last` | server/server_plist.cc:117-126 | the last valid item |
| `ServerPlaylists.ServerPlaylist.CountValid` | server/server_plist.cc:15-15 | the counter is the number of valid items |
| `ServerPlaylists.ServerPlaylist.PlayList` | server/server_plist.cc:11-17 | a new list starts with its counter and without an order |
| `ServerPlaylists.ServerPlaylist.PlayThreadTurn` | server/audio.cc:192-239 | one turn of the play thread: song, candidate for the precache, and the next state |
| `Ratings.FindRating` | server/ratings.cc:35-139 | main theorem: for every content, name and chunk size the chunked scanner decides as the line-by-line scan does, and reports the position of the entry less the sizes of the chunks that were not read through GETC |
| `Ratings.NoLagIff` | server/ratings.cc:46-54 | the position is right exactly if every chunk in front of the end of the entry starts with a byte that GETC reads: the first of a line, the one behind a rating character, or the one behind the name |
| `Ratings.FirstChunkHasNoLag` | server/ratings.cc:96-100 | it is right for entries in the first chunk, however long the file |
| `Ratings.LongFirstLineLags` | server/ratings.cc:122-136 | with a first line as long as a chunk in front of "3 a" it falls short by the five bytes of the second chunk |
| `RatingsSpec.ScanAgreesIff` | server/ratings.cc:65-118 | the scan answers as the format promises exactly if no byte from 0x80 on gets into its char in front of the entry, or the line it got in by happens to give the same answer |
| `RatingsSpec.AsciiNeverTrips` | server/ratings.cc:67-69 | pure ASCII content and names: they always agree |
| `RatingsSpec.HighByteHidesEntries` | server/ratings.cc:67-69 | a line with such a byte right behind its rating character, wherever it stands, ends the search |
| `RatingsSpec.SearchConcat` | server/ratings.cc:56-137 | a search over terminated content and more is the search of the first part, then of the second |
| `RatingsFile.WriteTakesEffectIff` | server/ratings.cc:222-279 | for every content, name and rating a written rating is read back exactly if the name was found, or the rating is zero, or the name was searched for to the end and the content ends a line or the appended entry matches as a part of the last line |
| `RatingsFile.WriteTakesEffectAscii` | server/ratings.cc:222-279 | for names of bytes below 0x80 it never matches there: exactly if found, or zero, or searched to the end of a content that ends a line |
| `RatingsFile.WriteTakesEffect` | server/ratings.cc:222-279 | for newline-terminated content a written rating is read back, zero and absent being the same |
| `RatingsFile.WriteKeepsOthersIff` | server/ratings.cc:222-279 | for every content, rating and two names, writing one leaves the other's lookup as it was, position included, exactly if the overwritten entry had that rating or is not what the other lookup finds, or the appended one is not reached or does not change what the last line means |
| `RatingsFile.AppendKeepsOthersIff` | server/ratings.cc:254-261 | behind whole lines, exactly if the rating is zero, the other name was found or given up before, or is not the front of the written name up to a byte from 0x80 on |
| `RatingsFile.OverwriteShows` | server/ratings.cc:263-271 | overwriting gives every lookup that ends at the entry the new rating and leaves all others as they were |
| `RatingsFile.WriteKeepsUnrelated` | server/ratings.cc:222-279 | names of which none continues the other with such a byte never touch each other |
| `RatingsFile.OneLineTwoNames` | server/ratings.cc:98-110 | two lookups end at the same line only if one name continues the other with such a byte |
| `RatingsFile.RemoveDeletesLine` | server/ratings.cc:175-216 | shift and truncate delete exactly that line, with or without a newline at its end, or of the line of a longer name all but what is behind the byte that tripped the scanner |
| `RatingsFile.RemoveShows` | server/ratings.cc:163-219 | what every lookup shows after any removal: what it found in front of the line, or else what the leftover of the line and the lines behind mean to it |
| `RatingsFile.RemoveKeepsOthersIff` | server/ratings.cc:163-219 | for every content and two names, removing one keeps the rating of the other exactly if its lookup ends in front of the removed line, or the leftover shows it what the line did |
| `RatingsFile.RemoveWholeLineKeepsOthersIff` | server/ratings.cc:163-219 | where the removed line is that of the name: exactly if it is not taken for the other name, or that one is found or given up before, or has the same rating behind |
| `RatingsFile.NamesGetConfused` | server/ratings.cc:98-110 | "a" and "aé": rating the second in an empty file rates the first, and removing the first takes the rating of the second away |
| `RatingsFile.RemoveShowsNext` | server/ratings.cc:163-219 | the removed name shows what stood behind the deleted entry, a leftover of its line first |
| `RatingsFile.WritesInPlaceIff` | server/ratings.cc:263-271 | writing changes the byte it should exactly if there is nothing to change or the position reported does not lag |
| `RatingsFile.RemovesInPlaceIff` | server/ratings.cc:184-216 | removing cuts out the entry exactly if the position does not lag, or the bytes from there on repeat at the distance of an entry |
| `RatingsFile.File.RatingsWrite` | server/ratings.cc:222-279 | the code, for files of any length: new file, append, or one byte overwritten at the position reported, if that is not negative |
| `RatingsFile.File.RatingsRemove` | server/ratings.cc:163-219 | the code, for files of any length: unlink, or the length of the entry cut out at the position reported |
| `RatingsFile.File.ShiftDown` | server/ratings.cc:184-214 | the overlapping shift, chunk by chunk, moves the tail down unchanged |
| `TagsCache.ServiceIsFaithful` | server/tags_cache.cc:108-145 | over every run each client's requests are served in order, once, unless cleared, and the reader blocks only with all queues empty |
| `TagsCache.RunKeepsInv` | server/tags_cache.cc:108-145 | the invariant behind that holds over every run |
| `TagsCache.ServedSoon` | server/tags_cache.cc:115-139 | a waiting queue is served after at most CLIENTS_MAX-1 services of others |
| `TagsCache.SearchIsNearest` | server/tags_cache.cc:117-138 | the scan between two services finds the next non-empty queue in cyclic order |
| `TagsCache.RequestKeepsReaderGoing` | server/tags_cache.cc:207-210 | after a request is queued the reader is not left sleeping without a signal |
| `TagsCache.ClearDropsAll` | server/tags_cache.cc:213-220 | clearing drops all that one client still waits for, and no other requests |
| `TagsCache.Cache.Scan` | server/tags_cache.cc:115-139 | the loop of the thread between two services, and that it looks at a bounded number of queues |
| `TagsCache.Cache.AddRequest` | server/tags_cache.cc:207-210 | appends to that client's queue only |
| `TagsCache.Cache.ClearQueue` | server/tags_cache.cc:213-220 | empties that client's queue only |
| `TagTable.NoDanglingTags` | client/Util/Tags.h:12-63 | main theorem: over every run from the empty table with unchanged paths no item's pointer dangles and each usage count is at least, with careful releases exactly, the number of items pointing at the entry |
| `TagTable.StepKeepsInv` | client/Util/Tags.h:12-63 | every operation keeps that |
| `TagTable.RunKeepsInv` | client/Util/Tags.h:12-63 | and so every run |
| `TagTable.RenamedReleaseIsHarmlessIff` | client/Util/Tags.h:20-31 | releasing an item whose path was changed leaves no pointer dangling exactly if the path is the same, its entry has further users counted, or nobody uses the new path |
| `TagTable.ItemsShowLatest` | client/Util/Tags.h:13-67 | main theorem: over every run what an item that points somewhere shows are the tags that came last for its path |
| `TagTable.ConnectPoints` | client/Util/Tags.h:13-19 | connecting points an item at the entry of its path exactly if there is one |
| `TagTable.CopyShares` | playlist.h:21-21 | a copy points at the same entry and counts as another user |
| `TagTable.ReleaseErasesLast` | client/Util/Tags.h:21-32 | releasing erases the entry exactly if nobody else points at it, and no other entry |
| `TagTable.SweepRemovesUnused` | client/Util/Tags.h:61-67 | sweeping removes exactly the entries nobody points at |
| `TagTable.SetShows` | client/Util/Tags.h:65-97 | after set_title, set_artist or set_album the getter shows the new text, and every other field and path shows what it did |
| `TagTable.SetTrackShows` | client/Util/Tags.h:98-111 | the same for set_track, up to what counts as no track |
| `TagTable.NoEmptyChanges` | client/Util/Tags.h:77-131 | no file is ever left pending without a change |
| `TagTable.Tags.Connect` | client/Util/Tags.h:12-18 | connect |
| `TagTable.Tags.Release` | client/Util/Tags.h:20-31 | release: the entry goes with its last user |
| `TagTable.Tags.Update` | client/Util/Tags.h:49-55 | update keeps the count |
| `TagTable.Tags.ChangeText` | client/Util/Tags.h:65-97 | set_artist, set_album, set_title: the change is kept, dropped, or its record erased |
| `TagTable.Tags.ChangeTrack` | client/Util/Tags.h:98-111 | set_track |
| `TagTable.Tags.RemoveUnused` | client/Util/Tags.h:57-63 | erases exactly the entries without a user |
| `AudioConversion.AudioConv` | server/output/audio_conversion.cc:621-728 | at equal rates, between integer formats of equal width, or from 32 to 16 bit with the sign kept: the target format and length, and every output sample is the input sample put through shift, and duplicated for stereo |
| `AudioConversion.ConvertFormat` | server/output/audio_conversion.cc:632-714 | the chain of byte order, narrowing and sign in front of the duplication |
| `AudioConversion.ChangeSign` | server/output/audio_conversion.cc:353-387 | flips the sign format and keeps every sample's level |
| `AudioConversion.SwapEndian` | server/output/audio_conversion.cc:406-424 | swaps the byte order and keeps every sample's level |
| `AudioConversion.BSwap16` | server/output/audio_conversion.cc:389-395 | reverses the bytes of each sample |
| `AudioConversion.BSwap32` | server/output/audio_conversion.cc:397-403 | the same for 32 bit |
| `AudioConversion.Narrow` | server/output/audio_conversion.cc:592-616 | each 16 bit sample is the upper half of the 32 bit one |
| `AudioConversion.MonoToStereo` | server/output/audio_conversion.cc:575-590 | each sample twice, side by side |
| `AudioConversion.FlipTopKeepsLevel` | server/output/audio_conversion.cc:327-349 | flipping the top bit is the change between signed and unsigned, both ways |
| `AudioConversion.FlipTopIsXor8` | server/output/audio_conversion.cc:327-333 | the exclusive or of the code flips the top bit of a word of 8 bits |
| `AudioConversion.FlipTopIsXor16` | server/output/audio_conversion.cc:335-341 | the exclusive or of the code flips the top bit of a word of 16 bits |
| `AudioConversion.FlipTopIsXor32` | server/output/audio_conversion.cc:343-349 | the exclusive or of the code flips the top bit of a word of 32 bits |
| `FlacPack.PackPcmSigned` | server/input/flac.cc:25-70 | byte b of sample i of channel ch is at (i*channels+ch)*width+b, for all samples of all channels |
| `FlacPack.PlaceIsInjective` | server/input/flac.cc:38-65 | no two of them share a place, so channel passes never overwrite each other |
| `FlacPack.PlaceExists` | server/input/flac.cc:38-65 | and every output byte is such a place |
| `FlacPack.UnpackRecovers` | server/input/flac.cc:49-63 | unpacking gives the sample back, 24 bit ones left-aligned in 32, exactly if it fits the width |
| `FlacPack.PackedIsPcm` | server/input/flac.cc:193-197 | as PCM of the format announced, a packed sample has the amplitude the decoder gave it |
| `FlacPack.OutputUnpacks` | server/input/flac.cc:25-70 | the whole output unpacks to the whole input |
| `AacScanner.AacBuffer.BufferFillFrame` | server/input/aac.cc:187-229 | main theorem: whatever the sizes of the reads, 1 exactly at the earliest offset within 32768 tests where a header is and its frame is complete; skipped, buffered and unread bytes are the stream |
| `AacScanner.ScanFindsEarliest` | server/input/aac.cc:193-226 | the scan's outcome is the first header in the stream, or that there is none |
| `AacScanner.AacBuffer.BufferFill` | server/input/aac.cc:150-166 | moves, reads on, loses nothing |
| `AacScanner.AacBuffer.BufferFillMin` | server/input/aac.cc:174-182 | terminates with enough bytes, or at the end of the stream or its error |
| `AacScanner.AacBuffer.BufferConsume` | server/input/aac.cc:168-172 | skips exactly n bytes |
| `AacScanner.AacBuffer.ScanTurn` | server/input/aac.cc:193-226 | one round of the scan over what is buffered |
| `AacScanner.ParsesHeader` | server/input/aac.cc:24-43 | every ADTS header with layer 0 is recognised, with its frame length |
| `AacScanner.ParsesOnlyHeaders` | server/input/aac.cc:24-43 | and nothing else is |
| `BitrateList.AddAgrees` | server/output/player.cc:60-68 | adding keeps the timeline in agreement with the whole history |
| `BitrateList.PopAgrees` | server/output/player.cc:74-74 | dropping entries does too, for all later queries |
| `BitrateList.Timeline.Add` | server/output/player.cc:60-68 | add: times stay strictly increasing |
| `BitrateList.Timeline.Get` | server/output/player.cc:70-76 | get(t) is the last bitrate recorded at or before t in the unpruned history, or -1 if there is none or if t lies before what earlier queries left |
| `PathOrder.LessIsKeyOrder` | playlist.cc:170-212 | the comparison of items is that of their keys, exactly unless both are "../" |
| `PathOrder.OrderIsStrictWeak` | playlist.cc:170-212 | a strict weak order on the paths that items can have; of the comparison alone: it is transitive, ties are transitive, and it is irreflexive exactly but for "../", which the constructors of an item do not let in |
| `PathOrder.DirsThenPlaylists` | playlist.cc:170-189 | directories before playlists before all others, "../" first |
| `PathOrder.PlainPaths` | playlist.cc:211-211 | paths that do not both start with a digit are in the order of their bytes: the first difference decides |
| `PathOrder.NumberedPaths` | playlist.cc:190-209 | paths that start with numbers, leading zeros or not, are in the order of the numbers, and then of what follows |
| `PathOrder.LessThan` | playlist.cc:170-212 | the code with its pointer loops |

## Left out

Statements that are narrower than one might expect:

- Replication.ReplicaConverges: the proviso that a list is sent only while no list event waits in that client's queue is a condition on runs; the code does not enforce it, and `OvertakingReply` shows what happens without it.
- RatingsFile.File.RatingsRemove: with a negative position, which an entry right in front of a chunk boundary can have, nothing is said about the content: seeks fail, and what is read and written then is up to the C library.
- Scheduler.ShuffledIsPermutation: draws `random_int(i, n)` lie below n; the code's upper bound is inclusive, and a draw of n is outside the vector. `ServerPlaylists.ServerPlaylist.Reshuffle` has the same condition.
- Scheduler.NextKeepsDeck: the retry loop of random() is the draw it ends with.
- AudioConversion.AudioConv: 32 to 16 bit with a change of sign is excluded, because the code then passes the old length on to change_sign, which runs past the end of the shorter buffer.
- TagTable.NoDanglingTags: paths of items do not change while they point at an entry; `RenamedReleaseIsHarmlessIff` says when a change does harm.
- PathOrder.OrderIsStrictWeak: strcoll in the C locale; other collations depend on the system. A path is the bytes in front of its first NUL.
- Sockets.Socket.Receive: an error of recv counts as the end of the stream; both raise the same exception.
- Sockets.Socket.SendEntries: the order in which a set or map is walked is left open instead of ascending.
- CacheRecord.Deserialize: strlen looks for a NUL within the record only; the code may look behind it before it reports the error.

Not modelled:

- `get_int_noblock`, connecting and accepting, the log, `EV_PONG` at the client.
- A failure inside the destructor of a guard, which ends the process.
- The integer widths of indices and lengths: they are unbounded, except in bytes on the wire, in PCM samples and in cache records.
- Items are their paths in `Playlist` and `Replication`; the type of an item is a function of its path, and tags of items are `TagTable`'s.
- plist::swap deleting the tags of a list without a table; plist::remove by indices; m3u files, directories, shuffle of a list.
- ServerPlaylist::invalidate, and its index and counters while the list is edited during playback.
- The destructor and the exit flag of the output buffer, and all times in seconds.
- Errors of the file system under the ratings files; ratings_move; where a ratings file is.
- The stop flag of the tag reader thread; reading and writing tags in files; the database; get_immediate and ratings_changed.
- Floating point: resampling, float formats, equalizer, softmixer.
- The user interface, keys, options, themes, drivers and decoder libraries.
- normalize_path and add_path: the target of a move is any function of the old path.
