# Verification of the replicated key/value store

The repository is a key/value store in C. Every server keeps a hash table of sorted linked lists. ZooKeeper lists
the running servers; each server forwards its updates to the server with the next path, so the servers form a chain.
Clients send updates to the head of the chain and reads to its tail. A readers/writer lock, built from one mutex and
one condition variable, guards every table, and the lock is held while an update travels down the chain.

This project models that program in Dafny and proves what it promises. `dafny verify dfyconfig.toml` checks it.

- **Chain replication** (`Chain`, `ChainInvariant`, `Linearizability`, `AnswerLaws`, `ChainSafety`, `ChainTheorems`,
  `ChainResults`, `ChainProgress`, `ChainLoss`, `ChainLimits`, `ChainStale`). A transition system: any number of servers
  and clients, one thread for each call, the table lock and the statistics lock of every server, updates that travel
  down the chain and replies that travel up, reads at any server, servers that leave and join while others work. Proved
  over every run: histories of clients are linearizable, logs are nested prefixes, no answered update is lost, no
  deadlock, every run ends; exactly when a server in the middle may be lost, and what a client can see when it was lost
  too early.
- **The readers/writer lock** (`LockProtocol`, `LockResults`: each statement a step, any number of threads;
  `MutexLocks`: the four functions as methods; `RwSpec`: the lock as its users see it).
- **The table** (`SortedPairs`, `SortedList`, `HashCode`, `Buckets`, `HashTable`). Nodes, entries and data blocks on
  the heap, changed in place, against a finite map (`KvSpec`).
- **Skeleton and stub** (`Skeleton`, `Replication`, `Connection`). `invoke` and the `rtable_*` functions, which call
  each other along a chain of server objects; each remote call is delivered, loses its request or loses its reply, and
  a message that does not arrive whole does not arrive.
- **Messages** (`Packing`: the bytes of a packed message; `Framing`: messages on a byte stream).
- **State transfer** (`StateTransfer`), **membership and topology** (`Topology`), **the key-array serializer** (`KeyArray`) and **the thread slots** (`ThreadPool`).

## What the code does not do

Some properties that one would expect do not hold. The code is modelled as it is, and the lemmas say what is true.

- `writers_waiting` is decremented by each `enter_write` and never incremented. It is minus the number of completed
  calls, and writers have no priority (`LockResults.WaitingCountsBackwards`, `LockResults.ReadersIgnoreWaitingWriters`,
  `LockResults.ReaderOvertakesWriter`).
- The result of a forwarded put or del is ignored. Replicas that agreed still agree exactly when every request on the
  way got through, or when the update would have changed nothing (`Replication.AgreementIsKept`,
  `Replication.LostForwarding`).
- Updates are not sent again when the chain changes. A server in the middle may be lost exactly when the tail has
  applied every update it serves; otherwise the head can get two updates ahead of the tail
  (`ChainLoss.LosingAMiddleServer`). An update that the lost server had not forwarded never reaches the servers behind
  (`ChainLoss.LostForGood`), and its client can be answered before the tail has it, if the tail ever gets it
  (`ChainLoss.AnsweredTooSoon`). If nothing else was to change its key, a get at the tail then makes the history not
  linearizable, exactly when the update would have changed the tail's table (`ChainStale.StaleRead`,
  `ChainStale.LostPut`). `ChainLimits.LosingABusyServer` is a small run of that kind.
- A joining server asks for the table and then for its size, and does not look for the end of the listing. If a key is
  added in between it reaches through a null pointer; if a value is overwritten the copy is stale; if a key is deleted
  the copy is cut short, and right only when that key was listed last (`StateTransfer.JoinerAgrees`,
  `StateTransfer.WindowsThatMatter`).
- A response longer than 2048 bytes does not arrive whole. A table whose keys and blocks have more than 2048 bytes
  together never gets to a joining server, in whatever window, nor to a client that asks for it
  (`StateTransfer.JoinerAgrees`, `Packing.LongListing`). The same bound holds for a put and for the answer to a get
  (`Packing.OneEntry`, `Skeleton.RtablePut`, `Skeleton.RtableGet`).
- A joining server does not look whether its copy succeeded. After a failed copy it joins with an empty table, which
  fits into the chain only if the tail's table is empty too (`ChainInvariant.FailedCopyFits`).
- `rtable_del` does not look for a null handle. A server whose connection to its successor could not be made breaks down
  at the first del (`Skeleton.Server.InvokeDel`), while its puts only fail to be forwarded.
- The successor of a server is the first greater path in the order of the list that its callback has fetched. All
  servers are in the chain exactly when each has the nearest greater path; if all go by one list, when that is ascending
  apart from its smallest element (`Topology.EveryServerIsInTheChain`, `Topology.PassedOver`).
- A server watches the list before it has stored its own path. If its callback runs after it has registered and before
  the path is stored, it takes the first path of the list as its successor. For the last server of the chain the links
  then form a cycle (`Topology.NotKnowingItself`).
- The receiver unpacks only what followed the last full 2048-byte chunk. A message arrives whole exactly when it has
  at most 2048 bytes (`Framing.WholeMessages`, `Framing.Exchange`); the stream stays on message boundaries up to 32767.
- When the address of a new successor cannot be looked up, the old path stays, and the handle points to freed memory
  (`Topology.Link.WatchChildren`).

## Model

| member | source | states |
|---|---|---|
| ChainResults.EveryHistoryIsLinearizable | source/table_skel.c:49-175 | in every run from any number of servers, with any interleaving of threads, clients, leaving and joining servers, and with reads sent to any server, the calls have an order that respects real time and in which every answer is right: a get returns what the last put of its key stored if no del came after it, a del tells whether there was such a put, size counts the keys that have one, and a put is refused exactly for an empty block |
| AnswerLaws.LegalIsRight | source/table_skel.c:49-175 | an order is one that a sequential map allows exactly when each answer is right in that sense, said without a map |
| AnswerLaws.DelAndGets | source/table_skel.c:126-155 | a del right after a get of its key is answered Done exactly when the get found something, and a get right after it finds nothing |
| AnswerLaws.DelTells | source/table_skel.c:137-151 | a del says Done exactly when a get would find something, which is exactly when the del changes the map |
| ChainResults.HistoriesAreWellFormed | source/server_thread.c:22-43 | in every run a call is answered at most once, and only after it was made |
| ChainResults.LogsAreNestedPrefixes | source/table_skel.c:63-80 | in every reachable state each server's history of applied updates is a prefix of those before it, at most one update shorter than the head's, and its table is what the history makes of an empty table |
| ChainResults.NoUpdateIsAppliedTwice | source/table_skel.c:133-145 | no server applies the same update twice |
| ChainResults.AnsweredUpdatesAreEverywhere | source/table_skel.c:63-89 | an update that has been answered is in the history of every server of the chain, also after any servers have left or joined |
| ChainResults.UpdatesAreAlone | source/table_skel.c:63-80 | while an update is inside a server's table lock no other call is |
| ChainResults.OneUpdateInFlight | source/table_skel.c:71-74 | of all updates that servers behind the head serve, at most one has not been applied by the tail |
| ChainResults.Ahead | source/table_skel.c:68-74 | a server is ahead of the tail by nothing, or by the one update in flight, which has not taken effect yet |
| ChainTheorems.StepKeeps | source/table_skel.c:44-271 | every step of every thread, client and member keeps the invariant of the chain, and what takes effect in it comes last in the order |
| ChainTheorems.RemoveTailSafe | source/server_callbacks.c:62-68 | losing the tail at any moment keeps the invariant; what its predecessor had applied and it had not takes effect then |
| ChainTheorems.RemoveHeadSafe | source/client_callbacks.c:81-92 | losing the head at any moment keeps the invariant |
| ChainTheorems.RemoveMiddleSafe | source/server_callbacks.c:69-88 | a server in the middle may be lost while it serves calls, once the tail has applied the updates among them; its predecessor notices later, its successor works on for nobody |
| ChainTheorems.JoinSafe | source/table_server.c:108-135 | a server that copies the tail and becomes the new tail keeps the invariant, also while the tail serves reads at any point, and updates that it has not applied or has passed on |
| ChainTheorems.RefuseSafe | source/table_skel.c:58-61 | a refused put, whose connection is closed, is a call that changes nothing |
| ChainTheorems.OnlyCoveredCallsAreDropped | source/table_skel.c:71-74 | given that connections break only when a server leaves, a server gives up waiting only for an update that the tail has applied |
| ChainTheorems.NotThereYet | source/table_skel.c:71-74 | a server forwards an update to a successor that has nothing of it |
| ChainInvariant.FailedCopyFits | source/table_server.c:113-135 | a server that joins with an empty table fits behind the tail, whatever the tail serves, exactly when the tail's table is empty |
| ChainSafety.Upstream | source/table_skel.c:71-74 | every server before one that serves an update has forwarded that update and waits, unless the update has taken effect |
| ChainSafety.Settled | source/table_skel.c:63-80 | servers behind one whose applied updates have all taken effect have the same history |
| ChainProgress.NoDeadlock | source/table_skel.c:63-80 | whenever some server still has a call, some thread of some server can move |
| ChainProgress.EveryRunIsShort | source/server_thread.c:22-50 | with n servers, j that join, r that leave and k calls there are at most 11 * (n + j) * k + j + r steps, whatever the schedule |
| ChainProgress.EveryCallIsAnswered | source/server_thread.c:22-50 | a run that no thread can extend has answered every call, except those whose client waits for a server that left |
| ChainLoss.LosingAMiddleServer | source/table_skel.c:71-74 | in every reachable state, a server in the middle can be lost with all servers staying in step however the chain goes on, exactly when the tail has applied every update it serves |
| ChainLoss.StageTells | source/table_skel.c:63-80 | an update on its way back at that server has been applied by the tail; one that was not forwarded has not |
| ChainLoss.UncoveredGetsOutOfStep | source/table_skel.c:71-74 | after any other loss the chain can go on so that the head is two updates ahead of the tail |
| ChainLoss.LostForGood | source/table_skel.c:71-74 | an update that the lost server had not forwarded stays in the history of the server before it and never enters that of a server behind, however the chain goes on without further losses |
| ChainLoss.AnsweredTooSoon | source/table_skel.c:71-89 | while its client waits, an update that the tail has not applied can be answered after the loss before the tail has it |
| ChainLoss.AppliedIsAhead | source/table_skel.c:68-74 | a server that has applied an update which the tail has not has a longer history |
| ChainStale.StaleRead | source/table_skel.c:71-89 | for an update that has not reached the tail, and is not at work there, when the server it passed through is lost: its client can be answered and a get of its key served by the tail afterwards; that history is linearizable if the update would have left the tail's table as it was, and, when whatever else was to change the key had been answered before the update was sent, only then |
| ChainStale.GetSeesTheUpdate | source/table_skel.c:71-89 | in any linearization a get called after the answer to an update returns what the update left, when nothing else was to change the key meanwhile |
| ChainStale.LostPut | source/table_skel.c:71-74 | one put and one get at three servers with a history that has no linearization: the put is answered, and the get that follows finds nothing |
| ChainLimits.LosingABusyServer | source/table_skel.c:71-74 | a run with three servers in which the loss of a busy middle server leaves an answered put out of the tail's table |
| LockResults.CountersTellSections | source/mutex.c:24-58 | readers_reading is the number of threads in read sections and writer_active tells whether one is in a write section |
| LockResults.Exclusion | source/mutex.c:24-58 | for any number of threads, a thread in a write section is the only one in any section; while one executes the body of a write section, no other executes the body of any section |
| LockResults.WaitingCountsBackwards | source/mutex.c:43-51 | with the mutex free writers_waiting is minus the number of calls of enter_write that the run has completed, in the range of int exactly up to 2^31 of them |
| LockResults.EveryWriteTakesEffect | source/stats.c:17-41 | once all threads are outside again, the counter is the sum of the deltas of all writes begun in the run, and writers_waiting is minus their number |
| LockResults.ReadersIgnoreWaitingWriters | source/mutex.c:24-32 | the guard of enter_read is true exactly when a writer is inside |
| LockResults.ReaderOvertakesWriter | source/mutex.c:24-51 | a run in which a thread enters a read section while a writer that came before it sleeps |
| LockResults.NoLostWakeup | source/mutex.c:34-58 | with the mutex free, a thread asleep has a thread inside to wait for |
| LockResults.NoDeadlock | source/mutex.c:24-58 | while some thread is not outside, some thread can execute its next statement |
| LockResults.EverySectionEnds | source/mutex.c:24-58 | without spurious wakeups n threads execute at most (14 + 2n) * k statements for k sections |
| LockResults.RefinesAbstractLock | source/mutex.c:24-58 | every statement is a step of the abstract lock that is allowed there, or none |
| LockResults.AdmittedGetsIn | source/mutex.c:24-58 | whenever the abstract lock admits a thread that wants to enter, a bounded number of statements, none of them by a thread that is using the lock, lets some thread in |
| LockResults.NoUpdateIsLost | source/stats.c:17-41 | loading and storing a counter as two steps in a write section loses nothing: the counter is the sum of the deltas stored, in every interleaving |
| LockResults.ClientsAreCounted | source/server_thread.c:20-54 | if each thread adds 1 and -1 in turn, the counter is the number of threads between a stored +1 and a stored -1, in every interleaving of loads and stores |
| LockProtocol.StepKeepsSleepers | source/mutex.c:34-58 | each statement keeps it true that a sleeper is owed a broadcast |
| LockProtocol.StepKeepsCounts | source/mutex.c:24-58 | each statement keeps the counters equal to the threads in the sections |
| MutexLocks.Locks.EnterRead | source/mutex.c:24-32 | the thread enters after the first of the others' turns that leaves no writer inside, or still sleeps because none does; writers_waiting falls by one for each writer that entered meanwhile |
| MutexLocks.Locks.EnterWrite | source/mutex.c:43-51 | the thread enters after the first of the others' turns that leaves nobody inside, or still sleeps because none does; writers_waiting falls by one for each writer that entered, this one included |
| MutexLocks.Locks.ExitRead | source/mutex.c:34-41 | the reader is out, and there is a broadcast exactly when nobody is left inside |
| MutexLocks.Locks.ExitWrite | source/mutex.c:53-58 | the writer is out, and there is a broadcast |
| SortedList.List.Add | source/list.c:82-142 | the list stays sorted without duplicates, acyclic and counted, and shows the entry inserted or replaced; 1 exactly when the key was there |
| SortedList.List.Remove | source/list.c:149-190 | the entry with that key is gone and the rest in place; 0 exactly when the key was there |
| SortedList.List.Get | source/list.c:196-209 | the stored entry itself, or null exactly when the key is not there |
| SortedList.List.Count | source/list.c:214-225 | the number of reachable nodes, which is the size field |
| SortedList.List.GetKeys | source/list.c:232-252 | the keys in list order and a null after the last; no array for an empty list |
| SortedList.SearchStops | source/list.c:93-141 | where the search for a place stops is where the sorted insertion belongs |
| SortedList.SearchEnds | source/list.c:155-187 | the search for a key ends at the one entry with that key, if there is one |
| SortedList.WithNew | source/list.c:126-141 | linking a new node behind any node leaves one chain of distinct nodes |
| SortedList.Without | source/list.c:155-182 | unlinking a node leaves one chain of distinct nodes |
| SortedPairs.InsertIsUpdate | source/list.c:82-142 | insertion into a sorted list is the update of the map it stands for |
| SortedPairs.DeleteIsRemoval | source/list.c:149-190 | deletion from a sorted list removes the key from the map and nothing else |
| SortedPairs.Canonical | source/list.c:71-80 | two sorted lists with the same map are the same list, whatever was done to them |
| Bytes.CompareSign | source/entry.c:63-76 | the order of entries is zero for equal keys only and changes its sign when swapped |
| Bytes.BeforeIsFirstDifference | source/entry.c:68-75 | an entry comes before another exactly when at the first difference of the keys its byte is smaller or its key ends |
| Bytes.FirstDifferenceDecides | source/entry.c:68-75 | behind a common prefix the smaller byte decides whatever follows, and a proper prefix comes first |
| Bytes.BeforeTransitive | source/entry.c:63-76 | the order of entries is transitive |
| HashCode.Compute | source/table.c:63-77 | the bucket number is the polynomial of the key cut down to a 32-bit int, without its sign, modulo the number of lists |
| HashCode.IndexOfPolynomial | source/table.c:70-76 | the same of the bucket that the table's specification names |
| HashCode.SomeBuckets | source/table.c:63-77 | the buckets of three keys in five lists, one with a polynomial beyond an int and one with a negative char |
| HashCode.HornerIsPolynomial | source/table.c:70-73 | the loop modulo any number is the base-31 polynomial with seed 7 modulo that number |
| HashCode.LowBitsSuffice | source/table.c:70-76 | the int that the 64-bit sum is cut down to is the one a 32-bit loop would give |
| Buckets.PutInBucket | source/table.c:86-101 | adding an entry to the bucket of its hash updates the whole map at that key only |
| Buckets.RemoveFromBucket | source/table.c:122-128 | removing from the bucket of the hash removes the key from the whole map |
| Buckets.MergedAt | source/table.c:107-115 | a key is in the table exactly when it is in the bucket of its hash |
| Buckets.FlatIsComplete | source/table.c:149-202 | going through the buckets lists every key of the map, as many entries as keys |
| Buckets.ListedOnce | source/table.c:149-202 | no key is listed twice |
| Buckets.ListedInOrder | source/table.c:149-202 | the listing goes by bucket number, and inside a bucket by key |
| Buckets.RowsAreCanonical | source/table.c:149-167 | tables of the same length with the same map are equal bucket by bucket, so they list their keys alike |
| HashTable.Table.Put | source/table.c:86-101 | the map is updated with a copy of the block, only one bucket changes; -1 for a null key, a null or an empty block, and then nothing changes |
| HashTable.Table.Get | source/table.c:107-115 | a fresh copy of the stored block, or null exactly when the key is absent |
| HashTable.Table.Remove | source/table.c:122-128 | the key is gone, only one bucket changes; 0 exactly when it was there, 1 when not, -1 for a null key |
| HashTable.Table.Size | source/table.c:133-142 | the number of keys of the map |
| HashTable.Table.GetKeys | source/table.c:149-167 | every key once, in exactly as many slots as the map has keys, then a null |
| HashTable.Table.GetEntries | source/table.c:169-202 | fresh copies of all entries in exactly as many slots as the map has keys, then a null |
| HashTable.Create | source/table.c:21-37 | a table with n empty lists, or null for n <= 0 |
| HashTable.Dup | source/data.c:50-61 | a fresh block with the same bytes, null exactly for an empty one |
| Skeleton.Server.Invoke | source/table_skel.c:44-271 | for put, del, get and size the message becomes the answer that the map gives, the result code encodes it, and the tables and counters along the chain change as the operation says, as far as its requests get through; key and table listings are complete, the statistics hold the counter; no other field of the message changes; a put without an entry breaks the process down, anything else is refused without effect |
| Skeleton.WhatAnswersSay | source/table_skel.c:49-175 | the result codes and the codes and fields of the responses: 0 and CT_NONE for a key that a del removed, 1 and CT_BAD for one that was missing, and so on; no other field changes |
| Skeleton.RequestBytes | source/client_stub.c:62-211 | the bytes of the requests for put, del, get and size |
| Skeleton.Server.InvokePut | source/table_skel.c:49-90 | the put of an empty block is refused before anything happens; any other is stored here and at every server it reaches, counted once, and answered 0 and CT_NONE; without an entry the process breaks down before anything happens |
| Skeleton.Server.InvokeGet | source/table_skel.c:92-124 | the stored block, or the null value for an absent key; only the counter changes |
| Skeleton.Server.InvokeDel | source/table_skel.c:126-155 | the key is removed here and at every server the del reaches; the result is 0 and the response CT_NONE if it was here, 1 and CT_BAD if not; the process breaks down exactly when there is a successor path without a handle |
| Skeleton.Server.InvokeSize | source/table_skel.c:157-175 | the number of keys of the table; only the counter changes |
| Skeleton.Server.InvokeGetTable | source/table_skel.c:199-237 | the response lists the entries of the table in bucket order |
| Skeleton.Server.InvokeGetKeys | source/table_skel.c:177-197 | the response lists the keys of the table in bucket order |
| Skeleton.NetworkSendReceive | source/network_client.c:68-98 | a response arrives exactly when the call is delivered, request and response both fit one chunk, the operation did not fail and the server did not break down; the server executes a call whose reply is lost, and none whose request is too long |
| Skeleton.RtablePut | source/client_stub.c:62-100 | 0 exactly when the call is delivered, the block is not empty and the request fits one chunk; the chain changes as the put says |
| Skeleton.RtableGet | source/client_stub.c:105-146 | a fresh block with the stored bytes exactly when the call is delivered, the key is there and request and response fit one chunk |
| Skeleton.RtableDel | source/client_stub.c:152-184 | 0 exactly when the call is delivered, the key was there, the server survives and the request fits one chunk; a null handle is dereferenced |
| Skeleton.RtableSize | source/client_stub.c:188-211 | the number of keys, or -1 exactly when the call is not delivered |
| Skeleton.RtableGetKeys | source/client_stub.c:217-247 | the array that the table itself would give, exactly when the call is delivered and the listing fits one chunk |
| Skeleton.RtableGetTable | source/client_stub.c:266-304 | fresh copies of the entries of the table, and a null after the last, exactly when the call is delivered and the listing fits one chunk |
| Skeleton.RtableStats | source/client_stub.c:326-354 | the clients, the accepted operations and the time of the server, and none exactly when the call is not delivered; nothing changes |
| Skeleton.Server.InvokeStats | source/table_skel.c:239-260 | the response holds the statistics, which do not count this request |
| Skeleton.ShortAnswers | source/table_skel.c:83-86 | the answer to a put, a del or a size is no longer than one chunk if the request is not |
| Replication.UpdateReaches | source/table_skel.c:71-74 | an accepted update changes exactly the servers before the first lost request, each as if it were alone |
| Replication.AgreementIsKept | source/table_skel.c:71-74 | servers that agreed still agree exactly when every request got through or the update changes nothing |
| Replication.LostForwarding | source/table_skel.c:73 | a delivered put with a lost request behind the head: the client sees success and the tail does not have the key |
| Replication.ChainServesOneMap | source/table_skel.c:63-80 | over any sequence of requests the first server's table is that of a single map, and so are all others when no request is lost |
| Connection.ServeConn | source/server_thread.c:16-60 | any messages, in turn: each gets the right answer about the table that the ones before have left, and the connection ends early exactly at the first one that invoke refuses, or that breaks the process down; the client is counted in and out |
| Connection.ConnectionSeesOneMap | source/table_skel.c:44-271 | the tables those answers are about are one map to which the updates of the connection are applied in turn, whatever happens to the calls between the servers |
| Packing.WholeIsSmall | source/message.c:113-138 | a packed message arrives whole exactly when it has at most 2048 bytes |
| Packing.LongListing | sdmessage.proto:44-56 | a listing of keys or entries with more than 2048 bytes in keys and blocks does not arrive whole |
| Packing.OneEntry | sdmessage.proto:6-10 | a message with one entry arrives whole exactly when the fields of the entry have at most 2041 bytes with tags and lengths: always up to 2035 bytes of key and block, never beyond 2048 |
| Packing.SingleBytes | sdmessage.proto:6-56 | the bytes of a message with an entry, a key or a block |
| Packing.ListingBytes | sdmessage.proto:44-56 | the bytes of a listing: its codes, the keys, the entries |
| Packing.ListedBytes | sdmessage.proto:44-56 | each listed key and entry adds one field with its tag and length |
| Packing.StatsBytes | sdmessage.proto:12-16 | the bytes of small statistics |
| StateTransfer.DupTable | source/table_server.c:164-185 | with any operations landing between the two calls, the first entries of the table that was sent, as many as the tail has keys later, are stored over what is there; the process breaks down exactly when that is more than were sent; without both calls delivered, or with a listing that does not fit one chunk, the table stays as it was |
| StateTransfer.Fill | source/table_server.c:174-182 | the first count entries are stored in order over what is there; with a count beyond the entries the loop reaches the null pointer |
| StateTransfer.CopyNeedsBothCalls | source/table_server.c:169-177 | for any size, the copy into an empty table is the table that was sent exactly when the listing fits one chunk and the size is the number of entries sent |
| StateTransfer.JoinerAgrees | source/table_server.c:169-182 | for any operations between the two calls: with a listing that does not fit one chunk, as any with more than 2048 bytes in keys and blocks, the joining server has nothing; otherwise it breaks down exactly when the tail has more keys than before; with as many it agrees with the tail exactly when the tail's table is the one that was sent; with fewer, exactly when the tail has lost just the keys listed last |
| StateTransfer.CutShort | source/table_server.c:175-182 | a copy that is cut short lacks exactly the keys that were listed last |
| StateTransfer.QuietWindow | source/table_server.c:169-171 | reads and refused puts between the two calls change nothing |
| StateTransfer.WindowsThatMatter | source/table_server.c:169-182 | a new key, an overwritten value and a deleted key between the two calls: break down, stale copy, right copy; a table with one large entry: no copy |
| KvSpec.CopyIsFaithful | source/table_server.c:175-182 | storing the entries of a map one by one into an empty one gives the map, in whatever order they are listed |
| Topology.ChildrenAbsZpaths | source/zoo_utils.c:14-35 | the absolute paths, ordered among each other as the children are |
| Topology.SelectSuccessor | source/server_callbacks.c:49-57 | the path in the list that is greater than the own one and before which no other such path stands, or the empty string exactly when there is none |
| Topology.NextIsGreater | source/server_callbacks.c:49-57 | the successor is strictly greater, and there is none exactly at a largest path |
| Topology.NextIsFirst | source/server_callbacks.c:49-57 | no greater path stands before the successor in the list |
| Topology.Link.WatchChildren | source/server_callbacks.c:30-89 | which path the callback leaves behind and what the handle points to, for every event, list and failure: after a new path with a registered address the handle is open to that very address if it accepts the connection, and null if not |
| Topology.SelectHead | source/client_callbacks.c:49-60 | the smallest path |
| Topology.SelectTail | source/table_server.c:90-102 | the largest path |
| Topology.Ends.WatchChildren | source/client_callbacks.c:30-106 | after a child event the client's head is the smallest path and its tail the largest; a handle is connected anew exactly when its path has changed, and is then open to the registered address if that accepts the connection, and null if not |
| Topology.WalkGoesUp | source/server_callbacks.c:49-57 | with a list for each server, all of the same paths in any order, following successors goes strictly upwards, never returns and ends at the largest path |
| Topology.UpdatesEndAtTheTail | source/table_client.c:83-107 | for any order of the servers' lists, updates that enter at the clients' head end at the clients' tail |
| Topology.EveryServerIsInTheChain | source/server_callbacks.c:49-57 | the walk from the head passes every server exactly when each server's own list gives it the nearest greater path; with one list for all, exactly when the list of distinct paths is ascending apart from its smallest element |
| Topology.AscendingListIsTheChain | source/server_callbacks.c:49-57 | the chain of an ascending list is the list itself |
| Topology.LeavingServer | source/server_callbacks.c:62-88 | when a server leaves an ascending list the chain is what it was without it |
| Topology.JoiningServer | source/table_server.c:134-142 | a server with the greatest path joins at the end of the chain |
| Topology.NotKnowingItself | source/table_server.c:79-145 | a callback that runs before the own path is stored selects the first path of the list, and from there the links of the others lead back to the last server |
| Topology.PassedOver | source/server_callbacks.c:49-57 | in the order c, a, b the server b is outside the chain |
| Framing.SendAll | source/message.c:35-85 | 2 + size exactly after the whole frame was written; 0 or -1 after a part of it; a size that a short cannot hold is packed beyond the buffer |
| Framing.ReceiveAll | source/message.c:94-141 | if anything is unpacked, exactly one frame has been taken off the stream and what is unpacked is its last chunk; over a smooth stream it says exactly when there is a message and when the connection counts as broken |
| Framing.Exchange | source/message.c:35-141 | any sequence of messages of at most 32767 bytes leaves the stream empty, and arrives whole exactly when none has more than 2048 bytes |
| Framing.WholeMessages | source/message.c:113-138 | what is unpacked is the message exactly up to 2048 bytes |
| Framing.LastChunkIsSuffix | source/message.c:113-138 | what is unpacked is the part behind the last full chunk |
| Framing.FrameStart | source/message.c:36-47 | a frame has its size in two bytes, the higher first, and can be told from what follows it |
| KeyArray.KeyArrayToBuffer | source/serialization.c:22-49 | the size is 4 plus the sum of the lengths and terminators, the buffer has exactly that size and the printed format; -1 for a null pointer |
| KeyArray.BufferToKeyArray | source/serialization.c:58-74 | parsing a buffer that begins with a printed list gives back that list and reads nothing behind it |
| KeyArray.PrintedIsInjective | source/serialization.c:22-49 | no printed list is the beginning of the print of another list |
| KeyArray.CountRoundTrip | source/serialization.c:45-46 | the count survives network byte order (Appendix B of RFC 791) |
| KeyArray.PrintedSize | source/serialization.c:28-35 | the size computed in the first pass is the length of what is printed |
| KeyArray.PrintedIsLaidOut | source/serialization.c:37-49 | the print begins with the count, highest byte first; each string stands right behind the zero byte of the one before |
| ThreadPool.Pool.MainLoop | source/network_server.c:91-165 | whatever connections come and threads do, the count of clients is the number of threads between their +1 and their -1, and at most the slots in use, which are at most 5000; each pass sweeps and serves as Pass says, and the loop ends with an error exactly at a pass that begins with a slot in use without a thread |
| ThreadPool.Pool.Pass | source/network_server.c:105-165 | the pass fails exactly when a slot is in use without a thread; otherwise the slots in use are those the sweep left, and the lowest vacant one exactly when there is one and a connection was accepted, which holds a thread exactly if it was created |
| ThreadPool.ThreadsAreStarted | source/network_server.c:148-158 | over all passes, as many threads are started as there are passes with an accepted connection, a vacant slot and a created thread |
| ThreadPool.CountsAreSizes | source/network_server.c:99-155 | the count of clients is the number of slots whose threads serve, and the count of slots in use is their number |
| ThreadPool.Pool.Shutdown | source/network_server.c:173-180 | after the remaining threads are joined no client is counted |
| ThreadPool.Pool.Sweep | source/network_server.c:107-121 | exactly the slots whose threads were joined are freed; it ends with an error exactly when a slot was in use without a thread, and without one no thread that had ended is left, and every slot in use has a thread |
| ThreadPool.Pool.TryJoin | source/network_server.c:109-119 | the slot of a thread that has ended is freed, that of one that has not is kept, and a slot in use without a thread is an error |
| ThreadPool.Pool.Assign | source/network_server.c:148-158 | a new connection takes a vacant slot and changes no other, whether its thread can be created or not |
| ThreadPool.Pool.FindVacant | source/network_server.c:124-130 | the first slot that is not in use, or -1 when all are |
| ThreadPool.Pool.Advance | source/server_thread.c:20-54 | a thread counts its client in once and out once |
| ThreadPool.ServingFewerThanActive | source/network_server.c:99-155 | no more threads serve than slots are in use |

## Left out

- Sockets, addresses, `errno` beyond EINTR, signals, sleeps and printing. A connection is a byte stream (`Framing`) or a call that is delivered or loses its request or its reply (`Skeleton`).
- Unpacking: a message that arrives whole is taken to be the one that was packed. A bytes field without bytes is the null pointer; a result is packed with its 32 bits and otherwise unbounded.
- What a process does with a message longer than one chunk. `message_receive_all` unpacks the last chunk and then frees an address inside the block, which C leaves undefined; here no message comes out, and the receiver goes on as after a broken connection.
- Freeing memory, allocation failures and leaks.
- The ZooKeeper client, its sessions and the registration of the watch; a watch event is a call of the callback with a list of children. Servers learn of a change of the membership in one step of the chain, together; clients may go on reading from any server, as they do after a join, and lose a server that leaves.
- `resources` and the client's `rtable_head` and `rtable_tail` as variables that the callback changes under running threads; the chain changes its links between steps, and `Skeleton` keeps them fixed while calls are served.
- Messages longer than one chunk in the concurrent chain, where every message arrives whole.
- Broken connections between servers that stay. In the chain a connection breaks only when one of its ends leaves; what lost calls do to a chain that is otherwise idle is in `Replication` and `Skeleton`.
- The window of a join in the concurrent chain: copying, registering and linking are one step there, possible while the tail has no update between its application and the look at the successor path, and whose listing arrives. Operations in the window and listings that do not arrive are in `StateTransfer`, one at a time.
- OP_GETKEYS and OP_GETTABLE under concurrency: each reads a part of what it sends outside the lock. They are proved for one call at a time.
- The clock: the time counter grows by an arbitrary amount. OP_STATS is not part of the concurrent chain.
- The locking of the counters of `source/stats.c`: in `Skeleton` they are plain fields; loading and storing a counter inside a write section is part of the transition system of the lock.
- `pthread_cond_wait` as a call: in `MutexLocks` it is the others' turns, each a whole critical section; single statements interleave in `LockProtocol` only. Spurious wakeups are in `LockProtocol`.
- Int width of the table size, of `n_operacoes` and of `n_clientes`, which is unbounded here. `writers_waiting` and the hash code have their width.
- Casts to narrower signed types and signed `char` follow the usual two's complement conventions.
- The search loops of `list_add` and `list_remove` treat the head apart; here one loop starts at the head.
- A key buffer that is not the print of a list, which the parser would read past: callers have to rule it out here too.
- Null lists and tables as receivers, and branches that only an allocation failure can reach.
- The tail selection of a joining server starts from memory that is not initialised; it is taken to hold the empty string.
- The use of a slot whose thread could not be created, beyond the error it leads to; at shutdown it is skipped.
- The load and the store of the client count are one step in `ThreadPool` and `Connection`; `LockResults.ClientsAreCounted` has them apart.
- Calls through a handle that points to freed or blank memory: `Topology` says when there is one, `Skeleton` has handles that are null or connected.
- The command line, `parse_operation`, `children_has_difference` and `source/address.c`.
- LockResults.EverySectionEnds: without spurious wakeups, of which POSIX allows any number.
