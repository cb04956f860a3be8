# PetPS: a verified model of the key-value store

PetPS keeps embedding vectors in persistent memory. Each shard is a hash table of
14-slot chunks (`PetHash`) whose values are packed offsets into a memory pool
(`PersistMemoryPool`). Replaced blocks are freed through epochs (`EpochManager`,
`ShmEpochRecycle`), so that readers can use a block without a lock. `PetKV` puts the
parts together, and a client spreads a batch of keys over the shards.

The project models this in Dafny and proves what the parts and the whole guarantee.
`dafny verify dfyconfig.toml` checks everything.

| modules | model |
|---|---|
| Probe, Table, Sizing | probe sequence, chunks and tables as values, the counting invariant, lookup |
| Writer, Changes | the writer as a machine whose steps are single stores; what its runs do to the map |
| PetHash | the hash table as a class; every store is logged as a step of that machine |
| Reader, Beside | a lock-free lookup that runs beside the writer; the same from the tags of the table to the bytes of the value, beside whole updates |
| Recovery, Race, Audit, Reopen | Reload, its threads, the check on opening, crashes |
| Migration, Hotness | hotness-aware migration |
| Reach, Missed | tables that are reached store by store from the empty one, and concrete ones on which a migration, a crash or Reload goes wrong |
| Epoch, Epochs, Recycle | the epoch protocol as a machine of many threads; manager and queue as classes that log its steps |
| Bits, BitMap, Layout, Chunks, Headers, Images, Pool, Malloc | word bitmap, block layout, the pool, and the pool as a map from blocks to values |
| Packing, Index, Ledger, PetKV, Shard, Restart | packed words, the index, who owns which block, one shard, its runs and its restart |
| Scatter | a batch spread over the shards and put together again |
| Options, Seals | an option type; seals that keep large invariants folded |

Hash and checksum are arbitrary functions throughout, so nothing depends on their values.

## Findings

Where the code does not do what its comments, tests or structure promise, the model
follows the code. Each departure has a concrete instance and an exact condition.

| departure | instance | exact condition |
|---|---|---|
| Migrating a hot key into a home chunk with room (`src/pet_kv/pet_hash.h:430`) lowers the counter of the chunk it leaves, not those it used to pass | `Missed.CaseOneMisses`, on a table that `Missed.BeforeIsReached` reaches by inserts and deletes | `Migration.CaseOneExactly` for the invariant, `Migration.CaseOneLoses` for lost keys: exactly if that counter was 1. The third case of `CaseOneExactly`, a counter above its true count, cannot be read off the chunk |
| An update retires a block before it unlinks it, and every thousandth retirement bumps the epoch in between (`src/memory/malloc.h:98`, `src/pet_kv/pet_kv.cc:133-134`) | `Epoch.UpdateOrderIsUnsafe` | `Epoch.EpochSafety` and `Epoch.BumpBetweenIsUnsafe`; for a shard `PetKV.PetKV.Replace`: exactly the thousandth retirements. Only readers that come in during the call are in danger: `Shard.ReadThenUpdate`, `Beside.LookupsBesideUpdates` |
| All shards share one epoch manager (`src/memory/malloc.h:87`), so another shard's bump has the same effect | `Epoch.ForeignBumpsFree`, `Epoch.ForeignBumpIsUnsafe` | `Epoch.BumpBetweenIsUnsafe`, whoever bumps |
| Opening a table after a crash first checks it and wipes it if the check fails (`src/pet_kv/pet_kv.cc:67-68`), and the check reads fields that Reload does not need | `Missed.CrashLosesAll`, `Reopen.InsertHasGap` | `Reopen.PassesExactly`, `Reopen.ReopenKeeps` |
| A key evicted at the load limit leaves its block allocated (`src/pet_kv/pet_hash.h:557`), and the next start compares the two counts (`src/pet_kv/pet_kv.cc:79`) | `Restart.EvictAndReopen` | `Restart.CloseAndReopen`, `Restart.KillAndReopen`, `Restart.UpdateAndCrash` |
| The same comparison fails while a replaced block waits, and from the moment an update has taken its block until its last store | `Restart.UpdateAndCrash` with a stored key | `Restart.KillAndReopen`, `Restart.UpdateAndCrash` |
| Reload leaves the tag of an empty slot as it is (`src/pet_kv/pet_hash.h:175`) | `Recovery.EmptyMarkIsLost` with the key 2^64-1 | `Recovery.ReloadRestores` |
| Reload leaves the migration marks as they are (`src/pet_kv/pet_hash.h:166-190`), so after a crash in a migration a lookup that ends over a marked chunk starts over each time (`src/pet_kv/pet_hash.h:351`, `src/pet_kv/pet_hash.h:368`) | `Missed.MarksOutliveReload` | `Recovery.ReloadRestores`, `PetHash.PetHash.GetInternal`; the check on opening hangs only as `Audit.CheckValid` says |
| Reload is not the identity on intact tables, as the recovery test expects | `Missed.ReloadUnsticks` | `Recovery.ReloadIsIdentity` |
| A request is cut to 500 keys per shard (`src/ps/allshards_ps_client.h:57-60`), the result is not | `Scatter.LastIsStale`, the 501st key of a shard | `Scatter.GetParameter`, `Scatter.Batch` |

## Assumptions

- Stores become persistent in program order, and each of them whole.
- A thread withdraws an epoch only if it has published one. The server withdraws once at
  `src/ps/petps_server.cc:234` and again when the write completes, at
  `src/ps/petps_server.cc:284-286`; the second withdrawal is not covered.
- A shard's answer to a client stays in the receive buffer until the batch is done.
- In the classes one shard has the epoch manager to itself. What the other shards' bumps
  do is stated for the machine.
- A failed CHECK and a fatal log message stop the program. So does asking a perfect-fit
  pool for a size it has no chunks for, which is a CHECK in debug builds only.

## Model

| member | source | states |
|---|---|---|
| `Probe.Geometry.VisitsEvery` | src/pet_kv/pet_hash.h:504-509 | within n steps of an odd stride modulo a power of two a key visits every chunk |
| `Probe.Geometry.PosInjective` | src/pet_kv/pet_hash.h:366 | no chunk is visited twice within n steps |
| `Probe.Geometry.PosPeriod` | src/pet_kv/pet_hash.h:366 | after n steps the walk starts over |
| `Probe.Geometry.PosBack` | src/pet_kv/pet_hash.h:377-381 | one step back is the signed remainder that PrevChunk computes |
| `Probe.Geometry.PosInNumbers` | src/pet_kv/pet_hash.h:504-509 | the i-th chunk of a key is its hash plus i times twice its tag and one, modulo the number of chunks; the tag is 128 plus seven bits of checksum |
| `Sizing.Next2Power` | src/pet_kv/pet_hash.h:251-255 | the loop returns the least power of two that is at least the argument, up to 2^63 |
| `Sizing.OverFallChunkNum` | src/pet_kv/pet_hash.h:133-136 | the number of chunks is the least power of two that holds the capacity at 14 keys each |
| `Sizing.MemoryRoundTrip` | src/pet_kv/pet_hash.h:242-249 | a table occupies exactly the memory that its own capacity calls for, and no other size passes |
| `Table.LookupFinds` | src/pet_kv/pet_hash.h:332-370 | in a table whose counters are high enough, stopping at a zero counter misses no stored key |
| `Table.LookupIsMapLookup` | src/pet_kv/pet_hash.h:332-370 | on such a table a lookup is lookup in the map of stored keys, both found and not found |
| `Table.FoundExactly` | src/pet_kv/pet_hash.h:365 | whatever the counters are, a stored key is found if and only if no counter on its path is 0 |
| `Writer.EveryStep` | src/pet_kv/pet_hash.h:72-98 | every single store of Insert, Delete and Set keeps the invariant (slots, counters, size fields up to the known skew) and changes the persisted map as stated for it |
| `Writer.RunInv` | src/pet_kv/pet_hash.h:511-584 | so does every run of such stores, from any state that satisfies the invariant |
| `Writer.CutIsAtomic` | src/pet_kv/pet_hash.h:80-98 | a run with one effectful store has the persisted map before it or after it at every moment |
| `PetHash.PetHash.constructor` | src/pet_kv/pet_hash.h:138-147 | a new table is intact, empty and has the right number of chunks |
| `PetHash.PetHash.Initialize` | src/pet_kv/pet_hash.h:138-147 | starting over gives an intact empty table |
| `PetHash.PetHash.Find` | src/pet_kv/pet_hash.h:60-70 | the bit-mask scan returns the first lane whose tag and key match |
| `PetHash.PetHash.GetInternal` | src/pet_kv/pet_hash.h:332-370 | over any table: it finds nothing exactly if no chunk that it can come to, past nonzero counters only, has the tag and the key; it goes back to the start exactly if then one of these chunks is marked |
| `Table.LookupFails` | src/pet_kv/pet_hash.h:332-370 | the same for the lookup function from any step on |
| `Table.RetriesExactly` | src/pet_kv/pet_hash.h:351-368 | the same for the retry |
| `PetHash.PetHash.Get` | src/pet_kv/pet_hash.h:311-316 | a value is returned exactly for the stored keys, and it is the stored one |
| `PetHash.PetHash.LowerPath` | src/pet_kv/pet_hash.h:576-580 | the counters of the chunks a key passes are lowered one by one, each a step of the machine |
| `PetHash.PetHash.Vacate` | src/pet_kv/pet_hash.h:93-98 | tag, key, chunk size and table size are cleared in this order, each a step of the machine |
| `PetHash.PetHash.Delete` | src/pet_kv/pet_hash.h:567-584 | the key is removed and nothing else; at every store on the way the persisted map is the one before or after |
| `PetHash.PetHash.Purge` | src/pet_kv/pet_hash.h:520-527 | in a chunk of at least 12 keys exactly the keys that the check gives up are deleted, in a smaller one none |
| `PetHash.PetHash.PlaceIn` | src/pet_kv/pet_hash.h:72-85 | the item goes to the first empty lane: size, item, tag, table size, each a step of the machine |
| `PetHash.PetHash.Evict` | src/pet_kv/pet_hash.h:547-557 | a forced insert at the load limit deletes the key in lane sign + i |
| `PetHash.PetHash.Insert` | src/pet_kv/pet_hash.h:511-566 | the key is stored; a home chunk of 14 keys, all kept, in a table at 90 per cent costs the key in lane tag mod 14, and otherwise only keys that the check gives up go, from chunks of at least 12 keys; it fails exactly in the former case, if force is off or there is only one chunk; every store is logged and leaves a stage of the map |
| `PetHash.PetHash.Set` | src/pet_kv/pet_hash.h:493-502 | overwrite or insert, with the same account of the map |
| `PetHash.PetHash.Assign` | src/pet_kv/pet_kv.cc:133-135 | storing through the pointer of a stored key changes that key only |
| `PetHash.PetHash.ReloadKeys` | src/pet_kv/pet_hash.h:163-194 | the first pass rebuilds tags and sizes from the keys and clears the counters |
| `PetHash.PetHash.ReloadCounters` | src/pet_kv/pet_hash.h:199-239 | the second pass, run by one thread, makes each counter the capped number of keys that pass |
| `PetHash.PetHash.ReloadAll` | src/pet_kv/pet_hash.h:150-240 | Reload as code computes the Reload function; from distinct keys and no tagged empty slot it gives an intact table holding what was persisted |
| `Reader.NeverMisses` | src/pet_kv/pet_hash.h:332-370 | a lock-free lookup that reads tags, keys and counters one at a time, while a writer runs, never ends without a key that stays stored meanwhile |
| `Reader.AlwaysFinds` | src/pet_kv/pet_hash.h:332-370 | after 20 reads per chunk and one more it has found the key, with a value the key had during the lookup |
| `Reader.NeverInvents` | src/pet_kv/pet_hash.h:332-370 | a lookup for a key that is persisted at no moment of it answers, after as many reads, that the key is absent |
| `Reader.FoundIsRead` | src/pet_kv/pet_hash.h:353-363 | whatever the writer does, a lookup that answers has seen the tag, later the key and later still the value in one slot |
| `Recovery.ReloadRestores` | src/pet_kv/pet_hash.h:150-240 | from any table of distinct persisted keys, whatever its tags, sizes, counters and marks, Reload restores the whole invariant if and only if no empty slot carries a tag and no chunk is marked; the map is what was persisted as soon as the former holds |
| `Recovery.MarkedLookupRetries` | src/pet_kv/pet_hash.h:351-368 | after reloading a marked table, a lookup of a key that is not stored starts over if and only if its way leads to a marked chunk |
| `Recovery.ReloadIsIdentity` | test/persist_pet_hash_test.cc:96-105 | reloading an intact table changes nothing, as the test demands byte by byte, if and only if no counter is stuck at 255 with fewer than 255 keys passing |
| `Recovery.EmptyMarkIsLost` | src/pet_kv/pet_hash.h:175 | the key 2^64-1 can be inserted and found, but reloading restores an intact table if and only if the key inserted is another one; its tag then stays on a slot that counts as empty |
| `Recovery.CrashRecovers` | src/pet_kv/pet_hash.h:150-240 | at every moment of every run, Reload would give an intact table holding exactly what is persisted then |
| `Recovery.CrashIsAtomic` | src/pet_kv/pet_hash.h:150-240 | so an operation cut anywhere and reloaded leaves the map before it or after it |
| `Race.RaceEnds` | src/pet_kv/pet_hash.h:226-231 | threads that raise shared counters by compare-and-swap, in any interleaving, end with each counter at the total, or at 255 |
| `Race.RaisesWhatItLoaded` | src/pet_kv/pet_hash.h:226-231 | in every run a counter goes up by one at a time, and by a thread that loaded this very value at its last step |
| `Race.SwapFails` | src/pet_kv/pet_hash.h:226-231 | a run in which a thread is overtaken and has to try again |
| `Race.CanFinish` | src/pet_kv/pet_hash.h:199-239 | every state has a continuation that ends with all work done |
| `Race.ConcurrentReload` | src/pet_kv/pet_hash.h:199-239 | the second pass run by any number of threads, in any interleaving, gives the counters of the sequential Reload |
| `Audit.CountFound` | src/pet_kv/pet_hash.h:277-292 | the loop over all slots tells whether every key in use is found, and how many there are, or does not end, and which of these it is |
| `Audit.CheckValid` | src/pet_kv/pet_hash.h:257-302 | given the persisted capacity, Valid answers true if and only if capacity, memory size, size fields and the lookups of all keys in use agree; it fails to end only if the first key that is not found leads over a marked chunk |
| `Audit.NeverEndless` | src/pet_kv/pet_hash.h:257-302 | on a table without marks the check ends |
| `Audit.IntactPasses` | src/pet_kv/pet_hash.h:257-302 | every intact table passes |
| `Reopen.PassesExactly` | src/pet_kv/pet_kv.cc:67-77 | at any moment of the writer the check passes if and only if the writer is at rest, has only raised counters, or is lowering counters and has not yet shut off its own key |
| `Reopen.ReopenAt` | src/pet_kv/pet_kv.cc:67-77 | opening the table again after a crash at any moment gives an intact table that holds what was persisted, or nothing if the check does not pass |
| `Reopen.ReopenKeeps` | src/pet_kv/pet_kv.cc:67-77 | for every state of every run, what was persisted is kept if and only if that moment survives the check or nothing was persisted |
| `Reopen.ReopenIsAtomic` | src/pet_kv/pet_kv.cc:67-77 | an operation cut anywhere leaves the map before it, the map after it, or nothing, the last exactly where the check fails |
| `Reopen.InsertHasGap` | src/pet_kv/pet_hash.h:543-544 | every Insert passes a moment, between the two size stores, at which a crash costs the whole table |
| `Missed.CrashLosesAll` | src/pet_kv/pet_kv.cc:67-69 | a concrete moment, reached store by store from the empty table, with two keys persisted, at which a crash in a Delete that lowered one counter reopens as the empty table |
| `Missed.BeforeIsReached` | src/pet_kv/pet_hash.h:511-584 | the table behind it is reached from the empty one by stores that Insert and Delete make, each with the guard it has in the code: 14 keys, key 0, which is displaced, the 14 deleted, then 13 keys and key 1 likewise |
| `Missed.ReloadUnsticks` | test/persist_pet_hash_test.cc:96-105 | an intact table that Reload changes: a counter at 255 that no key passes |
| `Missed.MarksOutliveReload` | src/pet_kv/pet_hash.h:166-190 | a table cut in a migration: reloaded, it holds its keys, is not intact, and the lookup of a key that is not stored starts over |
| `Reach.InsertsPast` | src/pet_kv/pet_hash.h:542-561 | an Insert that goes past a full home chunk below the load limit is a run of single stores |
| `Reach.DeletesHome` | src/pet_kv/pet_hash.h:567-584 | a Delete from the home chunk is one too |
| `Migration.CaseOneExactly` | src/pet_kv/pet_hash.h:424-436 | moving a hot key into its home chunk keeps the map, and keeps the invariant if and only if the counter of the chunk it left is 0, stuck, or higher than the number of keys that pass it |
| `Migration.CaseOneOnExact` | src/pet_kv/pet_hash.h:424-436 | where the counters were exact: if and only if that counter is 0 or 255 |
| `Migration.CaseOneCounter` | src/pet_kv/pet_hash.h:90-92 | the counter of the chunk the key left: 255 stays, 0 wraps around to 255, any other goes down by one; no other counter changes |
| `Migration.CaseOneLoses` | src/pet_kv/pet_hash.h:424-436 | where the counters were exact, every stored key is still found if and only if that counter was not 1 |
| `Missed.CaseOneMisses` | src/pet_kv/pet_hash.h:430 | a concrete intact table in which the move makes a stored key unfindable |
| `Hotness.MarkChain` | src/pet_kv/pet_hash.h:384-392 | exactly the chunks from the current one back to the home chunk get the mark |
| `Hotness.FindRoom` | src/pet_kv/pet_hash.h:448-475 | the search for room for the victim succeeds exactly if the victim is not stranded, and its counters account for the chunks it passed |
| `Hotness.MoveIn` | src/pet_kv/pet_hash.h:424-436 | case 1 as code |
| `Hotness.SwapIn` | src/pet_kv/pet_hash.h:437-490 | case 2 as code: it succeeds exactly if the victim finds room, and then the map, the size and the invariant are kept and the two items are in their new places |
| `Hotness.CaseTwo` | src/pet_kv/pet_hash.h:437-490 | a rotation of the two items with its counter changes keeps the whole invariant |
| `Hotness.Migrate` | src/pet_kv/pet_hash.h:404-491 | for one hot key: which of the five outcomes occurs, what it does to the table, and when the table is intact afterwards; with a full home chunk it gives up exactly if the table is at 90 per cent and the next chunk on the way of the key in lane 0 is full |
| `Hotness.MigrateAll` | src/pet_kv/pet_hash.h:404-491 | for a list of hot keys, up to the first that case 1 would move away from a chunk with a live counter: from table to table each key is migrated and ends up in its home chunk, with the map kept and the table intact; the program stops exactly at a key that is not stored or whose migration gives up |
| `Hotness.EndsAtHome` | src/pet_kv/pet_hash.h:404-491 | whatever the outcome of a migration that goes on, the home chunk matches the hot key |
| `Epoch.EpochSafety` | src/memory/epoch_manager.h:136-184 | however loads, publications, reads, withdrawals, scans and frees of any number of threads interleave, no block is freed while a protected session holds it, if no bump starts between a retirement and the unlinking of that block |
| `Epoch.PublishesLoaded` | src/memory/epoch_manager.h:150-152 | in every run a thread publishes the epoch that was current when it last loaded it, and nothing else changes |
| `Epoch.PublishesLate` | src/memory/epoch_manager.h:150-152 | for every number of bumps there is a run in which a session is published that many epochs behind |
| `Epoch.StoresWhatItSaw` | src/memory/epoch_manager.h:67-80 | in every run a bump stores one less than the oldest epoch that it saw, where each thread is read at a moment of its own, or than the epoch that it bumped |
| `Epoch.SafeMovesBack` | src/memory/epoch_manager.h:160-173 | two bumps at once: the slower one takes the safe epoch back |
| `Epoch.BumpBetweenIsUnsafe` | src/memory/epoch_manager.h:160-163 | the condition cannot be relaxed: after any legal run, a bump that breaks it leads on to a state in which a held block is freed |
| `Epoch.LateUnlinkIsUnsafe` | src/memory/epoch_manager.h:160-163 | any state with a linked block retired in an earlier epoch leads on to such a state |
| `Epoch.UnlinkingFirstIsDisciplined` | src/memory/malloc.h:90-105 | retiring only unlinked blocks is enough for the condition |
| `Epoch.UpdateOrderIsUnsafe` | src/pet_kv/pet_kv.cc:133-135 | the order of an update, retire, bump, overwrite, has a run that frees a held block |
| `Epoch.ForeignBumpIsUnsafe` | src/memory/malloc.h:87 | after any legal run, a bump by anybody between the retirement of a linked block and its unlinking leads on to a state in which a held block is freed |
| `Epoch.ForeignBumpsFree` | src/memory/malloc.h:92-104 | two bumps by others are enough to free a block within the call that retires it |
| `Epochs.MinEpoch` | src/memory/epoch_manager.h:34-37 | the least published epoch of a thread, 0 if there is none |
| `Epochs.OldestIsLeast` | src/memory/epoch_manager.h:67-80 | the scan over all threads comes out with the least published epoch, or the current one |
| `Epochs.EpochManager.constructor` | src/memory/epoch_manager.h:138-140 | the manager starts at epoch 1 with nothing safe, in the initial state of the machine |
| `Epochs.EpochManager.Protect` | src/memory/epoch_manager.h:150-152 | publishing the current epoch is a load and a publication of the machine |
| `Epochs.EpochManager.UnProtect` | src/memory/epoch_manager.h:154 | withdrawing the oldest epoch is a step of the machine |
| `Epochs.EpochManager.BumpCurrentEpoch` | src/memory/epoch_manager.h:160-173 | a bump is a whole scan of the machine, and keeps the run disciplined if and only if no retired block is linked |
| `Epochs.EpochManager.ReadersAreSafe` | src/memory/epoch_manager.h:165-167 | in every history of calls that is disciplined, no block held by a protected session has been freed |
| `Recycle.ShmEpochRecycle.Recycle` | src/memory/malloc.h:90-105 | the block waits with the current epoch, every thousandth call bumps, exactly the entries whose epoch is safe are freed and in order; the run before is extended, disciplined unless it bumps while a retired block is linked; whatever a published session shelters stays sheltered |
| `Recycle.ShmEpochRecycle.Drain` | src/memory/malloc.h:99-104 | freeing from the front stops exactly where the epochs stop being safe |
| `Recycle.ShmEpochRecycle.Clear` | src/memory/malloc.h:106-111 | everything in the queue is freed and nothing else |
| `Recycle.ShmEpochRecycle.BumpTwice` | src/memory/epoch_manager.h:160-163 | with no reader protected, two bumps make the whole queue safe |
| `BitMap.BitMap.constructor` | src/base/bitmap.h:24-27 | a new bitmap is the empty set |
| `BitMap.BitMap.Get` | src/base/bitmap.h:29-31 | membership |
| `BitMap.BitMap.Set` | src/base/bitmap.h:33-36 | adds one position and no other |
| `BitMap.BitMap.Clear` | src/base/bitmap.h:50-53 | removes one position and no other |
| `BitMap.BitMap.ClearAll` | src/base/bitmap.h:46-48 | the empty set |
| `BitMap.BitMap.NumberOfOnes` | src/base/bitmap.h:38-44 | the size of the set |
| `BitMap.BitMap.FirstZeroPos` | src/base/bitmap.h:55-65 | the word scan finds the least position that is free |
| `BitMap.BitMap.SetZeroPos` | src/base/bitmap.h:67-78 | claims the least free position |
| `Layout.EntryNum` | src/memory/persist_malloc.h:138-152 | the shrinking loop gives the greatest multiple of 64 entries that fit in 2 MiB with 24 bytes of headers and a bit each |
| `Layout.RoomForOne` | src/memory/persist_malloc.h:150 | at least one word of entries fits if and only if the entry size is at most 32767 |
| `Layout.EntryNumber` | src/memory/persist_malloc.h:243-248 | the entry number is recovered from the address |
| `Layout.DecodeEncode` | src/memory/persist_malloc.h:353 | the length written in front of a block is read back |
| `Chunks.Disjoint` | src/memory/persist_malloc.h:250-256 | different live blocks do not overlap |
| `Chunks.ClearOfHeader` | src/memory/persist_malloc.h:250-256 | every live block lies in its chunk, behind the headers and the words of the bitmap |
| `Headers.Header.EntriesAreClear` | src/memory/persist_malloc.h:273-278 | the same for the words that the bitmap really has |
| `Headers.Header.Use` | src/memory/persist_malloc.h:138-158 | giving a chunk an entry size: fails exactly if no word of entries fits, else the bitmap is empty and the number of entries is the one that fits |
| `Headers.Header.Malloc` | src/memory/persist_malloc.h:190-197 | claims the first free entry; there is none exactly if the cached count says full |
| `Headers.Header.Free` | src/memory/persist_malloc.h:199-209 | gives one entry back |
| `Headers.Header.Recover` | src/memory/persist_malloc.h:171-177 | the cached count is the number of ones again |
| `Headers.UseInStep` | src/memory/persist_malloc.h:138-158 | the header with its word bitmap and the chunk of the pool take an entry size in step |
| `Headers.MallocInStep` | src/memory/persist_malloc.h:190-197 | the word scan and the pool claim the same entry |
| `Headers.FreeInStep` | src/memory/persist_malloc.h:199-209 | and give it back in step |
| `Pool.PersistMemoryPool.constructor` | src/memory/persist_malloc.h:291-322 | a new pool has no live block and all chunks free |
| `Pool.PersistMemoryPool.Recover` | src/memory/persist_malloc.h:323-337 | from the persisted headers and bitmaps alone the lists, counts and total come out right, with the same live blocks |
| `Pool.PersistMemoryPool.PickChunk` | src/memory/persist_malloc.h:363-387 | the last used chunk if it has room, else the first free one, else the first of its size with room; none exactly if the size is exhausted |
| `Pool.PersistMemoryPool.New` | src/memory/persist_malloc.h:341-392 | the block is new, of the least entry size that fits and from the chunk to be picked; every live block keeps its place and bytes, the requested size can be read back; it fails exactly if no entry size fits or its chunks are exhausted |
| `Pool.PersistMemoryPool.Store` | src/pet_kv/pet_kv.cc:119 | copying a value into a block touches no other block |
| `Pool.PersistMemoryPool.Free` | src/memory/persist_malloc.h:394-406 | exactly the block at this offset is freed, the others keep their bytes |
| `Pool.PersistMemoryPool.GetMallocSize` | src/memory/persist_malloc.h:457-462 | the length of a live block |
| `Malloc.MallocApi.Put` | src/pet_kv/pet_kv.cc:117-120 | a new block holds the value; the blocks before keep theirs |
| `Malloc.MallocApi.GetMallocData` | src/memory/persist_malloc.h:439-441 | reading as many bytes as the length says gives the value that was put there |
| `Packing.PackRoundTrip` | src/pet_kv/shm_common.h:40-50 | packing an offset and reading it back is the identity if and only if it is -1 or a multiple of 8 below the all-ones pattern |
| `Packing.PackKeepsExpiry` | src/pet_kv/shm_common.h:45-54 | packing an offset leaves the expiry time alone |
| `Packing.ExpiryInNumbers` | src/pet_kv/shm_common.h:52-54 | the expiry time is the low bits of the word, scaled up to 32 bits |
| `Packing.ChooseWidth` | src/pet_kv/pet_kv.cc:174-184 | 48 bits below 32 GiB, else the least width that covers the memory |
| `Packing.WidthSuffices` | src/pet_kv/pet_kv.cc:174-184 | the chosen width packs every offset of the shard |
| `Index.Index.Find` | src/pet_kv/pet_kv.cc:115 | a key has a slot exactly if it is stored, and the word there is the offset of its block |
| `Index.Index.Add` | src/pet_kv/pet_kv.cc:124-131 | the new key leads to the offset; a key pushed out at the load limit is gone; it fails exactly if a key must go and there is one chunk; at every store on the way each persisted key leads where it led or where it will |
| `Index.Index.Move` | src/pet_kv/pet_kv.cc:133-135 | the stored key leads to the new offset and no other key changes, in one store |
| `Ledger.BooksAddUp` | src/pet_kv/pet_kv.cc:79 | every live block is owned by one key, waits in the queue or is lost, and is counted once |
| `PetKV.PetKV.Get` | src/pet_kv/pet_kv.h:36-48 | a value is found exactly for the keys of the map, and the bytes read are the map's |
| `PetKV.PetKV.Read` | src/pet_kv/pet_kv.h:115 | the same under protection; the session holds the block from then on |
| `PetKV.PetKV.LinkedIsKept` | src/memory/malloc.h:90-105 | between updates every block that can be found is sheltered by every published session |
| `PetKV.PetKV.Allocate` | src/pet_kv/pet_kv.cc:117-121 | taking a block and copying a value into it leaves the map alone |
| `PetKV.PetKV.Insert` | src/pet_kv/pet_kv.cc:123-131 | the map gains the key and loses what was evicted; the evicted key's block is lost |
| `PetKV.PetKV.Replace` | src/pet_kv/pet_kv.cc:132-136 | the map changes at the key; the old block is retired before it is unlinked, so the run stays disciplined exactly if this is not a thousandth retirement |
| `PetKV.PetKV.Update` | src/pet_kv/pet_kv.cc:113-142 | the map after it; one key is evicted exactly if the key is new, its home chunk has 14 keys and the store is at 90 per cent; the blocks lost, what the sheltered blocks hold, where the persisted keys lead at every store, when the program stops and when the run stays disciplined |
| `PetKV.PetKV.Conservation` | src/pet_kv/pet_kv.cc:79 | after any history the pool counts as many blocks as there are keys, waiting blocks and lost blocks |
| `PetKV.PetKV.EvictsWhenFull` | src/pet_kv/pet_hash.h:547-557 | a key is evicted exactly for a new key whose home chunk has 14 keys in a store at 90 per cent; it is one key, and it was stored |
| `PetKV.ClassInNumbers` | src/pet_kv/pet_kv.cc:26-29 | values of variable size get entries of 40, 72, 136, 520 or 1032 bytes, the least with 8 to spare; more than 1024 bytes get none |
| `PetKV.RoomInNumbers` | src/memory/persist_malloc.h:341-392 | a pool with a free chunk has room exactly for at most 1024 bytes; with a known size for that size, up to 32767, and for no other |
| `PetKV.PetKV.Close` | src/pet_kv/pet_kv.cc:87-92 | shutting down frees what waits and keeps the map |
| `Shard.Open` | src/pet_kv/pet_kv.cc:19-85 | a new shard is well formed and its map is empty; it is refused exactly if there is less than one chunk of memory per entry size |
| `Shard.OpenAndUpdate` | src/pet_kv/pet_kv.cc:113-142 | the first value of a new shard: with variable sizes it is stored exactly if it has at most 1024 bytes, with a known size if it has that size |
| `Shard.UpdateAll` | src/pet_kv/pet_kv.cc:113-142 | after any run of updates the map is the replay of the updates with their evictions, each at most one stored key at the load limit for a key that was not stored; as many blocks are lost as keys were evicted; what sessions held in a disciplined run before is unchanged; if the program stops, after which update, with which map, and why, by the snapshot that the stopping update took |
| `Shard.LeadsIs` | src/pet_kv/pet_kv.cc:113-142 | what that account says: the map is the replay of the updates, and each eviction is one that may happen |
| `Shard.LastUpdateWins` | src/pet_kv/pet_kv.h:34-48 | the value of a key is that of its last update, and it is there if and only if no later update evicted it |
| `Shard.OthersStay` | src/pet_kv/pet_kv.h:34-48 | a key that is not updated keeps its value, if and only if it is not evicted |
| `Shard.RoomForAll` | src/pet_kv/pet_hash.h:608 | no run of updates evicts a key while keys and updates together stay below 90 per cent of 14 per chunk |
| `Shard.ReadThenUpdate` | src/memory/malloc.h:90-105 | a block handed to a protected reader still holds what was read after any number of updates, even of the same key and across any number of bumps |
| `Beside.LookupsBesideUpdates` | src/pet_kv/pet_hash.h:332-370 | any lock-free lookup by a thread protected before, whose reads fall at any moments of any run of updates: for a key that was stored and is not evicted it finds an offset, and at the end of the run the block there still holds a value that the key had during the run; for a key that was never stored it says so |
| `Beside.LookupAnswers` | src/pet_kv/pet_hash.h:332-370 | for one lookup, from the history of the table |
| `Beside.ServedOn` | src/pet_kv/pet_kv.cc:113-142 | one more update: at each of its stores every persisted key leads to a sheltered block with a value the key had, and so it stays for the moments before |
| `Beside.SparedOn` | src/pet_kv/pet_hash.h:547-557 | one more update: no key is deleted but the one it evicts |
| `Restart.OpenTable` | src/pet_kv/pet_kv.cc:66-77 | checking, reloading or wiping as code: wherever the writer was cut, the table is intact and holds what was persisted or nothing |
| `Restart.CrashedCount` | src/pet_kv/pet_kv.cc:79 | the count compared with the pool's after a crash at any moment: the persisted keys, or 0 |
| `Restart.UpdateAndCrash` | src/pet_kv/pet_kv.cc:113-142 | cut at any store of an update, with its block allocated, the counts differ, so the program does not come up, but after the last store if no key was ever evicted and no block is waiting; after replacing a stored key one always is |
| `Restart.CrashPoints` | src/pet_kv/pet_kv.cc:79 | the same from the history of the table alone |
| `Restart.OpenPool` | src/memory/persist_malloc.h:323-337 | the pool found in a file describes the same blocks with the same values |
| `Restart.Start` | src/pet_kv/pet_kv.cc:19-85 | started again on the files of a shard, the program comes up if and only if every allocated block belongs to a key, and then with the same map |
| `Restart.CloseAndReopen` | src/pet_kv/pet_kv.cc:79 | after a clean shutdown it comes up if and only if no block was lost to eviction, with the same map |
| `Restart.EvictAndReopen` | src/pet_kv/pet_kv.cc:79 | after one update that evicts a key and a clean shutdown it does not come up |
| `Restart.KillAndReopen` | src/pet_kv/pet_kv.cc:79 | killed between updates it comes up if and only if no block was lost and none was waiting |
| `Scatter.Partition` | src/ps/allshards_ps_client.h:52-55 | the keys of each shard, in order |
| `Scatter.Cut` | src/ps/allshards_ps_client.h:57-60 | at most the first 500 of each shard |
| `Scatter.Gather` | src/ps/allshards_ps_client.h:79-96 | each position gets the entry of its shard's buffer that its rank within the shard tells |
| `Scatter.GetParameter` | src/ps/allshards_ps_client.h:47-96 | position p holds the value of key p if fewer than 500 keys of its shard come before it, else what an earlier request left in the buffer |
| `Scatter.LastIsStale` | src/ps/allshards_ps_client.h:57-60 | 501 keys of one shard: the last position holds what the buffer held before |
| `Scatter.QueryRPCFinished` | src/ps/allshards_ps_client.h:98-109 | it returns true exactly if each shard that was asked had answered when its turn came, and then the last copy was made when all of them had |
| `Scatter.Batch` | src/ps/allshards_ps_client.h:47-109 | so a batch that was waited for holds the values that GetParameter describes, though every answer triggers a copy |
| `Scatter.GetSmallBatch` | src/ps/allshards_ps_client.h:47-96 | with at most 500 keys per shard every value is in its place |
## Left out

- PetHash.PetHash.Insert: requires a key that is not stored and is not 2^64-1. Both callers look the key up first; the other key is treated by `Recovery.EmptyMarkIsLost`.
- PetHash.PetHash.Set: excludes the key 2^64-1 as Insert does.
- Index.Index.Add: excludes the key 2^64-1 as Insert does.
- PetKV.PetKV.Insert: excludes the key 2^64-1 as Insert does.
- PetKV.PetKV.Update: for a known value size that is not a multiple of 8 it says that the program may stop on a misaligned block, not on which ones; the key 2^64-1 is excluded as for Insert.
- Packing.ChooseWidth: excludes shards of 2^62 bytes and more, for which the source finds no width.
- Shard.Open: excludes shards of 2^62 bytes and more, for which the source finds no width.
- Epochs.EpochManager.UnProtect: excludes a withdrawal with nothing published, on which the source takes the front of an empty queue.
- Hotness.MigrateAll: says nothing about the keys after the first risky one, where the invariant can be lost.
- Restart.Start: covers stops between stores to the table, with their map; for stops in the middle of an update `Restart.UpdateAndCrash` tells when the program comes up.
- Restart.UpdateAndCrash: takes the pool's count as it is after the allocation; the stores inside the allocator, before the count changes, are those of a stop between updates.
- Beside.LookupsBesideUpdates: the reader protects itself before the first update; readers that come in during an update are covered by `Epoch.EpochSafety` only.
- Lookups that run during a migration; the reader of `Reader` runs beside Insert, Delete and Set.
- Several writers at once: a shard's updates hold one lock, and so does the model's single writer.
- Memory orderings weaker than sequential consistency, cache lines and the flush instructions.
- The hash, the checksum and the SIMD tag comparison as bit patterns; the tag scan is modelled by its result.
- Expiry as time: the check that decides whether a key has expired is an arbitrary predicate.
- PetMultiKV's choice of a shard by hash, and its batch read, which puts zeros where a key is missing.
- The 32-bit sizes and 64-bit counters do not wrap around in the model, except the one-byte overflow counter, which does.
- The client's copy of the values is compiled only with RPC_DEBUG; the model always makes it.
- Files, logging, timestamps, the network, RDMA and the other allocators and recyclers.
