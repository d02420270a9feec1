# FreeToken: verified models

Dafny models of the parts of FreeToken whose correctness rests on state and address arithmetic, with proofs
of what those parts promise. `dafny verify dfyconfig.toml` checks the project.

- **Checkpoint format** (`FtwFormat`, `FtwWriter`, `FtwReader`, `FtwReadInto`, `FtwLoad`, `FtwRoundTrip`): tensors are
  streamed into one region of 4096-byte blocks, cut into shard files, and read back through shard pieces, aligned
  jobs, short reads and any interleaving of workers. Writing then iterating returns what was written; a cut-short
  shard that is needed is always reported.
- **Expert banks** (`LayerNames`, `FtwBanks`, `FtwBankLoad`, `FtwConvert`, `FtwBankTrip`, `FtwConversion`): one flat region per
  bank or one entry per bank and layer; converting in either branch and loading gives the same banks, in whatever
  order the layers complete.
- **Prefetching iterator** (`Prefetch`): producer, bounded queue and consumer as interleaved steps.
- **Compressed index** (`GroupMath`, `QsaIndex`, `QsaRuns`, `QsaBatch`, `QsaGather`, `QsaTokens`): the incremental index of
  pooled keys equals pooling the whole history, over every run of admissions, extends, frees and reuses, for all
  requests at once; a query selects alike from it and from a cache of raw keys, and attends only to what it may see.
- **Sparse attention addressing** (`TopK`, `SparseSelect`, `IndexShare`, `WindowRing`, `BoundaryCarry`,
  `CarryResume`): causal top-k with sentinels, its dense degenerate case, shared selections, the window ring, and
  carries at page boundaries with which a sequence computed in pieces compresses as in one pass.
- **Checkpoint job supervisor** (`JobSupervisor`): each critical section is one step; spawning, exits, cancels and
  monitors interleave between them.
- **Accounting outbox** (`Outbox`): a visible directory and its not yet durable changes, with death of the process at
  every point of a call and power loss that keeps any subset of those changes.
- **Smaller cores** (`ImagePlan`, `BankChecksum`, `PleProbe`, `ProcTree`, `LineAssembly`): chunked image scatter, the bank
  checksum, sharded row geometry with its validator, the process tree, and line assembly.

`Basics` holds what several modules share. Code that works by changing state is a class or a method proved against
functions on values; what the code promises is then proved about those functions. Pooling, transforms, scoring and
top-k are parameters: the first two are any functions, top-k is any choice of distinct indices in descending score
order with ties left open.

Where the code and its own documentation differ, the model follows the code:

- The writer's assertion admits a shard limit of 0, with which the write loop never ends (`FtwWriter.WriteLoopEndsIff`).
- The weight iterator cannot yield an empty tensor, because its buffer cannot be mapped, and gives a tensor without
  dimensions back with shape `[1]` (`FtwLoad.LoadWeight`, `FtwRoundTrip.RoundTrip`).
- Five-digit layer names do not read back from layer 100000 on (`LayerNames.NameReadsBackIff`).
- "Durably stores" holds for a receipt exactly when no change of its name is still unsynced when the call returns: a
  directory sync that fails is not reported, and a retry that finds the receipt of a daemon that died before the sync
  returns it without syncing (`Outbox.ReturnedSurvivesIff`, `ReturnedLastsIff`, `RetryCanLose`).
- "No two conversions at once" needs that no cancel falls between reservation and spawn and that a new job does not
  reuse the id of one that is not settled; `JobSupervisor.CancelEndangersIff` and `RequestEndangersIff` say that these
  are exactly the steps that lose it. The same two steps, and no others, can leave a child that nobody watches, after
  which no job is ever admitted (`CancelOrphansIff`, `RequestOrphansIff`, `OrphanBlocksForever`); without them admission
  always recovers (`AdmissionRecovers`).
- Sparse prefill asks for the first position of every request and so fails on a request without queries, which the
  loop after it would have skipped (`SparseSelect.SelectRequest`).
- The two branches of the compressed index agree where the first token of each complete group has its index as rotary
  position, and only there if the transform tells positions apart for the pooled keys; the raw branch uses the index,
  also for image tokens (`QsaGather.GatherIsRawIff`, `QsaGather.RotaryPositionMatters`).
- The probe's validator compares a record's tensor name with its shard, but neither with its row
  (`PleProbe.OwnerUnchecked`, `PleProbe.WrongOwnerAccepted`); the probe's own reports name the owner
  (`PleProbe.ProbeOwns`).

## Model

| member | source | states |
|---|---|---|
| FtwFormat.EntryLocatesTensor | python/freetoken/checkpoint/ftw.py:157-173 | every index entry of a written list starts aligned and describes its tensor, and the region holds exactly the padded bytes of the tensor from there on |
| FtwFormat.PaddingIsZero | python/freetoken/checkpoint/ftw.py:170-173 | what follows a tensor up to the next block is zero |
| FtwFormat.EntriesTileRegion | python/freetoken/checkpoint/ftw.py:157-173 | entries follow one another without gap or overlap: each starts where the one before it ends, rounded up, and the last ends with the region |
| FtwFormat.EachShardLaid | python/freetoken/checkpoint/ftw.py:132-155 | in a finished layout every shard is numbered in order, starts aligned where the previous one ended, is within the limit, and its file is exactly its part of the region |
| FtwFormat.EachWhole | python/freetoken/checkpoint/ftw.py:161-164 | a tensor no larger than a shard lies whole in one shard, for every entry of the index |
| FtwWriter.FTWWriter.Roll | python/freetoken/checkpoint/ftw.py:132-140 | closing the open shard and opening the next keeps the files equal to the region, and only an aligned position can be a cut |
| FtwWriter.FTWWriter.Append | python/freetoken/checkpoint/ftw.py:152-155 | bytes that fit go to the end of the open shard and of the region, and to no other file |
| FtwWriter.FTWWriter.WriteSome | python/freetoken/checkpoint/ftw.py:148-155 | one round of the write loop takes a non-empty prefix, all there is or up to the shard limit, and rolls first only when the shard is full |
| FtwWriter.FTWWriter.WriteRaw | python/freetoken/checkpoint/ftw.py:142-155 | all bytes reach the region in order, across as many shards as they need, and closed shards never change |
| FtwWriter.FTWWriter.Pad | python/freetoken/checkpoint/ftw.py:170-173 | padding brings the region to a block boundary with zeros and never rolls a shard |
| FtwWriter.FTWWriter.PaddingFits | python/freetoken/checkpoint/ftw.py:170-173 | the open shard always has room for the padding of what it holds |
| FtwWriter.FTWWriter.MakeRoom | python/freetoken/checkpoint/ftw.py:161-164 | a tensor that fits a shard gets room for itself in the open one; a new shard is opened if and only if there is none yet or the tensor fits a shard but not what is left |
| FtwWriter.FTWWriter.WriteAndPad | python/freetoken/checkpoint/ftw.py:165-173 | a tensor's bytes and padding extend the region by its padded bytes; a tensor that had room stays in one shard |
| FtwWriter.FTWWriter.AddTensor | python/freetoken/checkpoint/ftw.py:157-173 | adding a tensor to a valid writer leaves a valid writer of the list with that tensor at its end |
| FtwWriter.FTWWriter.Finalize | python/freetoken/checkpoint/ftw.py:175-188 | the index and files of a valid writer encode exactly the tensors added, in order |
| FtwWriter.WriteLoopEndsIff | python/freetoken/checkpoint/ftw.py:119-155 | for an aligned limit the write loop ends if and only if the limit is positive or there is nothing to write |
| FtwReader.SortKeepsOrder | python/freetoken/checkpoint/ftw.py:206 | sorting shards by offset leaves shards in offset order as they are, equal offsets included |
| FtwReader.Pieces | python/freetoken/checkpoint/ftw.py:284-302 | pieces tile the range in destination order, each from one shard at the right place, cut only at shard ends; over ascending shards they exist if and only if the shards cover the range |
| FtwReader.PiecesAligned | python/freetoken/checkpoint/ftw.py:284-302 | over aligned shards every piece starts aligned in its file and in the destination, and all but the last have aligned length |
| FtwReader.ChunkPiece | python/freetoken/checkpoint/ftw.py:309-312 | the jobs of a piece tile its rounded-up length and stay inside the shard file |
| FtwReader.BuildJobs | python/freetoken/checkpoint/ftw.py:304-312 | the jobs of a range tile the rounded-up destination, each inside one shard and no longer than a chunk, aligned when the chunk is |
| FtwReadInto.Pread | python/freetoken/checkpoint/ftw.py:78-85 | a positional read returns some non-empty prefix of what was asked, and nothing only at or past the end of the file |
| FtwReadInto.PreadInto | python/freetoken/checkpoint/ftw.py:69-85 | whatever the short reads, the range is read exactly if the file reaches its end; otherwise the error carries how far the file went and nothing beyond that is written |
| FtwReadInto.Work | python/freetoken/checkpoint/ftw.py:319-335 | one read of a job, direct or mapped, makes progress or fails for a file that is too short, and touches only the job's own destination |
| FtwReadInto.TilesApart | python/freetoken/checkpoint/ftw.py:308-312 | two jobs of a tiling have disjoint destinations inside the buffer |
| FtwReadInto.OthersKept | python/freetoken/checkpoint/ftw.py:337-342 | work on one job keeps what every other job has read so far |
| FtwReadInto.RunJobs | python/freetoken/checkpoint/ftw.py:337-342 | in any interleaving of the workers all jobs end filled from their files, if and only if every file is long enough, and nothing past the jobs is touched |
| FtwLoad.RegionCovered | python/freetoken/checkpoint/ftw.py:284-302 | the shards of a written checkpoint hold a position if and only if it is inside the region |
| FtwLoad.JobsSucceedIff | python/freetoken/checkpoint/ftw.py:304-342 | all jobs of a range can be served if and only if every shard file reaches as far as the range needs it |
| FtwLoad.FilledIsRange | python/freetoken/checkpoint/ftw.py:304-342 | filled jobs of a range put exactly that range of the region into the buffer, across shards and truncated files |
| FtwLoad.PlanJobs | python/freetoken/checkpoint/ftw.py:304-312 | a range has jobs if and only if it is empty or inside the region |
| FtwLoad.ReadInto | python/freetoken/checkpoint/ftw.py:304-342 | reading a range succeeds if and only if it is inside the region and no shard it needs is cut short; the buffer then starts with the region's bytes and is unchanged past them |
| FtwLoad.ReadBuffer | python/freetoken/checkpoint/ftw.py:345-390 | a range read into a fresh buffer is exact; an empty one fails, because its buffer cannot be mapped |
| FtwLoad.LoadWeight | python/freetoken/checkpoint/ftw.py:384-390 | an entry loads if and only if it has bytes and no shard it needs is cut short, with the name, type, bytes and shape written; no dimensions become one of length one |
| FtwRoundTrip.AddAll | python/freetoken/checkpoint/ftw.py:157-173 | adding tensors one after another appends exactly them to what a valid writer has written |
| FtwRoundTrip.WriteAll | python/freetoken/checkpoint/ftw.py:157-188 | adding every tensor of a list and finalizing encodes the list, for every aligned positive limit |
| FtwRoundTrip.WantedAll | python/freetoken/checkpoint/ftw.py:223-225 | the entries given are exactly those whose kind was asked for, or all if none was, each once, in index order |
| FtwRoundTrip.IterWeights | python/freetoken/checkpoint/ftw.py:349-412 | the iterator yields, in the order written, tensors whose kind was asked for, or of any kind if none was, each once with its name, type, bytes and shape; without error it yields all of them, otherwise those before the first that cannot be loaded |
| FtwRoundTrip.RoundTrip | python/freetoken/checkpoint/ftw.py:110-412 | for every list of tensors, aligned shard limit, chunk size, read mode and read order, what is iterated back is what was written of the kinds asked for: all of it, in order, exactly when no such tensor is empty |
| LayerNames.NameReadsBackIff | python/freetoken/checkpoint/ftw.py:60-66 | a per-layer entry name parses back to its bank and layer if and only if the bank name is not empty and has no line feed, and the layer is below 100000 |
| LayerNames.MatchIff | python/freetoken/checkpoint/ftw.py:60-66 | the pattern matches exactly a non-empty bank name without line feeds, the mark, five digits, and at most one line feed after them |
| LayerNames.NameHasDigits | python/freetoken/checkpoint/ftw.py:63-66 | an entry name is the bank's name, a mark, and the layer in five decimal digits |
| FtwBanks.GroupEntries | python/freetoken/checkpoint/ftw.py:486-494 | the loop over the index splits the row entries by name into flat ones and layers of a base name |
| FtwBanks.GroupFindsLayer | python/freetoken/checkpoint/ftw.py:489-494 | an entry whose name parses to a bank and layer is found there unless a later entry has that bank and layer |
| FtwBanks.GroupFindsFlat | python/freetoken/checkpoint/ftw.py:489-494 | an entry whose name does not parse is found under its name unless a later one repeats it |
| FtwBanks.FlatFrom | python/freetoken/checkpoint/ftw.py:489-494 | whatever is found flat is a row entry of that name that does not parse |
| FtwBanks.LayerFrom | python/freetoken/checkpoint/ftw.py:489-494 | whatever is found for a bank and layer is a row entry whose name parses to them |
| FtwBanks.ReadWindow | python/freetoken/checkpoint/ftw.py:518-526 | an unaligned range read through its aligned enclosing window and cut at the head is exactly the range, whenever the window's shards are there |
| FtwBanks.CarvedFromWindow | python/freetoken/checkpoint/ftw.py:582-591 | the head offset of a window selects the range the window was made for |
| FtwBanks.LoadFlat | python/freetoken/checkpoint/ftw.py:507-526 | a flat bank loads if and only if its rows divide into the layers, the sizes agree and the windows are there; layer `l` is then the `l`-th part of the region's entry |
| FtwBanks.LoadPerLayer | python/freetoken/checkpoint/ftw.py:528-541 | a per-layer bank loads if and only if its entries are exactly the layers and all are there; each layer is its own entry's bytes |
| FtwBanks.FlatLoadsBank | python/freetoken/checkpoint/convert.py:253-259 | the concatenation of a bank's layers, written as one tensor and carved by the loader, gives the layers back |
| FtwBankLoad.LoadBank | python/freetoken/checkpoint/ftw.py:505-541 | one bank name loads if and only if its layout fits and is present, and gives the layers its layout says, with types and shapes |
| FtwBankLoad.AlphaFound | python/freetoken/checkpoint/ftw.py:470-484 | an alpha entry whose name is not repeated is the one found under its name |
| FtwBankLoad.LoadAlphas | python/freetoken/checkpoint/ftw.py:552-556 | the alpha vectors load if and only if every alpha entry is there, each with its own bytes |
| FtwBankLoad.LoadBanks | python/freetoken/checkpoint/ftw.py:465-591 | without bank entries there is nothing to load; otherwise everything loads if and only if the recorded layer count is the model's, no name is in both layouts, and every bank and alpha can be loaded |
| FtwConvert.ConvertSink.WriteBanks | python/freetoken/checkpoint/convert.py:140-147 | a completed layer appends one renamed entry per bank, and the counters count them |
| FtwConvert.ConvertSink.LayerDone | python/freetoken/checkpoint/convert.py:131-152 | a layer is written once: a second completion is refused and changes nothing |
| FtwConvert.AnyOrderFound | python/freetoken/checkpoint/convert.py:131-152 | whatever the completion order and whatever else is in the file, the loader finds each streamed layer of each bank at its own entry |
| FtwBankTrip.StreamedLayerFound | python/freetoken/checkpoint/convert.py:229-248 | every layer of a streamed bank is found with its type, shape and bytes |
| FtwBankTrip.StreamedNames | python/freetoken/checkpoint/convert.py:222-248 | the banks found in a streamed file are exactly the converted ones, none of them flat, each with exactly the layers |
| FtwBankTrip.StreamedSourceIsBank | python/freetoken/checkpoint/convert.py:222-248 | what the loader gives for a streamed bank is the bank, with types and shapes |
| FtwBankTrip.StreamedLoadableIff | python/freetoken/checkpoint/ftw.py:528-541 | in intact files a streamed bank can be loaded if and only if its layers have bytes |
| FtwBankTrip.FlatNames | python/freetoken/checkpoint/convert.py:249-276 | the banks found in a flat file are exactly the converted ones, none of them per layer |
| FtwBankTrip.FlatSourceIsBank | python/freetoken/checkpoint/convert.py:249-276 | what the loader gives for a bank written flat is the bank, with types and shapes |
| FtwBankTrip.FlatLoadableIff | python/freetoken/checkpoint/ftw.py:507-526 | in intact files a flat bank can be loaded if and only if its layers have bytes |
| FtwBankTrip.AlphasAreTail | python/freetoken/checkpoint/convert.py:240-248 | what the loader gives for the alphas is the alpha vectors that were written, each under its name |
| FtwBankTrip.StreamedAllIff | python/freetoken/checkpoint/convert.py:222-248 | an intact streamed file loads if and only if every bank and alpha in it has bytes |
| FtwBankTrip.FlatAllIff | python/freetoken/checkpoint/convert.py:249-276 | an intact flat file loads if and only if every bank and alpha in it has bytes |
| FtwBankTrip.LayoutsLoadAlike | python/freetoken/checkpoint/convert.py:222-276 | what the loader gives for the two files of a set of banks is equal, and is those banks and alphas and nothing else |
| FtwConversion.StreamAll | python/freetoken/checkpoint/convert.py:131-152 | the sink takes any sequence of completed layers in which none comes twice, and writes exactly what they stream |
| FtwConversion.ConvertStreamed | python/freetoken/checkpoint/convert.py:205-248 | the streaming branch ends with a checkpoint of the dense weights, the streamed layers and the alphas, and the number of layers seen, if and only if some layer completed and none twice |
| FtwConversion.StreamCounts | python/freetoken/checkpoint/convert.py:234-239 | a stream of the layers of banks completes as many layers as the banks have |
| FtwConversion.ConvertFlat | python/freetoken/checkpoint/convert.py:249-276 | the other branch ends with a checkpoint of the dense weights, the concatenated banks and the alphas if and only if the banks have the same, positive, number of layers |
| FtwConversion.BothLayouts | python/freetoken/checkpoint/convert.py:205-300 | for any shard limits, completion order, chunk sizes and read modes, converting and then loading succeeds in both branches or in neither, exactly when everything has bytes, and gives the same banks and alphas, those converted |
| Prefetch.StepKeepsInv | python/freetoken/checkpoint/ftw.py:367-412 | every step of producer or consumer keeps the queue a gapless continuation of what was yielded, within capacity |
| Prefetch.YieldsPrefix | python/freetoken/checkpoint/ftw.py:394-412 | in every run the yielded tensors are the first ones in order; a full drain yields all of them, or those before the producer's failure, and the consumer ends only after the producer |
| Prefetch.UnclosedYieldsAll | python/freetoken/checkpoint/ftw.py:366-412 | a finished iteration that was not closed has yielded every entry in order if no read failed, and else those before the one that failed, whose error it raises; nothing else makes it raise |
| Prefetch.QueueFills | python/freetoken/checkpoint/ftw.py:350-363 | left alone the producer reads ahead as many entries as were asked for, and one if none were |
| Prefetch.NothingPutAfterCancel | python/freetoken/checkpoint/ftw.py:368-380 | once cancelled, a producer outside a put puts nothing any more, in any run |
| Prefetch.ProducerExitsAfterCancel | python/freetoken/checkpoint/ftw.py:367-392 | once cancelled, the producer always has a step, and each of its steps brings its exit closer, of which at most four remain |
| Prefetch.StepsDoWork | python/freetoken/checkpoint/ftw.py:367-412 | only waiting for room can be repeated: every other step uses up a bounded amount of work |
| Prefetch.NeverStuck | python/freetoken/checkpoint/ftw.py:367-412 | from every reachable state that has not ended some steps lead to less work: no deadlock, also in the join |
| Prefetch.CanEnd | python/freetoken/checkpoint/ftw.py:397-412 | from every reachable state some run ends the iteration, without closing it and without another failure |
| QsaIndex.NewGroupIsPooled | python/freetoken/attention/qsa_triton.py:449-503 | a group completed by the current tokens, with what it lacks taken from the ring, gets the pooled and transformed value of the whole history |
| QsaIndex.CompAfter | python/freetoken/attention/qsa_triton.py:449-507 | after an update the row of each complete group holds the new value if the update completed it, and what it held before otherwise |
| QsaIndex.RingAfter | python/freetoken/attention/qsa_triton.py:509-530 | after an update the ring place of each open position holds its current token, or the one it held |
| QsaIndex.UpdateKeepsAgreement | python/freetoken/attention/qsa_triton.py:404-530 | an extend by any number of tokens keeps every complete group equal to whole-history pooling and the ring equal to the tail |
| QsaRuns.OtherRingKept | python/freetoken/attention/qsa_triton.py:519-530 | an update of one slot changes no ring place of another slot |
| QsaRuns.OtherRowKept | python/freetoken/attention/qsa_triton.py:503-507 | an update changes no compressed row but those of pages its own unfinished groups map to |
| QsaRuns.OtherRequestKept | python/freetoken/attention/qsa_triton.py:429-530 | an update of one request keeps the groups and the tail of any other that shares only complete pages with it |
| QsaRuns.StepKeepsInv | python/freetoken/attention/qsa_triton.py:404-530 | an extend, between any admissions with a shared prefix, allocations of free pages, finishes and evictions, keeps the agreement of every request and its raw keys, and each page with one owner until it is complete |
| QsaRuns.RawStep | python/freetoken/attention/qsa_triton.py:307-315 | in a raw cache every step leaves each request's keys at their locations, whoever else shares its complete pages |
| QsaRuns.EveryRunAgrees | python/freetoken/attention/qsa_triton.py:307-530 | from any stale caches, after any run, each request's rows hold whole-history pooling and a running one's tail is in the ring, or its raw keys are at their locations |
| QsaRuns.EveryRunSelectsAlike | python/freetoken/attention/qsa_triton.py:354-387 | after any run, any query of a request whose groups start at their own indices, as in text, selects as many blocks of equal scores from either cache, and the same ones without ties |
| QsaGather.AtMostOneMore | python/freetoken/attention/qsa_triton.py:354 | the padded width has the complete groups and at most one more, which it has exactly when there is a tail |
| QsaGather.RawKeepsAgreement | python/freetoken/attention/qsa_triton.py:315 | storing new raw keys at their locations leaves every token's key at its location |
| QsaGather.RawOthersKept | python/freetoken/attention/qsa_triton.py:315 | storing elsewhere leaves a request's raw keys in place |
| QsaGather.GatherIsRawIff | python/freetoken/attention/qsa_triton.py:356-372 | over any width that covers the complete groups, the raw branch equals the compressed gather on them whenever each group's first token has its index as rotary position; when the transform tells positions apart for the pooled keys of this history, only then |
| QsaGather.RotaryPositionMatters | python/freetoken/kernel/qsa_vectorized.py:42-49 | a history with an image position on which the two branches differ |
| QsaGather.SelectsComplete | python/freetoken/kernel/qsa_vectorized.py:91-110 | a selection over any width is a top-k of the blocks complete for the query, then marks |
| QsaGather.BranchesSelectAlike | python/freetoken/kernel/qsa_vectorized.py:57-125 | two branches that agree on the complete blocks select equally many, of equal scores rank by rank, whatever their widths and ties; the same ones without ties |
| QsaGather.TextMatches | python/freetoken/attention/qsa_triton.py:393-402 | positions of a text prompt put every group's start at its own index |
| QsaGather.QuerySelectsAlike | python/freetoken/kernel/qsa_vectorized.py:91-110 | for a query at any position of such a request, selection over the gather and over the raw branch, whatever its padded width, agrees on the blocks complete for the query |
| QsaTokens.TokensExact | python/freetoken/kernel/qsa_vectorized.py:107-125 | the indices of a query are exactly the tokens of its blocks and those after the complete blocks, up to the query and inside the request: nothing later than the query |
| QsaTokens.TokensOnce | python/freetoken/kernel/qsa_vectorized.py:107-125 | no token is among them twice |
| QsaTokens.DenseIff | python/freetoken/kernel/qsa_vectorized.py:91-125 | they are all tokens the query may see if and only if the budget covers the complete blocks |
| QsaTokens.SomeToken | python/freetoken/attention/qsa_triton.py:46-55 | a query of the request always has a token, which the check before attention demands |
| QsaBatch.IndexCache.StoreCompressed | python/freetoken/attention/qsa_triton.py:505-507 | storing at listed rows writes each value at its row and nothing else |
| QsaBatch.IndexCache.StorePending | python/freetoken/attention/qsa_triton.py:520-530 | keys and positions go to the listed ring places together |
| QsaBatch.IndexCache.PoolGroup | python/freetoken/attention/qsa_triton.py:459-498 | pooling reads each key, and the first position, from the current tokens or else from the ring |
| QsaBatch.IndexCache.CollectGroups | python/freetoken/attention/qsa_triton.py:449-504 | the groups an update completes, their rows and their values, are exactly those that start at or after the first open group and end by the new length |
| QsaBatch.IndexCache.KeepTail | python/freetoken/attention/qsa_triton.py:509-530 | the tokens of the group left open go to the ring |
| QsaBatch.IndexCache.UpdateRequest | python/freetoken/attention/qsa_triton.py:433-530 | the buffers after one request are the specified update of the buffers before |
| QsaBatch.IndexCache.UpdateNext | python/freetoken/attention/qsa_triton.py:429-439 | one round updates its request, passes over one without packed tokens, and refuses, with nothing changed, one whose packed span is not as long as it says |
| QsaBatch.IndexCache.UpdateBatch | python/freetoken/attention/qsa_triton.py:429-530 | the loop updates the requests in order up to the first whose packed span is not as long as it says, skipping those without tokens |
| QsaBatch.BatchIsRun | python/freetoken/attention/qsa_triton.py:429-530 | the loop over a batch of running requests is a run of extends, one per request |
| QsaBatch.StoredNext | python/freetoken/attention/qsa_triton.py:315 | storing all packed raw keys of a batch at once is storing them request by request |
| QsaBatch.BatchAgrees | python/freetoken/attention/qsa_triton.py:307-530 | after a batch each request in it holds whole-history pooling of its longer history, or its raw keys, and every other request still holds its own |
| TopK.RanksAgree | python/freetoken/attention/dsv4_indexer.py:73 | two top-k results of one row have equal scores at every rank, whatever they do with ties |
| TopK.LiveFirst | python/freetoken/attention/dsv4_indexer.py:70-74 | over scores masked past the live count, a pick is live if and only if its rank is below both the live count and k |
| TopK.MaskedIsLiveTop | python/freetoken/attention/dsv4_indexer.py:58-74 | top-k of the masked row is top-k of the live prefix followed by dead blocks |
| TopK.FiniteIsNeeded | python/freetoken/attention/dsv4_indexer.py:66-74 | with a live score of minus infinity a dead block may be picked first |
| TopK.AllPicked | python/freetoken/attention/dsa.py:266-268 | as many distinct picks as there are blocks are all the blocks |
| TopK.GatherPermutes | python/freetoken/attention/dsa_indexer.py:50-57 | picking in another order gathers the same rows, each as often |
| SparseSelect.LiveIsCausal | python/freetoken/attention/dsv4_indexer.py:64-70 | a block is live at a position if and only if its last token is not after it |
| SparseSelect.SelectIsLiveTop | python/freetoken/attention/dsv4_indexer.py:58-74 | a selection is a top-k of the live blocks, offset, then -1 in every place left |
| SparseSelect.PrefillIsCausal | python/freetoken/attention/dsv4_indexer.py:58-74 | at every ratio and offset a query's row has the offset plus blocks whose last token is not after the query, distinct, in descending order of score, none of them left out that scores higher or while there is room, and then only -1 |
| SparseSelect.RowsOfLiveTop | python/freetoken/attention/dsa_indexer.py:50-57 | mapped to rows, the counted part is the rows of a top-k of the live positions and the rest is -1 |
| SparseSelect.SelectRequest | python/freetoken/attention/dsa.py:213-237 | the chunk loop gives every query the selection and count of its own scores and position, whatever the chunk size; a request without queries fails |
| SparseSelect.ChunkFits | python/freetoken/attention/dsa.py:224-226 | a chunk's scores fit 128 MiB or it has 16 queries, and it has 512 or one more would not fit |
| SparseSelect.QueryRowsAreLiveTop | python/freetoken/attention/dsa.py:213-237 | the counted rows of a query are a top-k of the positions it can see |
| SparseSelect.DenseIff | python/freetoken/attention/dsa.py:265-270 | sparse selection attends the same rows as the dense path, each once, if and only if the visible positions are no more than the top-k |
| SparseSelect.DecodeIsLiveTop | python/freetoken/attention/dsv4_indexer.py:76-84 | a decode selection over staged scores is a top-k of the live blocks, offset, then -1, without masking anything itself |
| SparseSelect.DecodeIsPrefill | python/freetoken/attention/dsa.py:187-208 | a decode step over any staged width and a prefill of the same position choose equally many rows with equal scores rank by rank; the same rows when there are no ties |
| IndexShare.BuildLeaders | python/freetoken/attention/dsa.py:96-110 | every layer gets the last full layer before it as leader and full layers get slots in order, if and only if the first layer is full |
| IndexShare.SlotsApart | python/freetoken/attention/dsa.py:106-108 | no two full layers share a slot and every slot is within their number |
| IndexShare.LeaderIsLive | python/freetoken/attention/dsa.py:205-207 | in every pass each layer finds exactly its leader's selection of that pass, and nothing older |
| WindowRing.HeldIsLatest | python/freetoken/attention/dsv4_sparse.py:117-119 | slot `j` resolves to the greatest position not after the current one that is `j` modulo the window |
| WindowRing.MasksAgree | python/freetoken/attention/dsv4_sparse.py:121-124 | the mask on the position and the mask on the slot are the same mask |
| WindowRing.WindowIsExact | python/freetoken/attention/dsv4_sparse.py:93-125 | the unmasked slots hold exactly the last window of positions, each at its remainder |
| WindowRing.SlotsDiffer | python/freetoken/attention/dsv4_sparse.py:117-119 | two slots hold two positions |
| WindowRing.EntriesAreWindow | python/freetoken/attention/dsv4_sparse.py:119-125 | each entry is the location of its window position, or -1 where no position has been |
| BoundaryCarry.SpanCarry | python/freetoken/attention/dsv4_compress.py:126-148 | the carry at a boundary depends on its position, not on where the span began |
| BoundaryCarry.CarryRing.WriteCarry | python/freetoken/attention/dsv4_compress.py:93-105 | a carry replaces its page's block and nothing else |
| BoundaryCarry.ResumeReads | python/freetoken/attention/dsv4_compress.py:84-91 | after any split into page-aligned spans, the block at a passed boundary's window slot is the carry of the whole history at the last boundary in that window page; at that boundary itself until the page is reused |
| BoundaryCarry.CarryRing.ReadCarry | python/freetoken/attention/dsv4_compress.py:84-91 | a resume reads from the ring that the spans left the carry of the last boundary in the window page: with overlap the rows of the last group before it, their scores biased by place, and else reset rows |
| BoundaryCarry.BuildCarry | python/freetoken/attention/dsv4_compress.py:140-148 | with overlap the last rows before the boundary with biased scores, otherwise and below them the reset state |
| BoundaryCarry.CarryRing.WriteBoundaries | python/freetoken/attention/dsv4_compress.py:121-149 | a span that starts at a page writes the carry of every boundary after its start up to its end, from its own rows, as the whole history gives it |
| BoundaryCarry.SplitIsOnePass | python/freetoken/attention/dsv4_compress.py:121-149 | any split into page-aligned spans leaves the ring a single pass leaves |
| BoundaryCarry.BlocksApart | python/freetoken/attention/dsv4_compress.py:74-82 | distinct window pages have disjoint blocks |
| BoundaryCarry.BoundariesKept | python/freetoken/attention/dsv4_compress.py:127-133 | the block of every boundary passed so far has the carry of the last boundary in its window page, whatever the ring held before |
| BoundaryCarry.OthersKept | python/freetoken/attention/dsv4_compress.py:79-82 | the block of any page at which no written boundary ends is left alone |
| CarryResume.SeedHolds | python/freetoken/models/deepseek_v4/compress.py:91-104 | what a resume at the end of the spans so far starts from is the last group before it, biased, with overlap, and reset rows otherwise |
| CarryResume.ResumedIsScratch | python/freetoken/models/deepseek_v4/compress.py:205-240 | with such a block in front, each group of the new span is reduced from the same rows as in one pass over the whole sequence, the first one included |
| CarryResume.SplitReducesAlike | python/freetoken/models/deepseek_v4/compress.py:178-250 | however a sequence is split at page boundaries, whatever the ring held and whatever pages are reused, the compressed groups are those of one pass |
| JobSupervisor.CheckpointManager.Reserve | python/freetoken/daemon/checkpoint.py:66-84 | admission and the new slots are the specified ones for a job that runs, a child that is not reaped, or neither |
| JobSupervisor.CheckpointManager.Release | python/freetoken/daemon/checkpoint.py:87-91 | a failed spawn releases the slot only while it is still this job's |
| JobSupervisor.CheckpointManager.Commit | python/freetoken/daemon/checkpoint.py:92-95 | the child is recorded, its pid written to whatever job holds the slot, and without a job the commit fails after recording |
| JobSupervisor.CheckpointManager.Settle | python/freetoken/daemon/checkpoint.py:118-123 | an exit settles the job of that id only, and keeps a cancelled one cancelled |
| JobSupervisor.CheckpointManager.Cancel | python/freetoken/daemon/checkpoint.py:133-144 | only the running job of that id is cancelled, and there is a child to signal exactly when it has a pid |
| JobSupervisor.CarefulStepKeepsInv | python/freetoken/daemon/checkpoint.py:66-146 | every step but the two dangerous ones keeps slots, starts, children and monitors in agreement |
| JobSupervisor.OneConversionAtATime | python/freetoken/daemon/checkpoint.py:75-84 | in every run without those steps at most one conversion is spawned and not reaped |
| JobSupervisor.CancelEndangersIff | python/freetoken/daemon/checkpoint.py:133-144 | from a good state a cancel allows two conversions at once later if and only if it falls between a reservation and its commit |
| JobSupervisor.RequestEndangersIff | python/freetoken/daemon/checkpoint.py:66-84 | from a good state a start request allows it if and only if it is admitted with the id of a job whose monitor has not settled |
| JobSupervisor.CancelledStaysCancelled | python/freetoken/daemon/checkpoint.py:118-123 | no step makes a cancelled job done or failed; it is cancelled until another takes the slot |
| JobSupervisor.CancelIsExact | python/freetoken/daemon/checkpoint.py:133-144 | a cancel changes the state of the running job of that id, and nothing else |
| JobSupervisor.StartIsOwn | python/freetoken/daemon/checkpoint.py:87-95 | a failed start empties the slot of its own id only; a commit records its child, and gives its pid to whatever job is in the slot |
| JobSupervisor.EndIsExit | python/freetoken/daemon/checkpoint.py:109-123 | in every run a finished job has exit code 0 and a failed one another or none, and a collected process of its id with that code |
| JobSupervisor.ExitHappened | python/freetoken/daemon/checkpoint.py:109-117 | an exit code is that of an exit of the same process in the run, none is made up |
| JobSupervisor.SettlesByExit | python/freetoken/daemon/checkpoint.py:118-123 | in every run, when the monitor of a collected process settles, the job of its id is finished exactly if the process exited with 0 and waiting did not fail, else failed, unless it was cancelled; a job of another id is not touched |
| JobSupervisor.AnswerIsHonest | python/freetoken/daemon/checkpoint.py:66-84 | a request for the running job is told its process once it is committed; another is refused while a job runs or a process is not collected; and an admitted one finds no process running and no start in flight |
| JobSupervisor.InvNeverOrphans | python/freetoken/daemon/checkpoint.py:92-107 | no careful run from a good state leaves a committed child without a monitor |
| JobSupervisor.CancelOrphansIff | python/freetoken/daemon/checkpoint.py:133-144 | from a good state a cancel makes such a child possible if and only if it falls between a reservation and its commit |
| JobSupervisor.RequestOrphansIff | python/freetoken/daemon/checkpoint.py:66-84 | from a good state a start request makes one possible if and only if it is admitted with the id of a job whose monitor has not settled |
| JobSupervisor.AdmissionRecovers | python/freetoken/daemon/checkpoint.py:66-123 | from every good state the start, child and monitor under way can finish and a job of any id is then admitted |
| JobSupervisor.CommitWithoutJobOrphans | python/freetoken/daemon/checkpoint.py:85-95 | one such case: a run in which a cancel in the window lets a commit find no job and leave a live child without a monitor |
| JobSupervisor.OrphanBlocksForever | python/freetoken/daemon/checkpoint.py:75-79 | with such a child no run ever admits another job |
| Outbox.NamesApart | python/freetoken/daemon/accounting.py:77 | temporary names are never listed |
| Outbox.SafeIdIff | python/freetoken/daemon/accounting.py:35-41 | accepted ids are exactly 1 to 200 letters, digits, dots, underscores and dashes |
| Outbox.NamesStayInside | python/freetoken/daemon/accounting.py:77 | neither name of a receipt leaves the outbox directory |
| Outbox.ReadsIff | python/freetoken/daemon/accounting.py:128-146 | a file reads as a receipt exactly when that is complete, has an accepted id, and the file is named for it |
| Outbox.EventKeepsInv | python/freetoken/daemon/accounting.py:62-123 | persist, acknowledge, death at any point of either, and power loss with any subset of unsynced changes keep every `.json` a complete receipt |
| Outbox.VisibleReceiptsComplete | python/freetoken/daemon/accounting.py:62-94 | after every run each visible `.json` reads as a receipt whose id is its name |
| Outbox.PendingIsLedger | python/freetoken/daemon/accounting.py:96-107 | in every run whose power losses find no receipt name with an unsynced change, the pending receipts are exactly those persisted and not acknowledged since, the first document of each id |
| Outbox.LossKeepsAllIff | python/freetoken/daemon/accounting.py:148-160 | every power loss leaves the pending receipts as they are if and only if no receipt name has an unsynced change |
| Outbox.LossShowsEarlier | python/freetoken/daemon/accounting.py:148-160 | after any power loss each receipt name shows what it showed at some moment since the last directory sync |
| Outbox.LastsIff | python/freetoken/daemon/accounting.py:62-123 | a pending receipt stays through every run without its acknowledgement, deaths and power losses included, if and only if no change of its name is unsynced; its absence likewise until it is persisted again |
| Outbox.ReturnedLastsIff | python/freetoken/daemon/accounting.py:62-94 | a returned receipt so lasts if and only if the call wrote it and synced the directory, or it was there with no unsynced change |
| Outbox.AckedLastsIff | python/freetoken/daemon/accounting.py:109-123 | an acknowledgement so lasts if and only if the call removed the receipt and synced the directory, or there was none and nothing unsynced |
| Outbox.PersistAgainReturnsFirst | python/freetoken/daemon/accounting.py:71-74 | persisting a pending id returns the first document and changes nothing |
| Outbox.ReturnedIsPending | python/freetoken/daemon/accounting.py:62-94 | a receipt that persist returned is pending |
| Outbox.PersistAnswers | python/freetoken/daemon/accounting.py:62-94 | a persist refuses a bad id, returns the pending document if there is one, and else the new one exactly when every step worked |
| Outbox.TempIsLeft | python/freetoken/daemon/accounting.py:75-94 | the temporary file is left exactly by a death before the rename or a failure whose cleanup failed, complete once written and synced once synced; no other name changes but the receipt's |
| Outbox.AckAnswers | python/freetoken/daemon/accounting.py:109-123 | an acknowledgement says it was done before exactly when nothing is pending under the id, and that it removed the receipt exactly when there was one and removal worked |
| Outbox.AckTwice | python/freetoken/daemon/accounting.py:109-123 | a second acknowledgement succeeds, says so, and changes nothing |
| Outbox.SurvivesIff | python/freetoken/daemon/accounting.py:148-160 | a `.json` name has the same content after every power loss if and only if no unsynced change touches it |
| Outbox.ReturnedSurvivesIff | python/freetoken/daemon/accounting.py:62-94 | a returned receipt survives every power loss if and only if the call wrote it and synced the directory, or it was there with no unsynced change |
| Outbox.RetryCanLose | python/freetoken/daemon/accounting.py:72-87 | a daemon that dies between replace and directory sync leaves a receipt that a retry returns and a power loss can take away |
| Outbox.OrderIsUnique | python/freetoken/daemon/accounting.py:107 | a set of receipts has one order by creation and id |
| Outbox.OrderMeans | python/freetoken/daemon/accounting.py:107 | in a listing creation times do not descend, and of two with equal times the first id is less where the ids first differ |
| Outbox.ListingIsDetermined | python/freetoken/daemon/accounting.py:96-107 | after every run there is a listing, the pending receipts by creation time, oldest first, and for equal times by id, and no other list is one |
| Outbox.AccountingOutbox.Persist | python/freetoken/daemon/accounting.py:62-94 | the call does what the specification says for each way it can complete, fail or die |
| Outbox.AccountingOutbox.Ack | python/freetoken/daemon/accounting.py:109-123 | likewise for an acknowledgement |
| Outbox.AccountingOutbox.Pending | python/freetoken/daemon/accounting.py:96-107 | it lists the visible receipts by creation time, oldest first, and for equal times by id, and fails if and only if some `.json` does not read as a receipt |
| ImagePlan.CheckPlan | python/freetoken/multimodal.py:212-225 | the check accepts spans if and only if they are sorted, apart and within the feature rows |
| ImagePlan.FromImageSpans | python/freetoken/multimodal.py:227-250 | a plan exists if and only if the images ascend and have as many tokens as there are feature rows |
| ImagePlan.MappedSorted | python/freetoken/multimodal.py:227-250 | the rows given to ascending images are sorted and as long as the images |
| ImagePlan.RowIsOwn | python/freetoken/multimodal.py:263-270 | a token has a feature row if and only if it lies in a span, and it is its own place in that span |
| ImagePlan.Select | python/freetoken/multimodal.py:252-283 | the loop over spans gives the chunk: for each image token of the interval its place and its own row; it fails only on a bad interval |
| ImagePlan.ChunksJoin | python/freetoken/multimodal.py:252-283 | a chunk and the shifted chunk after it are the chunk of both intervals, in features, indices and mask |
| ImagePlan.ChunkIsExact | python/freetoken/multimodal.py:272-283 | a token is masked if and only if it lies in some span, and is paired with its own feature row |
| ImagePlan.EveryRowOnce | python/freetoken/multimodal.py:252-283 | over any partition of the prompt the chunks' features are the vision features, each row once and in order |
| ImagePlan.PatchesAreMerged | python/freetoken/multimodal.py:35-65 | patches are merge size squared times merged tokens |
| ImagePlan.GridAdds | python/freetoken/multimodal.py:53-54 | each grid adds the product of its sides, and of its sides merged |
| ImagePlan.LimitsMeet | python/freetoken/multimodal.py:21-26 | at the fixed merge of two the patch limit and the token limit are the same limit |
| ImagePlan.GridTotals | python/freetoken/multimodal.py:35-65 | totals come out if and only if the merge is positive, every grid divides and both totals are within their limits |
| BankChecksum.Checksum | benchmarks/bench_load_weight_generic.py:118-133 | the hash of a bank in parts is a function of the concatenated bytes alone, whatever the parts, computed in 64 bits |
| BankChecksum.PartThenRest | benchmarks/bench_load_weight_generic.py:123-131 | the samples from a position on are those of one part and then those of the rest |
| BankChecksum.FewSamples | benchmarks/bench_load_weight_generic.py:121 | fewer than two million bytes are sampled of a bank of any size |
| BankChecksum.EnoughSamples | benchmarks/bench_load_weight_generic.py:121 | every byte of a bank below two million is sampled, and at least a million of a larger one |
| BankChecksum.PartFits | benchmarks/bench_load_weight_generic.py:100-130 | no part's sum reaches 2^63, so 64-bit wrap-around never shows |
| BankChecksum.OneByte | benchmarks/bench_load_weight_generic.py:107-114 | a change of one byte shifts the hash by its weighed difference if the byte is sampled and not at all otherwise |
| BankChecksum.HashOneByte | benchmarks/bench_load_weight_generic.py:118-131 | a byte counts with its offset modulo 1000000007 plus one if its offset is a multiple of the stride, and else not at all |
| BankChecksum.HashOfZeros | benchmarks/bench_load_weight_generic.py:118-131 | the hash of zeros is zero |
| BankChecksum.SwapUnseenIff | benchmarks/bench_load_weight_generic.py:107-114 | two exchanged bytes go unseen if and only if they are equal, neither is sampled, or both are and their positions weigh the same |
| PleProbe.Discover | python/q38lab/ple_checkpoint_probe.py:285-364 | tensors are laid end to end under their shard names if and only if each is there with rows and the bank's width, all have one type, a declared eight-bit type is the stored one, the scale has one value or one a shard, and the rows are as many as the hash layout addresses |
| PleProbe.Locate | python/q38lab/ple_checkpoint_probe.py:374-380 | bisection finds the shard and place of every row inside the bank and refuses any other |
| PleProbe.RowIsInOne | python/q38lab/ple_checkpoint_probe.py:374-380 | shard start plus place is one-to-one onto the rows of the bank |
| PleProbe.BuildSamples | python/q38lab/ple_checkpoint_probe.py:406-472 | samples are both ends of every shard and then the hits, each located in its shard, if and only if all hits are inside and both kinds of heads are read |
| PleProbe.SamplesCover | python/q38lab/ple_checkpoint_probe.py:461-466 | both sides of every shard boundary are sampled |
| PleProbe.NamesDiffer | python/q38lab/ple_checkpoint_probe.py:285-289 | different shards have different tensor names |
| PleProbe.Probe | python/q38lab/ple_checkpoint_probe.py:616-690 | a probe reports if and only if every row read through the bank is the checkpoint's, and in release mode only for eight-bit shards read natively; the report has each sample under its shard's tensor name |
| PleProbe.Validate | scripts/release/evidence.py:177-309 | the validator's loops accept a report if and only if it is release-qualified and read natively, its tensors are end to end, named for their shards and of an eight-bit type, each record names a shard and that shard's tensor and has the same row from both readings, the edges are sampled and the counts are right |
| PleProbe.AcceptedShards | scripts/release/evidence.py:222-245 | an accepted report's 128 shards lie end to end from row 0, each with rows, named by its number and of an eight-bit type |
| PleProbe.AcceptedRecord | scripts/release/evidence.py:265-286 | each of its records names a shard and that shard's tensor, and has one digest of 64 hexadecimal characters from both readings |
| PleProbe.AcceptedEdges | scripts/release/evidence.py:241-295 | both ends of every shard are among its records, so a report that misses one is refused |
| PleProbe.AcceptedCoverage | scripts/release/evidence.py:247-309 | it has eight hash records by two heads or more, counts that are those of its records, and native reads |
| PleProbe.AcceptedWhen | scripts/release/evidence.py:177-309 | a report of which all that holds is accepted |
| PleProbe.ProbeAcceptedIff | python/q38lab/ple_checkpoint_probe.py:616-756 | the report of a probe is accepted if and only if it ran in release mode and the bank has 128 shards |
| PleProbe.ProbeOwns | python/q38lab/ple_checkpoint_probe.py:653-684 | every record of a probe names the shard whose rows hold its row |
| PleProbe.OwnerUnchecked | scripts/release/evidence.py:265-289 | with a record's shard, tensor name and place replaced, an accepted report stays accepted if and only if the name is that shard's, whichever shard owns the row |
| PleProbe.WrongOwnerAccepted | scripts/release/evidence.py:265-289 | for every record of an accepted report there is a shard that does not own its row and can be named instead |
| ProcTree.Tree | scripts/release/rtx5090_harness.py:833-841 | on every finite parent map, cycles included, and in every iteration order the sweeps end with exactly the processes whose parent chain reaches the root |
| ProcTree.CyclesStayOut | scripts/release/rtx5090_harness.py:833-841 | processes whose parents never leave a set without the root are not in the tree |
| LineAssembly.LineAssembler.Feed | python/freetoken/daemon/logfmt.py:37-65 | feeding a chunk runs the automaton over its characters from the kept state |
| LineAssembly.LineAssembler.Flush | python/freetoken/daemon/logfmt.py:67-76 | flushing emits what is drawn and starts over |
| LineAssembly.StepSplits | python/freetoken/daemon/logfmt.py:39-65 | one step of the automaton is one character of the one-pass split of the stream its state stands for |
| LineAssembly.ChunksDoNotMatter | python/freetoken/daemon/logfmt.py:26-76 | however a stream is cut into chunks, feeds and flush together give its one-pass split |
| LineAssembly.FeedEndsLine | python/freetoken/daemon/logfmt.py:39-63 | text and a line feed are one line, however many carriage returns are between them |
| LineAssembly.CharRedraws | python/freetoken/daemon/logfmt.py:39-60 | text and carriage returns that anything else follows, or nothing, are a redraw |
| LineAssembly.EndIsLine | python/freetoken/daemon/logfmt.py:67-76 | text the stream ends with is a line |
| LineAssembly.TextIsKept | python/freetoken/daemon/logfmt.py:37-76 | the texts together are the stream without carriage returns and line feeds |
| LineAssembly.LinesAreFeeds | python/freetoken/daemon/logfmt.py:37-76 | there is one line for each line feed, and one more for text at the end |
| LineAssembly.TextsArePlain | python/freetoken/daemon/logfmt.py:37-76 | no output holds a carriage return or a line feed |

## Left out

- Kernels, floating-point rounding, CUDA graphs, pinned and locked memory: scores are reals or minus infinity, without NaN, and pooled keys are abstract.
- QsaRuns.StepKeepsInv: the KV pool and the radix cache themselves are not modelled; a page is allocated when nobody has it, and a prefix that another request may share is whole groups of an earlier history.
- The selected-token attention after the gather, the chunk loop that fills its output, and the decode gather that pads every request to the longest: each query's slice is independent.
- FtwLoad.ReadInto: workers are interleaved reads on one buffer; choosing between direct and mapped reading, file handles and their locks are not modelled, only what each mode reads.
- FtwRoundTrip.IterWeights: loads one tensor after another; the queue and the threads around it are `Prefetch`, in which loading is one step that succeeds or fails.
- FtwBankLoad.LoadBanks: residency and pinning are not modelled, and of two flat or alpha entries with one name the later is given.
- LayerNames.NameReadsBackIff: digits are the ASCII ones.
- The index file: its JSON text, its atomic replacement and its extra metadata; shard files are known by number.
- FtwConversion.BothLayouts: loading and repacking of the source model is not modelled; a streamed bank's layers are fewer than 100000, as their names must read back; the sink's lock makes each callback one step.
- JobSupervisor.OneConversionAtATime: a process id is never reused and stands for its child object; a monitor whose wait fails does so after the exit; signals, grace periods and log tailers are left out.
- Outbox.AccountingOutbox.Persist: JSON text and its parsing are one complete-or-not flag; a receipt without a valid id is refused before anything is touched; creating the directory is not a change that can be lost.
- SparseSelect.SelectRequest: positions of one request are consecutive and scores are finite where live.
- BoundaryCarry.CarryRing.WriteBoundaries: spans start at a page boundary, which the code's comment assumes and its slices need.
- CarryResume.SplitReducesAlike: the reduction of a group is any function of its rows; norm, rotary embedding, quantization and the decode step's own advance of a carry are not modelled.
- PleProbe.Validate: the report's schema, file hashes, runtime names and coverage flags, which the validator compares with constants.
- PleProbe.Discover: reading the configuration, and the check that the resident loader skips the bank's tensors.
- PleProbe.BuildSamples: the rows its hash heads read are given; the hasher is not modelled.
- ProcTree.Tree: the parent map is given; reading it from `/proc`, where a command name with a space shifts the fields, is not modelled.
- ImagePlan.FromImageSpans: image decoding and the checks on tensor shapes and sizes of processor outputs are not modelled.
- LineAssembly.LineAssembler.Feed: ANSI stripping and the throttling of redraws happen later.
- HTTP and SSE clients, release gates that compare constants, command lines, launch configuration, log ring, cache report and page rounding: plumbing, or true at a glance.
