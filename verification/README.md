# ternative: a verified model

ternative is a CPU/GPU inference engine for ternary language models. This project models what it computes behind its
I/O and proves that the fast forms agree with the simple ones, that the protocols keep their promises, and that the
binary formats and the tokenizer undo themselves. `dafny verify dfyconfig.toml` checks the whole project.

Each part is built the same way: a specification on values says what is meant, the methods with loops, arrays and
classes are proved to compute it, and lemmas prove what the specification promises.

- **Transformer evaluation.** `Chain` gives the evaluation orders over a mutable cache, `Causal` the one causal
  function behind them, `Decode` whole generation runs and the split GPU/CPU pipeline, `Mixed` what CPU decoding
  computes without a cache. `TinyNet` and `Overflow` hold the networks on which the decoding paths part. `Rows` and
  `Net` are the row arithmetic of one layer and `NetLaws` what it means, `KvCaches`, `Attention` and `CpuModel` the
  CPU loops on flat buffers, `Reduce`, `GpuKernels`, `GpuCache`, `DeviceWeights` and `GpuModel` the kernels, the F16
  and INT8 weights and the pipeline that reuses its scratch buffers in place.
- **Matrix products.** `Gemm` is the vectorized and tiled product, `Ternary` 2-bit tensors and the product on them,
  `Int8` the INT8 quantizer and its error bound, `Lora` the adapter merge.
- **VRAM planning.** `Planner`.
- **Tokenizer.** `ByteLevel`, `PreTokenizer`, `Bpe` and `Tokenizers`; `Pieces` and `WellFormed` say what the pieces
  are.
- **Serving.** `Channels` and `Serving` are the channel and the interleaved steps of handlers and worker,
  `ServingRuns` what a request's run amounts to, `StopMatchers` the streaming stop-sequence search, `Workers` the chat
  loop that uses them, `Answers` what a reply holds.
- **Formats.** `Encoding`, `Layout` and `Tensors` are shared; `GgufValues`, `GgufFormat`, `GgufIo` and `GgufCuts` are
  the GGUF export and parser and truncated files, `GgufModel` the loader and what an exported model is once reloaded,
  `TvCache`, `TvCacheIo` and `TvCacheFields` the merged-weight cache, `Sha256` its hash and `Sha256Constants` where
  the constants come from.
- **Sampler.** `Sampler`, and `SamplerLaws` from the raw logits to the draws.

Numbers are exact reals. exp, the inverse square root, cos and sin are parameters (`Rows.Fns`); where a proof needs a
law of exp (exp(a+b) = exp(a)exp(b) and exp > 0) the lemma asks for it as `Rows.ExpLaw`, and likewise for exp
increasing (`Rows.ExpGrows`), 1/sqrt positive (`Rows.RootLaw`) or the inverse of the square (`NetLaws.RootSquares`),
and the addition of angles (`NetLaws.TurnLaw`). Random draws, the selection order of `std::nth_element`, scheduling
choices, exceptions and the tokens a model produces are inputs. Integers are unbounded except where the width matters:
conversions to 32-bit and 64-bit fields, the SHA-256 words and bit counter, and the planner's counters are written
out. The machine is little-endian.

## Where the code differs from what it says

- Decode on the CPU attends to positions 0..pos-1 only, while prompt mode and the GPU path include pos. The two agree
  on every network only when no decoded token's logits are used (`TinyNet.DecodesAsPromptIff`).
- Past the size of the device cache decoding falls back to a host cache that lacks the rows decoded on the device, so
  requests are isolated from each other only under the condition of `Overflow.IsolatedIff`.
- `StopMatcher` keeps everything in its buffer, so flushing repeats text already sent
  (`StopMatchers.FlushRepeatsTheText`, `Workers.StreamedText`), and bytes held back from a block answer are never
  added (`Workers.BlockWithoutStop`). With several patterns the result depends on how the text was cut unless the
  first one is part of all (`StopMatchers.SplitMattersUnlessFirstInAll`; `StopMatchers.TwoStopsTwoCuts` is a small
  example).
- The sampler's comment describes the repetition penalty as lowering a logit; it raises negative ones
  (`Sampler.PenaltyLowersPositive`).
- The I2_S GEMM reads stale buffer contents unless K is a multiple of 128 (`Ternary.GemmReadsStaleBuffer`).
- The export declares every tensor F16 whatever its type is (`GgufFormat.ExportedTensorLoads`), and the parser stops
  its table at a tensor of more than eight dimensions (`GgufFormat.TableReads`); the cache stores four dimensions only
  (`TvCache.SaveThenLoad`).
- The parser's guard before the dimensions of a table row counts 8 bytes after them where 12 are read, so some
  truncated files are read past their end (`GgufCuts.CutCrashes`).
- The number of F16 layers the planner computes passes through a 32-bit integer (`Planner.PlanIsOptimal`, with an
  example in `Planner.WideBudget`).
- The export writes the head counts and eps under `llama.attention.` keys that the loader does not read, so they come
  back only when they are those of a new model (`GgufModel.ReloadedIff`).
- The comment on the byte alphabet ends it at U+0123; it ends at U+0143 (`ByteLevel.Alphabet`).
- The adapter settings stored with a merged model depend on the order of the adapters unless they agree
  (`Lora.SettingsDependOnOrder`).

## Model

| member | source | states |
|---|---|---|
| `Causal.PrefillIsTokenByToken` | src/model.cpp:1139-1234 | for every prompt that fits the cache and every number of layers, the batched layer-major prefill returns the same logit rows and leaves the same cache as feeding the tokens one at a time through `forward(token, s, true)`; the whole caches are equal, rows past the prompt included |
| `Causal.PrefillCausal` | src/model.cpp:1139-1234 | row s of the prefill is the causal function of the tokens 0..s, and every layer's cache holds the key/value rows of that function in 0..S-1 and its old rows after them |
| `Causal.PrefillRowIsCausal` | src/model.cpp:1071-1137 | row s does not change when tokens are appended to the prompt, nor with what the cache held before |
| `Causal.ForwardCausal` | src/model.cpp:851-1067 | a token at pos on a cache that holds the causal rows 0..pos-1 gets the causal logits and extends the cache to 0..pos |
| `Causal.TokenByTokenCausal` | src/model.cpp:851-1067 | feeding tokens one by one keeps the cache equal to the causal rows and yields the causal logits at every position |
| `Causal.HiddenIgnoresFuture` | src/model.cpp:1071-1137 | the hidden state at (layer, position) depends on no later token |
| `Decode.ForwardReadsOnlyThePast` | src/model.cpp:905-1000 | in both attention modes `forward` at pos gives equal logits, and keeps caches equal up to pos, on any two caches that agree on rows 0..pos-1 |
| `Mixed.GenerateIsMixed` | src/model.cpp:1587-1642 | on the CPU path `generate` computes, from the request alone and whatever the cache held, what cache-free generation computes in which prompt tokens attend to 0..s and decoded tokens to 0..s-1 |
| `Mixed.ModesCoincide` | src/model.cpp:905-1000 | with zero attention output projections (no layers included) CPU decoding yields the tokens of the prompt mode for every request |
| `TinyNet.DecodesAsPromptIff` | src/model.cpp:915-920 | for every exp, 1/sqrt, cos and sin that obey their laws: on every network that can be loaded and offloaded (head dimension and attention scale derived as the loader does), for all sampling settings, draws and caches, CPU decoding of a prompt of p tokens for m new ones yields the tokens of the prompt mode if and only if m <= 1 or the prompt fills the context |
| `Decode.GenerateIgnoresOldRows` | src/model.cpp:1587-1642 | two-run property: for equal prompts and sampler the generated tokens do not depend on what the cache held before, although `clear` resets only the length |
| `Decode.RequestsDoNotLeak` | src/model.cpp:1587-1642 | in any series of requests on one never-wiped cache, each request generates what it would generate alone on any other cache of the same size |
| `Decode.ForwardGpuRefinesForward` | src/model.cpp:1354-1582 | if the split cache (device rows for the leading layers, host rows for the tail) represents the reference cache up to pos, one split step returns the unsplit logits and represents the updated reference cache up to pos+1, for every number of leading layers |
| `Decode.SyncRepresents` | src/model.cpp:1322-1331 | copying the first `len` rows of the leading layers to the device makes the split cache represent the host cache |
| `Decode.HybridRunIsOnePrefill` | src/model.cpp:1322-1582 | a CPU prefill of any non-empty prefix, the copy to the device and split decoding of the remaining tokens give, row by row, the logits of one prefill of the whole sequence |
| `Decode.GpuGenerateIsIdeal` | src/model.cpp:1587-1642 | with offloaded layers, a run of which no fed-back token passes the device cache generates exactly what cache-free evaluation of the causal function on the whole sequence generates, however large max_new_tokens is; the network is the one all products take, so this holds for every mix of F16 and INT8 layers |
| `Decode.RoomStaysBelow` | src/model.cpp:863-868 | every run stays in the device cache when that is as large as the host cache or has room for the prompt and all new tokens |
| `Mixed.GpuGenerateIsMixed` | src/model.cpp:863-868 | without offloaded layers, or when the prompt fills the device cache, generation is CPU decoding |
| `Overflow.IsolatedIff` | src/model.cpp:863-868 | for every exp, 1/sqrt, cos and sin that obey their laws: on every network that can be loaded, with any number of offloaded layers, F16 or INT8, and for all sampling settings and draws, what `generate` returns for a prompt of length p does not depend on the call before if and only if the prompt fills the device cache or the device cache is as large as the host cache; otherwise a run that outgrows the device cache reads rows the earlier call left in the host cache |
| `KvCaches.KVCache.constructor` | src/model.cpp:88-101 | a fresh cache of the given number of layers, heads and capacity with length 0 |
| `KvCaches.KVCache.Clear` | src/model.cpp:103-105 | only the length is reset; every stored row keeps its value |
| `KvCaches.KVCache.Update` | src/model.cpp:111-132 | as rows of one layer: rows pos.. become the given key/value rows, rows at or past the capacity are dropped, every other row and layer is unchanged, for the flat per-head copies |
| `KvCaches.PatchLayer` | src/model.cpp:121-131 | writing one row at its flat offset changes exactly that row of the layer |
| `Attention.HeadAttention` | src/model.cpp:1071-1137 | the score, softmax and value loops of one head over a flat cache compute the attention output of that head over the cached rows, an average of their values by `NetLaws.AttentionIsAverage` |
| `Attention.ScoreLoop` | src/model.cpp:1088-1110 | the scaled dot products of the query head with the first n cached keys, read through the grouped-query head map |
| `Attention.SoftmaxInPlace` | src/model.cpp:1112-1124 | maximum, exponentials and scaling in place compute the softmax of the old contents, which `NetLaws.SoftmaxIff` characterizes |
| `NetLaws.SoftmaxIff` | src/model.cpp:1112-1124 | the attention weights are the only numbers that add up to one and stand in the ratios of the exponentials of the scores, and all are positive |
| `NetLaws.AttentionIsAverage` | src/model.cpp:1126-1137 | every output entry of a head lies between the least and the greatest entry of its value column, so equal value rows come out unchanged |
| `NetLaws.AttentionPicksWeight` | src/model.cpp:1126-1137 | each cached row counts with its own weight: a value column that is one at t and zero elsewhere comes out as the weight of t |
| `NetLaws.ScoreOfUnit` | src/model.cpp:1084-1110 | a query that points at one entry of a head gets the scale times that entry of the key head it belongs to |
| `NetLaws.SizesDoNotMatter` | src/model.cpp:881-905 | without eps, logits, queries, keys, values and what sub-normed attention adds do not change when the row they are computed from is multiplied by a positive number |
| `NetLaws.HeadTurned` | src/tensor.cpp:840-888 | in every head entry o and entry o + head_dim/2 are turned by the angle of the position, whatever the heads before did |
| `NetLaws.HigherScoreWeighsMore` | src/model.cpp:1112-1124 | of two cached positions the one with the higher score has the larger weight |
| `NetLaws.GroupsAreBlocks` | src/model.cpp:1080-1084 | each key/value head serves one block of consecutive query heads, all blocks of the same size |
| `NetLaws.NormRescales` | src/tensor.cpp:636-708 | the norm multiplies the row by one positive factor, the one that makes the mean square plus eps equal to one, and then by the weights |
| `NetLaws.ScoreIsRelative` | src/tensor.cpp:830-888 | shifting the positions of query and key by the same distance leaves every attention score as it is |
| `NetLaws.ProjectionIsLinear` | src/tensor.cpp:262-640 | a projection is linear, and its k-th column is entry k of every weight row |
| `NetLaws.ActivationIsQuadratic` | src/tensor.cpp:792-828 | the activation is zero exactly up to zero, one at one, and grows with the square |
| `NetLaws.ClosedGate` | src/model.cpp:1022-1053 | where no gate entry is positive the feed-forward half passes its input on, with or without sub-norm |
| `NetLaws.LayerAddsToInput` | src/model.cpp:1005-1053 | both halves add to their input: with zero output matrices a layer is the identity |
| `CpuModel.BatchedAttention` | src/model.cpp:1071-1137 | the single loop over (row, head) pairs gives every prompt row s the attention over cache rows 0..s |
| `CpuModel.Model.Forward` | src/model.cpp:851-1067 | the layer loop on the mutable flat caches returns the logits of the pure `Chain.Forward` and leaves its cache, in both attention modes |
| `CpuModel.Model.ForwardPrefill` | src/model.cpp:1139-1234 | the batched loops return the rows of `Chain.Prefill` and leave its cache |
| `CpuModel.Model.Generate` | src/model.cpp:1587-1642 | the generate method produces the tokens of `Decode.Generate` and leaves its cache |
| `Rows.SoftmaxShift` | cuda/ops_cuda.cu:205-262 | the softmax does not depend on the value subtracted before exponentiation |
| `Rows.SoftmaxFromFirstIsSoftmax` | cuda/ops_cuda.cu:205-262 | the device softmax (maximum search from the first score) and the CPU one (from -1e30) give the same weights, from exp(a+b)=exp(a)exp(b) and exp>0 alone |
| `Reduce.LanesTotal` | cuda/ops_cuda.cu:46-74 | the strided lanes together hold every term exactly once, for any number of lanes and terms |
| `Reduce.LaneLoop` | cuda/ops_cuda.cu:62-63 | one lane's loop k = lane, lane + lanes, ... sums exactly the terms with that residue |
| `Reduce.Tree` | cuda/ops_cuda.cu:66-69 | the halving tree, in its shuffle and its shared-memory form, ends with the total of all lanes in entry 0 |
| `Reduce.WarpSum` | cuda/ops_cuda.cu:46-74 | strided lanes followed by the tree compute the plain sum |
| `GpuKernels.GemvD` | cuda/ops_cuda.cu:46-74 | the first N entries of the output become the matrix-vector product of the input, the rest stay |
| `GpuKernels.RmsNormD` | cuda/ops_cuda.cu:134-160 | the kernel writes the RMS norm of the old input, also when output and input are the same buffer |
| `GpuKernels.RopeHeadIsParallel` | cuda/ops_cuda.cu:168-188 | rotating all pairs at once equals rotating them one after the other |
| `GpuKernels.RopeD` | cuda/ops_cuda.cu:168-188 | the in-place rotation of all heads is the row rotation of the CPU path |
| `GpuCache.KvWriteD` | cuda/ops_cuda.cu:193-200 | one row is patched into the device cache at its layer and position, everything else is unchanged |
| `GpuCache.PatchDevice` | cuda/ops_cuda.cu:193-200 | such a patch changes exactly row p of layer l of the device cache read as rows |
| `GpuCache.AttentionD` | cuda/ops_cuda.cu:205-262 | the attention kernel over the flat device cache writes the attention of all heads over rows 0..n-1 of the layer |
| `GpuModel.GpuModel.LayerD` | src/model.cpp:1398-1450 | one device layer, F16 or INT8, on the seven reused scratch buffers leaves the hidden state and the device cache of the layer step of the network held, attending to rows 0..pos |
| `GpuModel.GpuModel.ForwardGpu` | src/model.cpp:1354-1582 | the whole split step with in-place buffer reuse and any mix of F16 and INT8 layers returns the logits of `Decode.ForwardGpu` for the network held and leaves its split cache, for every number of offloaded layers |
| `GpuModel.GpuModel.constructor` | src/model.cpp:264-471 | the offload passes hold the first layers exactly and the next ones quantized, and the network evaluated from then on, on both sides, is the one the held matrices stand for; with F16 layers only it is the loaded one |
| `DeviceWeights.BackendMatmul` | cuda/ops_cuda.cu:600-648 | the prefill and the CPU fallback multiply every row with the device copy of an offloaded matrix, through the row-by-row INT8 kernel, the single-row kernel or the batched one: the product with the matrix it stands for |
| `DeviceWeights.DispatchD` | src/model.cpp:1390-1396 | the product through whichever kernel fits the matrix is the product with the matrix it stands for, INT8 with the scale applied to the sum |
| `DeviceWeights.QuantizedIsNear` | src/model.cpp:364-410 | every weight an INT8 matrix stands for is within half a quantization step of the original, at every column and row of the tensor |
| `GpuModel.GpuModel.SyncKv` | src/model.cpp:1322-1331 | after the copy the split cache is `Decode.Sync` of the old one |
| `GpuModel.GpuModel.Generate` | src/model.cpp:1587-1642 | for every request and any mix of F16 and INT8 layers the method leaves the tokens and both caches of the split specification; they are those of cache-free evaluation when the run stays in the device cache, and those of CPU decoding when the prompt fills it or no layer is offloaded |
| `Gemm.DotLanes` | src/tensor.cpp:328-347 | eight vector lanes, their horizontal sum and the scalar tail compute the plain dot product for every length |
| `Gemm.TiledGemv` | src/tensor.cpp:371-466 | the tiled F16 product (full tiles unrolled twice, a partial last tile, a scalar tail) equals the plain matrix-vector product for every K and N |
| `Gemm.Matmul` | src/tensor.cpp:366-490 | both paths, one row or several, return the plain product of every row |
| `Ternary.UnpackPacked` | src/tensor.cpp:969-996 | every 2-bit code is found again at its interleaved place, for any length |
| `Ternary.DequantizeGivesSigns` | src/tensor.cpp:944-1050 | dequantizing a quantized tensor of any length gives the scale times the sign of each element |
| `Ternary.ExactOnTernary` | src/tensor.cpp:944-1050 | the round trip is exact if and only if every element is 0 or has the magnitude of the scale |
| `Ternary.ExactIffTernary` | src/tensor.cpp:944-1061 | a tensor survives quantization unchanged if and only if its entries are zeros and plus or minus one common magnitude not below the threshold |
| `Ternary.Quantize` | src/tensor.cpp:944-1004 | scale, codes and packed blocks, the partial last block included |
| `Ternary.Dequantize` | src/tensor.cpp:1006-1050 | the block loop returns exactly the unpacked values, with the scale looked up after the blocks when it is zero |
| `Ternary.MatmulI2S` | src/tensor.cpp:278-355 | every output entry is the dot product of its row with the column as unpacked into the reused buffer, for every K |
| `Ternary.GemmIsNaive` | src/tensor.cpp:278-355 | for every K divisible by 128 that value is the naive product over the dequantized weights |
| `Ternary.GemmReadsStaleBuffer` | src/tensor.cpp:301-326 | for every other K the output depends on what the reused buffer held before, so it is not a function of the inputs |
| `ByteLevel.ByteCharInjective` | src/tokenizer.cpp:72-97 | no two bytes are spelled by the same character |
| `ByteLevel.Alphabet` | src/tokenizer.cpp:64-94 | the code point of every byte, range by range: the printable bytes are themselves, the space is U+0120, and the last one used is U+0143 |
| `ByteLevel.DecodeChars` | src/tokenizer.cpp:448-477 | a concatenation of byte characters decodes to exactly those bytes, whatever follows |
| `ByteLevel.AsciiDecodesToItself` | src/tokenizer.cpp:448-477 | text of ASCII bytes decodes to itself |
| `ByteLevel.CharsHaveNoSpace` | src/tokenizer.cpp:72-97 | no byte character contains a space byte |
| `ByteLevel.Tables.constructor` | src/tokenizer.cpp:72-97 | filling the tables range by range and then the rest maps every byte to its character and back |
| `Bpe.MergeLoop` | src/tokenizer.cpp:310-338 | the loop that erases the best pair until none is left computes the greedy normal form |
| `Bpe.GreedyStep` | src/tokenizer.cpp:317-337 | each step merges the leftmost pair of minimum rank |
| `Bpe.GreedyIsNormal` | src/tokenizer.cpp:310-338 | the result has no mergeable adjacent pair |
| `Bpe.GreedyKeepsText` | src/tokenizer.cpp:310-338 | merging never changes the concatenation of the symbols |
| `Bpe.KeyIsExact` | src/tokenizer.cpp:317-330 | with no space in the left symbol, equal space-joined keys mean equal pairs |
| `Bpe.GreedyIsPairGreedy` | src/tokenizer.cpp:310-338 | merging with the string-keyed table equals merging with a table of pairs |
| `PreTokenizer.PiecesPartition` | src/tokenizer.cpp:221-304 | the pieces are non-empty and concatenate to the input, from every position |
| `PreTokenizer.PreTokenize` | src/tokenizer.cpp:221-304 | the pointer loop returns exactly the pieces that `Pieces.CutIff` characterizes, which concatenate to the text |
| `Pieces.PieceIff` | src/tokenizer.cpp:206-304 | what ends a piece, said of the bytes: a contraction is cut off whole at its apostrophe; letters after at most one space, as many characters as there are; one to three digits, fewer only where the digits end; punctuation after at most one space with all newlines behind it; newlines and blanks, or blanks, up to the first other byte; at every position exactly one end satisfies this |
| `Pieces.CutIff` | src/tokenizer.cpp:221-304 | a list of byte strings is the result of the pre-tokenizer if and only if it spells the text and each string is such a piece where it stands |
| `Pieces.Classes` | src/tokenizer.cpp:206-212 | the byte classes by their characters |
| `WellFormed.PiecesAreText` | src/tokenizer.cpp:214-304 | the pieces of well-formed UTF-8 text are well-formed: no piece splits a character |
| `WellFormed.WordsAreByteRuns` | src/tokenizer.cpp:246-262 | on well-formed text the letters of a word are all the letter bytes from there on |
| `Tokenizers.RoundTripExactly` | src/tokenizer.cpp:372-477 | decode(encode(text, false), false) == text for every byte string, malformed UTF-8 included, if and only if every special token's text decodes to itself; all 256 byte characters must be in the vocabulary and no special token be empty |
| `Tokenizers.AsciiSpecialsDecode` | src/tokenizer.cpp:448-477 | ASCII special tokens satisfy that condition |
| `Tokenizers.TextRoundTrip` | src/tokenizer.cpp:310-366 | text without special tokens round-trips |
| `Tokenizers.SymIdsDecode` | src/tokenizer.cpp:340-366 | the fallback for a symbol missing from the vocabulary loses nothing |
| `Tokenizers.PieceMergesPairs` | src/tokenizer.cpp:310-366 | on every piece the string-keyed lookup of the vocabulary's merges is an exact pair lookup |
| `Tokenizers.Tokenizer.constructor` | src/tokenizer.cpp:103-200 | token ids, merge ranks and special tokens are exactly the positions in their arrays, the last one for a repeated string; the special ids are exactly those from 128000 on and the control tokens; every id leads back to its string and the byte tables are complete |
| `Tokenizers.Tokenizer.Encode` | src/tokenizer.cpp:372-442 | the special-token scan, pre-tokenizer and merge loops return the ids of the specification, whose pieces are those of `Pieces.CutIff`, BOS first when asked for |
| `Tokenizers.Tokenizer.Decode` | src/tokenizer.cpp:448-477 | the decoding loops return the text of the specification |
| `Tokenizers.SkippingDropsSpecials` | src/tokenizer.cpp:448-477 | decoding with skip_special is decoding the ids that are not special |
| `Serving.StepKeepsInv` | src/server.cpp:802-858 | every step of every thread keeps the invariant relating mutex holder, queue, worker stage, channel and the logs of each connection |
| `Serving.ExclusiveModelAccess` | src/server.cpp:802-858 | in every reachable state at most one thread touches the model, the mutex is held on its behalf, and the queue holds at most one request |
| `Serving.MutexOutlivesRequest` | src/server.cpp:538-612 | the mutex stays with the same chat handler from one worker access of its request to the next, until the last |
| `Serving.StreamDelivered` | src/request.cpp:204-239 | per request the consumer has seen a prefix of the accepted events, the channel holds exactly the rest in order within its capacity, and at the end it has seen TOKEN* and one FINISH or ERR |
| `Serving.NeverBothBlocked` | src/server.cpp:558-586 | no in-flight request has both the worker and its handler blocked, cancelled or not |
| `ServingRuns.CancelledIff` | src/server.cpp:570-574 | in every run a request is cancelled from its first failed send of a token on, and only then |
| `ServingRuns.CancelledLeavesLoop` | src/request.cpp:151-152 | after a failed send the worker leaves the head of its loop only towards the end of the request, never to another piece or forward pass |
| `ServingRuns.CancelledStreamEnds` | src/request.cpp:151-202 | after a failed send the stream grows by at most the event just being pushed, one flushed rest and the terminal event |
| `ServingRuns.StreamIsShort` | src/request.cpp:151-202 | no stream has more than max_tokens tokens, one flushed rest and one terminal event |
| `ServingRuns.AnswerIsWhatWasDecided` | src/request.cpp:106-239 | over whole runs a client sees exactly the events its request's steps decided, in order: every produced piece, then the error of the exception or the reason the loop ended with; a promise holds a text if and only if there was no exception |
| `Serving.EveryConnectionIsServed` | src/server.cpp:802-858 | no run is longer than the initial cost, whatever the schedule, and a run that cannot be extended has answered every connection |
| `Serving.RunsKeepInv` | src/server.cpp:802-858 | the invariant holds in every state of every run |
| `Channels.TokenChannel.PushEvent` | src/stream.cpp:23-29 | an event pushed before close joins the accepted ones, after close it is dropped; accepted events are always the delivered ones followed by the queue, which never exceeds the capacity |
| `Channels.TokenChannel.PopEvent` | src/stream.cpp:31-39 | a pop delivers the first accepted event not yet delivered; nothing comes back only from a closed channel of which everything accepted has been delivered |
| `Channels.TokenChannel.DrainEvents` | src/server.cpp:567-586 | after close the handler's loop receives, in order, the accepted events not yet delivered, up to the first terminal event or all of them |
| `Channels.TokenChannel.FinishAndDrain` | src/request.cpp:213-220 | a stream that ends with its terminal event and the close is delivered whole: every token the handler had not had yet, then the terminal event |
| `Channels.RequestQueue.WaitPop` | src/request.cpp:21-28 | requests come out in submission order, also after shutdown, and only a stopped and empty queue returns nothing |
| `StopMatchers.SafeLengthIsSound` | src/request.cpp:59-80 | while no pattern occurs, every occurrence completed by any continuation starts at or after the safe length |
| `StopMatchers.SafeLengthIsTight` | src/request.cpp:59-80 | whenever text is held back, some continuation completes a pattern starting exactly there |
| `StopMatchers.StopMatcher.Feed` | src/request.cpp:44-80 | -1 exactly when the accumulated text contains a pattern, and then the text is cut at the first pattern found; otherwise the number of bytes of the piece below the safe length |
| `StopMatchers.StopsAtFirstHit` | src/request.cpp:44-80 | over any sequence of pieces the stop comes at exactly the first piece whose accumulated text contains a pattern |
| `StopMatchers.SingleStopIgnoresSplit` | src/request.cpp:44-80 | for one pattern the kept text is the text before its first occurrence, for every split into pieces |
| `StopMatchers.SplitMattersUnlessFirstInAll` | src/request.cpp:44-80 | for any pattern list the kept text is the same for every way of cutting a text into pieces if and only if every pattern contains the first one of the list |
| `StopMatchers.FlushRepeatsTheText` | src/request.cpp:82-86 | for every run, stopped or not: sent plus flushed text is the text kept if and only if there are no patterns or every non-empty piece before the stop ends in a possible start of a pattern at or before the piece's own start |
| `Workers.Worker.Loop` | src/request.cpp:141-179 | the chat loop samples the tokens of the decoding loop of `generate` with its own stop conditions (two end tokens, stop sequences, cancel flag, context size), and sends and keeps what the stop matcher's specification says |
| `Workers.Worker.Process` | src/request.cpp:118-202 | the reply (streamed pieces with the final flush, finish reason, block text) and the host cache after one chat request, empty prompt included |
| `Workers.Worker.Run` | src/request.cpp:106-116 | the worker serves every queued request in order on the shared caches until a stopped queue is empty |
| `Workers.ChatsDoNotLeak` | src/request.cpp:118-202 | in any series of chat requests on shared caches, each request that stays in the device cache or never uses it gets the reply computed from the request alone: tokens, reason, pieces and text |
| `Workers.StreamedText` | src/request.cpp:169-185 | the pieces a client receives add up to the answer's text if and only if there are no stop sequences or no piece had a byte that was safe to send before the flush |
| `Workers.BlockWithoutStop` | src/request.cpp:187-199 | a block answer in which no stop sequence occurs is the decoded text if and only if there are no stop sequences or no byte of it is the first byte of one |
| `Workers.BlockAtStop` | src/request.cpp:190-196 | a block answer cut by a stop sequence is the text before it if and only if every byte of that text was held back when it came |
| `Answers.ChatReply` | src/request.cpp:141-202 | the reply is made of generated tokens of which none is an end token, at most max_tokens and no more than the context holds; the reason is "stop" if and only if an end token was sampled or the streamed text holds a stop sequence |
| `GgufValues.ValueRoundTrip` | src/gguf.cpp:128-214 | at any place in a buffer, reading a written value gives it back if and only if it is well formed (only the field of its type filled, array elements of one type, recursively) |
| `GgufValues.ItemReads` | src/gguf_write.cpp:78-106 | for a value of any nesting, the bytes written are read back exactly when it is well formed, and then exactly they are consumed |
| `GgufValues.ReadIsWellFormed` | src/gguf.cpp:128-214 | whatever the bytes are, a value the reader completes is well formed once no unknown type tag occurs in it, so it can be exported and read back |
| `GgufValues.FileWriter.WriteValue` | src/gguf_write.cpp:78-106 | the recursive writer appends the encoding of the value and nothing else |
| `GgufValues.FileWriter.Wpad` | src/gguf_write.cpp:37-45 | the file is padded with zeros to the next multiple of the alignment |
| `GgufValues.Reader.ReadString` | src/gguf.cpp:117-124 | the cursor and the result after a length-prefixed string, the two failing cases included |
| `GgufValues.Reader.ReadMetadataArray` | src/gguf.cpp:128-175 | array head and item loop, with every early exit on missing bytes |
| `GgufValues.Reader.ReadMetadataValue` | src/gguf.cpp:177-214 | a type tag and a value; a value cut short keeps its tag |
| `GgufFormat.TableReads` | src/gguf.cpp:282-297 | the tensor table is read back whole if and only if every tensor has at most eight dimensions |
| `GgufFormat.FileParses` | src/gguf.cpp:253-308 | parsing the written file returns its pairs, table, aligned data offset and data section if and only if every tensor has at most eight dimensions |
| `GgufFormat.ExportParses` | src/gguf_write.cpp:215-306 | the parsed metadata are exactly the fourteen fixed keys and the tokenizer keys the base model has, with its values; the table is the plan's; the data offset is where the writer began the data |
| `GgufCuts.CutCrashes` | src/gguf.cpp:282-297 | a written file cut anywhere at or behind the end of its metadata makes the parser read past its buffer if and only if the cut falls into the last four bytes of a row of the tensor table; it is never rejected |
| `GgufFormat.PlanNamesDistinct` | src/gguf_write.cpp:153-196 | all exported tensor names are different, for every number of layers |
| `GgufFormat.ExportedTensorLoads` | src/model.cpp:136-168 | loading an exported tensor by name returns its shape, type and bytes if and only if it is F16 |
| `GgufIo.BuildPlan` | src/gguf_write.cpp:173-209 | the entries in order with their 32-byte aligned offsets, or a refusal exactly when an F16 tensor has the wrong byte count |
| `GgufIo.GgufWriteF16` | src/gguf_write.cpp:215-306 | which models are refused and why, and the complete bytes written otherwise; `GgufModel.ExportedLayerLoads` says what they hold |
| `GgufIo.GgufLoad` | src/gguf.cpp:220-308 | the parse loops return the parser specification on every byte string, malformed ones included |
| `GgufIo.LoadTensorFromGguf` | src/model.cpp:136-168 | first table row of that name, bounds check, and the bytes at its offset |
| `GgufIo.ExportThenLoad` | src/gguf_write.cpp:215-306 | for every entry of the plan: export, parse and load by its name return its tensor if and only if that is F16; `GgufModel` says which field has which name |
| `GgufModel.ExportedLayerLoads` | src/model.cpp:630-649 | reading the parsed export of an F16 model by the loader's names gives for every layer the attention norm, wq, wk, wv, wo, the FFN norm, gate, up and down matrices of that layer, each under its own name, and nothing for the two sub-norms |
| `GgufModel.ExportedGlobalsLoad` | src/model.cpp:621-626 | likewise the embedding matrix and the output norm |
| `GgufModel.LoadModel` | src/model.cpp:490-517 | reading the configuration keys over the defaults, the two model-wide tensors and the layers one by one gives the model of the specification, unreadable settings included |
| `GgufModel.ExportReloads` | src/gguf_write.cpp:256-271 | exporting an F16 model and loading the file gives its tensors without the sub-norms, its layer count, sizes, context length and rope base, and a new model's head counts and eps |
| `GgufModel.ReloadedIff` | src/model.cpp:503-517 | the model comes back whole if and only if it has no sub-norms, its head counts, head size and eps are those of a new model, and its vocabulary size is that of the embedding matrix |
| `GgufModel.ExportThenLoadModel` | src/gguf_write.cpp:215-306 | the writer, the parser and the loader in a row give that model |
| `GgufModel.MagicSpelled` | src/gguf_write.cpp:248-250 | a file starts with the four letters GGUF |
| `Encoding.ByteOrder` | src/gguf_write.cpp:23-28 | byte i of a stored integer holds its bits from 8i on |
| `Tensors.BlkNameInjective` | src/gguf_write.cpp:153-155 | layer number and suffix can be read off a tensor name |
| `Layout.RegionsDisjoint` | src/gguf_write.cpp:196-206 | regions laid out at aligned offsets do not overlap |
| `Layout.RegionAt` | src/gguf_write.cpp:289-298 | each region's bytes lie at its offset in the section |
| `TvCache.SaveThenLoad` | src/cache.cpp:263-472 | loading what was saved completes, restores shape, type and bytes of every present tensor, leaves absent ones as they were and restores the adapter settings, if and only if no present tensor has more than four dimensions |
| `TvCache.FileGeometry` | src/cache.cpp:278-335 | for any number of tensors the recorded size is the file's length, the data section is 4096-aligned and behind the table, every region is 64-aligned and no two overlap |
| `TvCache.NameInjective` | src/cache.cpp:211-258 | different tensors have different names |
| `TvCache.NameFits` | src/cache.cpp:284-287 | with fewer than 2^31 tensors every name fits the 128-byte field and contains no NUL |
| `TvCache.TensorLoads` | src/cache.cpp:418-460 | for each tensor: what loading one row of the saved file gives, present or absent |
| `TvCacheIo.Model.Save` | src/cache.cpp:263-372 | the collecting, planning and writing loops produce exactly the file of the format |
| `TvCacheIo.Model.TryLoad` | src/cache.cpp:378-472 | status, tensors and settings after loading any byte string, with the partly loaded model after a failure |
| `TvCacheIo.Model.Transfer` | src/cache.cpp:263-472 | saving one model and loading into another replaces its present tensors and settings |
| `TvCacheFields.AttentionNames` | src/cache.cpp:212-234 | which field of a layer is stored under which name: norm, query, key, value, output and sub-norm |
| `TvCacheFields.FfnNames` | src/cache.cpp:212-234 | likewise for the feed-forward half |
| `TvCacheFields.FieldsRestored` | src/cache.cpp:212-261 | loading a saved model into another one sets each field that was present to what was saved and leaves the others alone, if and only if no present tensor has more than four dimensions |
| `TvCacheIo.LoadTensor` | src/cache.cpp:418-452 | allocation by the row's shape, the byte count read into it, short reads and over-long reads |
| `Sha256.PadZerosLeast` | src/cache.cpp:118-122 | the padding uses the least number of zero octets that leaves room for the length field |
| `Sha256.PadIsBlocks` | src/cache.cpp:118-126 | the padded message is a whole number of blocks, less than one block longer than needed |
| `Sha256.Ctx.Update` | src/cache.cpp:107-116 | after any update the context is the fold of compression over the complete blocks of everything fed in, plus the tail |
| `Sha256.Ctx.Compress` | src/cache.cpp:83-105 | one block is processed as section 6.2 of RFC 6234 says |
| `Sha256.Ctx.Finalize` | src/cache.cpp:118-130 | the padding loop terminates and the result is the digest of the padded message |
| `Sha256.HashPieces` | src/cache.cpp:107-130 | however a message is cut into updates, the digest is that of the whole |
| `Sha256.HashFile` | src/cache.cpp:138-151 | hashing a file in 65536-byte reads gives the digest of its contents |
| `Sha256Constants.RoundConstants` | src/cache.cpp:39-56 | each round constant is the first 32 bits of the fractional part of the cube root of its prime, 2 to 311 |
| `Sha256Constants.InitialHash` | src/cache.cpp:77-81 | the initial hash is that of the square roots of 2 to 19 |
| `Sampler.KeptAreBest` | src/sampler.cpp:50-102 | a token kept by both filters is at least as probable as any dropped one |
| `Sampler.SelectionIsTopK` | src/sampler.cpp:50-73 | whatever permutation the selection leaves, the kept set is the k highest ranked tokens, ties broken by id |
| `Sampler.NucleusIsSmallest` | src/sampler.cpp:75-102 | any set of tokens with fewer members than the nucleus stays below top_p |
| `Sampler.NucleusReaches` | src/sampler.cpp:75-102 | the nucleus reaches top_p whenever all possible tokens together do |
| `Sampler.NucleusKeepsHighest` | src/sampler.cpp:75-102 | nucleus tokens rank above all dropped possible tokens |
| `Sampler.BestSurvives` | src/sampler.cpp:50-102 | the most probable token survives both filters |
| `Sampler.RenormalizedIsDistribution` | src/sampler.cpp:104-125 | after renormalization the probabilities add up to one and exactly the survivors have any |
| `Sampler.PickIsInterval` | src/sampler.cpp:127-147 | the draw returns the token whose interval of the cumulative distribution contains it, so its length is the token's probability |
| `Sampler.DrawSurvives` | src/sampler.cpp:133-147 | every positive draw up to the total mass returns a token of positive probability |
| `Sampler.ZeroDraw` | src/sampler.cpp:140-147 | the draw 0 returns a survivor if and only if token 0 is one |
| `Sampler.SampleSurvives` | src/sampler.cpp:13-147 | for every draw in (0,1) the sampled token survives the filters and the fallback is not taken |
| `Sampler.TopOneIsGreedy` | src/sampler.cpp:13-147 | with top_k = 1 every draw in (0,1) returns the token whose adjusted logit ranks highest, whatever the other settings are |
| `Sampler.PenaltyLowersPositive` | src/sampler.cpp:30-38 | the repetition penalty lowers a seen token's logit if and only if the logit is positive |
| `Sampler.SampleToken` | src/sampler.cpp:13-147 | the in-place loops return the token of the specification, whose draws `SamplerLaws` describes, fallback included |
| `SamplerLaws.SharesInRatio` | src/sampler.cpp:20-125 | from the raw logits: the shares of the unit interval add up to one, and those of two tokens that can come out stand in the ratio of the exponentials of their logits divided by the temperature, and for a seen token by the penalty |
| `SamplerLaws.SampleIsInterval` | src/sampler.cpp:127-147 | the draws in (0,1) that return a token are an interval as long as its share |
| `SamplerLaws.ProbabilitiesInRatio` | src/sampler.cpp:20-48 | the same ratio holds for any two tokens after the softmax |
| `SamplerLaws.AdjustedIs` | src/sampler.cpp:20-38 | every logit enters divided by a positive temperature, a seen one also by a penalty above one, once however often it was seen |
| `SamplerLaws.ColderIsSharper` | src/sampler.cpp:20-25 | at a lower temperature the token with the largest logit is at least as probable |
| `SamplerLaws.CanReturnIff` | src/sampler.cpp:127-147 | some draw in (0,1) returns a token if and only if it passes both filters |
| `SamplerLaws.SampleIsNucleus` | src/sampler.cpp:75-102 | with 0 < top_p < 1 the tokens that can come out are the smallest set of top-k survivors that reaches top_p, or all survivors if they do not |
| `SamplerLaws.SampleIsTopK` | src/sampler.cpp:50-73 | without top-p exactly the top-k survivors can come out |
| `Planner.Device.InitGpu` | src/model.cpp:264-431 | layers taken and bytes allocated by the two passes; allocated plus remaining bytes are the budget, so it is never exceeded and never underflows |
| `Planner.Device.OffloadInt8` | src/model.cpp:349-420 | charging the budget matrix by matrix and norm by norm never underflows and adds up to the checked size |
| `Planner.PlanIsOptimal` | src/model.cpp:288-431 | for equal F16 layers that all fit in INT8 every layer is offloaded within the budget, with as many in F16 as the 32-bit conversion of the quotient says; no split within the budget has more F16 layers if and only if the quotient is below 2^31 or its conversion is no less than the layer count |
| `Int8.NothingIsClipped` | src/model.cpp:374-410 | no weight is clipped by the computed scale |
| `Int8.WithinHalfStep` | src/model.cpp:374-410 | each dequantized weight is within half the scale of the original |
| `Int8.FullRangeIff` | src/model.cpp:382-391 | some weight is stored as 127 or -127 if and only if not all weights are zero, so the scale is no larger than it must be |
| `Int8.QuantizeLoop` | src/model.cpp:374-410 | the quantizing loops return exactly the rounded weights and the scale |
| `Int8.GemvInt8` | cuda/ops_cuda.cu:81-103 | 32 strided lanes, the shuffle tree and one multiplication give the scaled sum of the products |
| `Int8.Int8ErrorBound` | cuda/ops_cuda.cu:81-103 | the INT8 product of any column is within scale/2 times the sum of |x_k| of the unquantized product |
| `Lora.MergeIsExact` | src/model.cpp:180-258 | multiplying by merged weights is the base output plus the scale times the two-stage adapter product, for every input row, output and shape |
| `Lora.GainIsAlphaOverRank` | src/model.cpp:226-258 | rank times what an entry gains is alpha times the adapter's entry |
| `Lora.OrderDoesNotMatter` | src/model.cpp:652-757 | any list of adapters applied in any order yields the same weights |
| `Lora.ApplyAllAdds` | src/model.cpp:652-757 | a list of adapters adds the shares of its members to every entry |
| `Lora.SettingsDependOnOrder` | src/model.cpp:664-688 | for any list of adapters, the recorded alpha is the same in every order if and only if one was recorded before or all non-zero alphas in the list are equal, and the recorded rank if and only if all ranks are equal |
| `Lora.MatmulLora` | src/model.cpp:180-203 | the triple loop fills the column-major product of the two adapter matrices |
| `Lora.ApplyLora` | src/model.cpp:205-258 | the weights in place become the merged ones |
| `Lora.Weights.ApplyFiles` | src/model.cpp:652-757 | applying the files one after the other leaves the merged weights and the recorded settings |

## Left out

- IEEE rounding, fast-math, F16/BF16 conversion, SIMD instruction semantics, thread scheduling inside parallel loops
  and CUDA memory calls: sums are exact, so the different summation orders of the kernels agree.
- Sockets, HTTP and SSE formatting, JSON, the command line, directory and file handling: files are byte sequences,
  events are data. The CUDA headers and the HTTP server code outside the accept loop are not part of this model.
- CpuModel.Model.Generate: over-long prompts, which the code refuses, are outside its precondition.
- Workers.Worker.Process: prompts longer than the context are outside its precondition, as for `generate`. The cancel
  flag is an input, one value per iteration. Pieces are returned in order; the channel they pass through is modelled
  in `Channels` and `Serving`. Exceptions are modelled in `Serving` only.
- Token ids outside the vocabulary, and `score_logprobs`, which applies the final norm twice.
- Gemm.TiledGemv: within a vector step the columns and lanes of a tile are updated at once; the order of the
  independent multiply-adds inside a step is not modelled. The BF16 and F32 paths have the same loops as the
  several-row path. The slow mixed-type path of `tensor_matmul` is not modelled.
- Serving.EveryConnectionIsServed: shutdown and the early returns of the accept loop are not modelled. A blocked wait
  is an action that is not enabled, so wake-ups are not modelled; fairness is not needed, since every run is finite.
- Channels.TokenChannel.PopEvent: called only when the wait would return, and likewise `PushEvent` and
  `RequestQueue.WaitPop`; `Serving` models the waiting.
- Tokenizers.RoundTripExactly: empty special tokens are excluded; the scanner would not advance on them. The chat
  template is not modelled.
- GgufFormat.ExportParses: passed-through tokenizer values must be well formed; the parser leaves other values only
  for unknown type tags and truncated files (`GgufValues.ReadIsWellFormed`). The file must be smaller than 2^64 bytes.
  Verbose output and I/O errors are not modelled.
- GgufModel.ExportReloads: the caches consulted by `Model::load` and the adapters applied by it are the parts
  `TvCache` and `Lora`; a layer count below zero, a zero head count and settings cut short are one outcome, no model.
- TvCache.SaveThenLoad: the scale of a tensor is not stored by the format; hashes enter the header as 32 bytes, their
  hex spelling is not modelled; a name field without terminator, rename and allocation failure are not modelled. The
  file must be smaller than 2^64 bytes.
- Sha256.Ctx.Compress: the first of the two round loops works on local variables that are not used afterwards and is
  not modelled.
- Sampler.SampleToken: `std::nth_element` enters through its result, `std::sort` as an insertion of each token into
  the ranked list.
- Planner.PlanIsOptimal: sizes are below 2^64 and the layer count below 2^31; products of byte counts are unbounded.
  Layers of different sizes have the budget guarantee only.
- Lora.OrderDoesNotMatter: an adapter's alpha and its inferred rank are inputs, and the rank must be positive; storing
  merged weights as F16 rounds, which is not modelled.
- Int8.Int8ErrorBound: F16 weights are reals.
- The CPU matrix products of `CpuModel` are the function that the loops of `Gemm` are proved to compute, not calls of
  these loops.
