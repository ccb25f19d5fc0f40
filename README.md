# rxntorch core in Dafny

This project models two parts of rxntorch, a PyTorch tool for predicting reaction outcomes from SMILES strings.

- **The reaction dataset** (`RxnDataset` in `rxntorch/containers/dataset.py`):
  - dropping reactions with too many reactants or products;
  - building the reactant and product frequency tables and the ranked token lists whose positions are the token IDs (`create_vocab`);
  - saving and loading those tables;
  - tokenising every reaction into ID sequences (`tokenize_data`). This also covers the length cut-off counts and the split of the records into a training shard and a dev shard (every hundredth record goes to dev).
- **The bookkeeping of the reactivity trainer** (`ReactivityTrainer.iterate` and `save` in `rxntorch/models/reactivity_network.py`):
  - the neighbour and atom padding masks;
  - the label clamp and the loss weight that hides padded pairs;
  - the masked mean loss;
  - the `top_k` of the network's `forward`, and the flattening of `top_k` into `(example, index)` pairs;
  - the recovery of each example's labels and predictions from those pairs, and the "all changing pairs found among the first 10 / 20" counts;
  - the window accumulators logged and reset every `log_freq` batches;
  - the learning rate written into the optimizer after every batch;
  - the path the model is saved to.

Modules:

| file | module | what it holds |
|---|---|---|
| `wrappers.dfy` | `Wrappers` | `Option` |
| `counting.dfy` | `Counting` | `sum` over a list of 0/1 flags |
| `sorting.dfy` | `Sorting` | Python's stable `sorted(..., reverse=True)`, as an insertion sort on a key |
| `tokens.dfy` | `Tokens` | `str.split('.')`, molecule-token joining with `'.'` separators and the final `pop()`, `list.index`, encoding and decoding |
| `vocabulary.dfy` | `Vocabulary` | an insertion-ordered Python dict of counts and the ranked token list |
| `dataset.dfy` | `Dataset` | the reaction record, the `RxnDataset` class and the functions that specify its methods |
| `masks.dfy` | `Masks` | masks, label clamp, loss weight, masked mean |
| `accuracy.dfy` | `Accuracy` | `torch.topk`, the `sp_top_k` loop, per-example recovery, all-correct |
| `decimal.dfy` | `Decimal` | Python's `"%d"` and reading it back |
| `trainer.dfy` | `Trainer` | per-batch statistics, the log windows, the `ReactivityTrainer` class |

Modelling choices:

- **SMILES tokeniser.** The tokeniser `smiles_parser.parser_list` is not part of this model. It is a parameter `parse: string -> Option<seq<Token>>`, where `None` stands for "raised an exception".
- **Network outputs.** The network itself (`WLNet`, attention, scoring) is not part of this model either. For each batch its outputs are inputs: the element-wise losses, the `top_k` indices, and the parameter and gradient norms.
- **Reals.** Tensors of reals are sequences of Dafny `real`, so arithmetic is exact.
- **Sources of truth.** Where the code and its documentation disagree, the model follows the code. The docstring of `save` gives the path as `file_path + "ep%d"`, while the code writes `file_path + ".ep%d"`. `SavePath` follows the code.

## Model

| member | source | states |
|---|---|---|
| `Dataset.KeepReactantsAtMost` | rxntorch/containers/dataset.py:72-74 | A reaction survives `remove_max_reactants` iff it was in the dataset and has at most `max_reactants` reactants. Each reaction is kept or dropped on its own, and relative order is preserved (the filter distributes over concatenation). |
| `Dataset.KeepProductsAtMost` | rxntorch/containers/dataset.py:76-78 | The same three facts for `remove_max_products` and the product count. |
| `Dataset.Filter` | rxntorch/containers/dataset.py:73 | The comprehension keeps no more elements than it is given, and every kept element passes the test. |
| `Dataset.RxnDataset.RemoveMaxReactants` | rxntorch/containers/dataset.py:72-74 | The dataset's reactions become the order-preserving filter of the old ones by reactant count. |
| `Dataset.RxnDataset.RemoveMaxProducts` | rxntorch/containers/dataset.py:76-78 | The dataset's reactions become the order-preserving filter of the old ones by product count. |
| `Dataset.RxnDataset.constructor` | rxntorch/containers/dataset.py:26-33 | A new dataset holds the given reactions and two empty frequency tables. |
| `Tokens.SplitDots` | rxntorch/containers/dataset.py:94-96 | `str.split('.')` always yields at least one piece. |
| `Tokens.SplitDotsPieces` | rxntorch/containers/dataset.py:94-96 | No piece of the split contains a '.'. |
| `Tokens.SplitDotsJoin` | rxntorch/containers/dataset.py:94-96 | Joining the pieces with '.' gives back the original string. |
| `Tokens.ParseAll` | rxntorch/containers/dataset.py:102-110 | The molecules all parse iff each one does; the parse of every molecule is kept, in order. |
| `Tokens.TerminatedIsJoinThenDot` | rxntorch/containers/dataset.py:102-113 | Appending each molecule's tokens followed by '.' and then popping once gives the token lists joined by '.'. |
| `Tokens.JoinMolecules` | rxntorch/containers/dataset.py:102-113 | The `+=` / `pop()` loop gives the molecules' tokens joined by '.'. It returns nothing when a molecule fails to parse or when the list is empty (`pop` from an empty list raises). |
| `Tokens.JoinedTokens` | rxntorch/containers/dataset.py:102-113 | The joined token list of a side exists iff the side has at least one molecule and every molecule parses. Its join form is stated by `TerminatedIsJoinThenDot` and `JoinMolecules`. |
| `Tokens.IndexOf` | rxntorch/containers/dataset.py:190-191 | `list.index`: the first position holding the token, and raises (None) iff the token is absent. |
| `Tokens.Encode` | rxntorch/containers/dataset.py:190-191 | The ID comprehension succeeds iff every token is in the list. It keeps the length, each ID points at its token, and each ID is the token's first position (`list.index`), even when a token appears twice. |
| `Tokens.DecodeEncode` | rxntorch/containers/dataset.py:190-191 | Decoding the IDs through the same list gives back the tokens. |
| `Vocabulary.Bump` | rxntorch/containers/dataset.py:117-127 | Counting one token raises its count by one and leaves every other count alone. A new key goes at the end of the insertion order. |
| `Vocabulary.Tallied` | rxntorch/containers/dataset.py:117-127 | Counting a token sequence never drops a key and adds at most one new key per token. |
| `Vocabulary.BumpWellFormed` | rxntorch/containers/dataset.py:117-127 | Counting keeps every key listed exactly once with a positive count. |
| `Vocabulary.TalliedCounts` | rxntorch/containers/dataset.py:117-127 | After counting a token sequence, each token's count has grown by its number of occurrences in the sequence. |
| `Vocabulary.TalliedExtendsOrder` | rxntorch/containers/dataset.py:117-127 | Counting only appends keys; earlier keys keep their insertion positions. |
| `Vocabulary.TalliedAppend` | rxntorch/containers/dataset.py:117-127 | Counting `a + b` is counting `a` and then `b`. |
| `Vocabulary.Tally` | rxntorch/containers/dataset.py:117-121 | The counting loop yields a well-formed table in which each token's count has grown by its occurrences. |
| `Vocabulary.Ranked` | rxntorch/containers/dataset.py:131-135 | `sorted(vocab, ...)` lists as many tokens as the table has keys. |
| `Vocabulary.TokenList` | rxntorch/containers/dataset.py:81-88 | The token list is three longer than the table, with `_PAD`, `_GO`, `_EOS` at `PAD_ID`, `GO_ID`, `EOS_ID`. |
| `Vocabulary.TokenListShape` | rxntorch/containers/dataset.py:81-88 | The token list has `_PAD`, `_GO`, `_EOS` at IDs 0, 1, 2, then every counted token exactly once and nothing else, so its length is 3 plus the number of distinct tokens. |
| `Vocabulary.RankedByFrequency` | rxntorch/containers/dataset.py:131-135 | The ranked part is in non-increasing order of count. |
| `Vocabulary.RankedKeepsInsertionOrderOnTies` | rxntorch/containers/dataset.py:131-135 | Tokens with equal counts keep the order in which they were first counted, as Python's stable `sorted` does. |
| `Sorting.SortDesc` | rxntorch/containers/dataset.py:131-132 | The sort is a permutation of its input. |
| `Sorting.SortDescIsDescending` | rxntorch/containers/dataset.py:131-132 | The sort's output is in non-increasing key order. |
| `Sorting.SortDescIsStable` | rxntorch/containers/dataset.py:131-132 | Elements with equal keys appear in the output in their input order. |
| `Dataset.VocabSides` | rxntorch/containers/dataset.py:94-115 | `create_vocab` builds a reaction's sides iff every '.'-separated piece of every side parses. |
| `Dataset.CombineSides` | rxntorch/containers/dataset.py:114-115 | `reactant_list += '>'; reactant_list += reagent_list` (also at dataset.py:186-187 in `tokenize_data`): the sides exist iff all three token lists do. The reactant side is then the reactant tokens, one '>' at their length, and the reagent tokens after it; the product side is the product tokens. |
| `Dataset.VocabSidesShape` | rxntorch/containers/dataset.py:94-115 | When built, the reactant side is reactants '.'-joined, '>', reagents '.'-joined; the product side is products '.'-joined. |
| `Dataset.TokenSides` | rxntorch/containers/dataset.py:170-187 | `tokenize_data` builds the sides iff each side has a molecule and every molecule parses. |
| `Dataset.TokenSidesShape` | rxntorch/containers/dataset.py:170-187 | A reaction without reagents always fails (`pop` from an empty list). Built sides have the same join form as in `create_vocab`. |
| `Dataset.VocabErrors` | rxntorch/containers/dataset.py:90-129 | `error_rsmi` holds exactly the indices of the failing reactions, each mapped to its reaction string. |
| `Dataset.CreateVocabStep` | rxntorch/containers/dataset.py:92-129 | One loop iteration: a successful reaction counts its sides' tokens into the tables and records no error. A failing one changes neither table and records its index. |
| `Dataset.FailingReactionCountsNothing` | rxntorch/containers/dataset.py:128-129 | A failing reaction anywhere in the dataset contributes no token to either table and is reported with its string. |
| `Dataset.VocabCounts` | rxntorch/containers/dataset.py:117-127 | From empty tables, each count is the token's number of occurrences on the reactant (product) sides of the reactions that did not fail, and only such tokens are keys. |
| `Dataset.CountReactions` | rxntorch/containers/dataset.py:92-129 | The reaction loop leaves the tables equal to counting the corpus of successful sides, and returns the failing reactions. |
| `Dataset.ReactionVocabSides` | rxntorch/containers/dataset.py:94-115 | The `try` body up to the counting gives the sides `VocabSides` specifies. |
| `Dataset.RxnDataset.CreateVocab` | rxntorch/containers/dataset.py:80-135 | `create_vocab` counts the successful reactions' tokens into both tables and rebuilds both ranked lists from the new tables. It returns the failing reactions and keeps the tables well formed. |
| `Dataset.AsWrittenCreateVocabCountsNothing` | rxntorch/containers/dataset.py:94-96 | As written (reading the undefined `self.reactants[i]`), `create_vocab` counts no token and reports every reaction as an error. |
| `Dataset.AsWrittenVocabSides` | rxntorch/containers/dataset.py:94-96 | As written, building the sides of any reaction fails. |
| `Dataset.AsWrittenCreateVocabDiffers` | rxntorch/containers/dataset.py:94-96 | On the one-reaction dataset `C>O>C`, the intended code counts `C > O` and reports no error, while the code as written reports reaction 0. |
| `Dataset.RxnDataset.SaveVocab` | rxntorch/containers/dataset.py:137-148 | Saving writes the pair of tables and the pair of token lists. |
| `Dataset.RxnDataset.LoadVocab` | rxntorch/containers/dataset.py:150-161 | Loading sets both tables and both lists from the saved pairs, and the dataset is valid again whenever the loaded tables are well formed. |
| `Dataset.RxnDataset.SaveThenLoadVocab` | rxntorch/containers/dataset.py:137-161 | Saving and then loading leaves the tables and the lists as they were. |
| `Dataset.TokenizeRxn` | rxntorch/containers/dataset.py:171-194 | How one reaction of `tokenize_data` ends: it fails to parse iff its sides cannot be built, and otherwise its lengths are the side lengths. The ID lookup fails iff some token is missing from its list. An emitted record carries the reaction string, and its IDs are in range and decode back to the sides. |
| `Dataset.RxnDataset.TokenizeReaction` | rxntorch/containers/dataset.py:171-194 | The `try` body for one reaction against the dataset's ranked lists, as `TokenizeRxn` specifies. |
| `Dataset.TokenErrors` | rxntorch/containers/dataset.py:193-194 | `error_rsmi` of `tokenize_data` holds exactly the reactions that were not emitted, each with its string. |
| `Dataset.Records` | rxntorch/containers/dataset.py:190-192 | At most one record is dumped per reaction. |
| `Dataset.TokenLens` | rxntorch/containers/dataset.py:188 | `token_len` has at most one entry per reaction. `TokenizeCounts` bounds the records by it, and `TokenizeStep` says which reactions add an entry. |
| `Dataset.TokenizeStep` | rxntorch/containers/dataset.py:169-194 | One loop iteration: `token_len` grows iff the sides were built, the record list grows iff the record was emitted, and otherwise the error map records the index. |
| `Dataset.TokenizeCounts` | rxntorch/containers/dataset.py:188-192 | There are no more records than `token_len` entries, and no more of those than reactions. |
| `Dataset.TokenizePartition` | rxntorch/containers/dataset.py:169-194 | Every reaction is either emitted or listed in `error_rsmi`, never both. |
| `Dataset.AsWrittenTokenizeEmitsNothing` | rxntorch/containers/dataset.py:190-191 | As written (looking up the undefined `self.reactant_token_list`), `tokenize_data` emits no record and reports every reaction as an error. |
| `Dataset.AsWrittenTokenizeRxn` | rxntorch/containers/dataset.py:190-191 | As written, no reaction is ever encoded, and a reaction fails to parse iff its sides cannot be built; every other reaction fails at the lookup. |
| `Dataset.AsWrittenTokenizeDiffers` | rxntorch/containers/dataset.py:190-191 | On the sample reaction, the intended code emits the record `([0, 1, 2], [0])`, while the code as written emits nothing. |
| `Dataset.WithinMonotone` | rxntorch/containers/dataset.py:202-211 | Tighter length bounds admit no more pairs, and no bound admits more than all of them. |
| `Dataset.Within` | rxntorch/containers/dataset.py:204-211 | A cut count never exceeds the number of length pairs. |
| `Dataset.CutCounts` | rxntorch/containers/dataset.py:202-211 | Each of `count[0]` to `count[3]` is the number of length pairs below the bounds (54,54), (70,60), (90,65) and (150,80) respectively. `count[4]` stays 0, and the counts are non-decreasing up to `len(token_len)`. |
| `Dataset.SplitShards` | rxntorch/containers/dataset.py:214-231 | The record numbered `i` from 1 goes to dev iff `i % 100 == 0`. The dev size is `len // 100` and is the returned count, and train and dev together hold every record. The m-th dev entry is record `100m + 99` (from 0), and the m-th training entry is record `m + m // 99`. |
| `Dataset.ExampleOf` | rxntorch/containers/dataset.py:221-225 | Definition, no contract: a shard entry is the record's two ID lists without its reaction string. `SplitShards` states the shards in terms of it. |
| `Dataset.ShardOfRecord` | rxntorch/containers/dataset.py:222-226 | Each record index is reached by the placement formula of the shard its number selects, at a position inside that shard. |
| `Dataset.ShardsDisjoint` | rxntorch/containers/dataset.py:222-226 | The training formula never reaches a dev record, so no record is in both shards. |
| `Dataset.RxnDataset.TokenizeReactions` | rxntorch/containers/dataset.py:169-195 | The loop over the reactions yields exactly the emitted records, `token_len` and `error_rsmi` that `Records`, `TokenLens` and `TokenErrors` specify. |
| `Dataset.RxnDataset.TokenizeData` | rxntorch/containers/dataset.py:163-231 | `tokenize_data` yields `token_len` and `error_rsmi` as specified. All four cut counts equal `Within` at their bounds and `count[4]` is 0. The two shards are the split of the emitted records. |
| `Masks.Slots` | rxntorch/models/reactivity_network.py:64-69 | A row of `n > arange(width)`: slot `j` is set iff `j < n`. |
| `Masks.SlotsCount` | rxntorch/models/reactivity_network.py:64-69 | A row has exactly `min(n, width)` set slots. |
| `Masks.NeighborMask` | rxntorch/models/reactivity_network.py:64-65 | `mask_neis` has one row of ten slots per example and atom. Slot `j` is set iff `j` is below the atom's bond count. |
| `Masks.NeighborMaskCounts` | rxntorch/models/reactivity_network.py:64-65 | Each atom's set slots form a prefix, as long as its bond count capped at ten. |
| `Masks.MaxOf` | rxntorch/models/reactivity_network.py:66 | `n_atoms.max()` is an element of the batch and at least every element. |
| `Masks.AtomMask` | rxntorch/models/reactivity_network.py:66-69 | `mask_atoms` has one row per example, as wide as the largest example. Entry `a` is set iff `a` is below the example's atom count. |
| `Masks.AtomMaskRows` | rxntorch/models/reactivity_network.py:66-69 | The largest example has an all-set row, and every row has exactly as many set entries as its example has atoms. |
| `Masks.ClampLabel` | rxntorch/models/reactivity_network.py:74 | `relu` maps the padding label -1 to 0 and keeps the labels 0 and 1. |
| `Masks.LossWeight` | rxntorch/models/reactivity_network.py:76 | The weight is 0 exactly on padding labels and 1 elsewhere. |
| `Masks.Weighted` | rxntorch/models/reactivity_network.py:76 | After `loss *= weight`, padded positions are 0 and the rest keep their loss. |
| `Masks.MaskedMean` | rxntorch/models/reactivity_network.py:77 | The mean times the number of elements is the sum of the unpadded losses. |
| `Masks.MaskedMeanIgnoresPadding` | rxntorch/models/reactivity_network.py:74-77 | Changing the losses at padded positions cannot change the mean. |
| `Masks.MaskedMeanAllPadding` | rxntorch/models/reactivity_network.py:74-77 | A batch made only of padding has mean loss 0. |
| `Accuracy.TopKSelects` | rxntorch/models/reactivity_network.py:26 | `torch.topk` gives exactly k distinct in-range positions in non-increasing score order. No position left out scores higher than one selected. |
| `Accuracy.TopK` | rxntorch/models/reactivity_network.py:26 | `torch.topk(scores, k)` returns exactly `k` indices. |
| `Accuracy.RankedPositionsPermutes` | rxntorch/models/reactivity_network.py:26 | Ranking the positions by score lists each position exactly once. |
| `Accuracy.ForwardTopK` | rxntorch/models/reactivity_network.py:25-27 | `forward`'s `top_k` has one row per example of exactly 20 distinct positions, each inside that example's flattened scores. |
| `Accuracy.TopKEach` | rxntorch/models/reactivity_network.py:26 | Row by row, each example's top-k has the size, range and distinctness above. |
| `Accuracy.TaggedLength` | rxntorch/models/reactivity_network.py:94-95 | The flattened top-k has `batch_size * nk` entries. |
| `Accuracy.TaggedEntry` | rxntorch/models/reactivity_network.py:96-98 | Entry `j * nk + k` of the flattened top-k is `(j, top_k[j][k])`. |
| `Accuracy.FlattenTopK` | rxntorch/models/reactivity_network.py:94-98 | The nested loop fills a fresh `batch_size * nk` by 2 buffer with every example's indices tagged by example number, row by row. |
| `Accuracy.FillRow` | rxntorch/models/reactivity_network.py:97-98 | The inner loop writes row `j`'s tagged indices into its slice of the buffer and changes nothing before or after that slice. |
| `Accuracy.SelectAppend` | rxntorch/models/reactivity_network.py:99-102 | Selecting one example's pairs distributes over concatenation. |
| `Accuracy.Select` | rxntorch/models/reactivity_network.py:99-102 | Selecting the pairs tagged `j` yields no more entries than there are pairs, and each entry `x` comes from a pair `(j, x)`. |
| `Accuracy.SelectTagged` | rxntorch/models/reactivity_network.py:99-102 | The pairs tagged `j` give back row `j` in its original order, and an untagged `j` gives nothing. |
| `Accuracy.Positives` | rxntorch/models/reactivity_network.py:91-92 | An example's recovered label positions are exactly those with label 1. |
| `Accuracy.LabelPairs` | rxntorch/models/reactivity_network.py:91-92 | Selecting the pairs of example `j` from `sp_labels` gives that example's label-1 positions, and nothing for an example outside the batch. |
| `Accuracy.MolRecovered` | rxntorch/models/reactivity_network.py:99-102 | `mol_labels[j]` is the label-1 positions of example `j`, and `mol_topk[j]` is its row of `top_k`. |
| `Accuracy.MolLabels` | rxntorch/models/reactivity_network.py:99-101 | Definition, no contract: `mol_labels[j]`, the selection of example `j` from `sp_labels`. `MolRecovered` states its value. |
| `Accuracy.MolTopK` | rxntorch/models/reactivity_network.py:100-102 | Definition, no contract: `mol_topk[j]`, the selection of example `j` from `sp_top_k`. `MolRecovered` states its value. |
| `Accuracy.Hits` | rxntorch/models/reactivity_network.py:103-104 | One flag per target, set iff that target occurs among the predictions. |
| `Accuracy.AllCorrect10` | rxntorch/models/reactivity_network.py:103-106 | One flag per example of the batch; `CorrectIff` states what a flag means. |
| `Accuracy.AllCorrect20` | rxntorch/models/reactivity_network.py:104-107 | One flag per example of the batch; `CorrectIff` states what a flag means. |
| `Accuracy.AllOfIff` | rxntorch/models/reactivity_network.py:106-107 | `.all()` holds iff every entry holds, so it holds on an empty tensor. |
| `Accuracy.Prefix` | rxntorch/models/reactivity_network.py:103 | `s[:k]` is the first `min(k, len(s))` elements of `s`, so it only holds elements of `s`. |
| `Accuracy.CorrectIff` | rxntorch/models/reactivity_network.py:103-107 | Example `j` is all-correct at 10 (20) iff every label-1 position occurs among the first 10 (all) of its top-k. Hence an example with no changing pair is always correct. |
| `Accuracy.FoundIff` | rxntorch/models/reactivity_network.py:103-106 | All hits iff every label-1 position is among the predictions. |
| `Accuracy.Correct10Implies20` | rxntorch/models/reactivity_network.py:103-107 | Correct at 10 implies correct at 20. |
| `Accuracy.CorrectCounts` | rxntorch/models/reactivity_network.py:106-109 | `sum(all_correct_10) <= sum(all_correct_20) <= batch_size`. |
| `Counting.CountTrueMonotone` | rxntorch/models/reactivity_network.py:108-109 | A flag list that is true wherever another is true sums to at least as much. |
| `Counting.CountTrueAll` | rxntorch/models/reactivity_network.py:108-109 | The sum equals the batch size iff every example is correct. |
| `Trainer.StatsOf` | rxntorch/models/reactivity_network.py:71-109 | What one batch adds: at most as many correct at 10 as at 20, at most the batch size, and the batch's norms. |
| `Trainer.BatchLoss` | rxntorch/models/reactivity_network.py:74-78 | Definition, no contract: `loss.item()`, the masked mean of the batch's element-wise losses. `Masks.MaskedMean` and `Masks.MaskedMeanIgnoresPadding` state its meaning. |
| `Trainer.Correct10` | rxntorch/models/reactivity_network.py:106-108 | Definition, no contract: `sum(all_correct_10)`. `StatsOf` and `Accuracy.CorrectCounts` bound it. |
| `Trainer.Correct20` | rxntorch/models/reactivity_network.py:107-109 | Definition, no contract: `sum(all_correct_20)`. `StatsOf` and `Accuracy.CorrectCounts` bound it. |
| `Trainer.BatchSize` | rxntorch/models/reactivity_network.py:94 | Definition, no contract: `batch_size`, the number of top-k rows. `StatsOf` bounds the correct counts by it. |
| `Trainer.Add` | rxntorch/models/reactivity_network.py:78-109 | Definition, no contract: one batch's `+=` on the four accumulators, the gradient norm only in training. `TraceWindow` and `WindowStep` state what the accumulators hold. |
| `Trainer.Total` | rxntorch/models/reactivity_network.py:56-109 | Definition, no contract: the accumulators after adding batches one by one from zero. `TotalBounds` and `TraceWindow` state its properties. |
| `Trainer.StatsSeq` | rxntorch/models/reactivity_network.py:60-109 | The statistics of each batch, in loader order. |
| `Trainer.LogOf` | rxntorch/models/reactivity_network.py:111-135 | A log line carries the window's loss and correct sums and the denominator `log_freq * batch_size`. It has norms iff training: the closing batch's parameter norm and the window's gradient norm sum. |
| `Trainer.Trace` | rxntorch/models/reactivity_network.py:60-140 | The run never logs more lines than batches, and after a multiple of `log_freq` batches the accumulators are zero. |
| `Trainer.Ratio` | rxntorch/models/reactivity_network.py:118-119 | A printed accuracy is defined iff its denominator is positive. It is then in [0, 1] when the count does not exceed the denominator. |
| `Trainer.WindowStart` | rxntorch/models/reactivity_network.py:111 | The open window starts at a multiple of `log_freq`, fewer than `log_freq` batches back (so at the last such multiple), and is empty exactly after a log. |
| `Trainer.WindowStartStep` | rxntorch/models/reactivity_network.py:111 | Between logs the window start stays put, and a log moves it forward by exactly `log_freq`. |
| `Trainer.TraceSnoc` | rxntorch/models/reactivity_network.py:60-140 | One more batch adds to the accumulators, then logs and resets them iff the batch count reaches a multiple of `log_freq`. |
| `Trainer.TraceCount` | rxntorch/models/reactivity_network.py:111 | After `n` batches exactly `n // log_freq` lines have been logged. |
| `Trainer.TraceWindow` | rxntorch/models/reactivity_network.py:56-58 | The accumulators always hold the sum over the batches since the last log. |
| `Trainer.WindowStep` | rxntorch/models/reactivity_network.py:78-140 | One batch keeps the accumulators equal to the sum over the open window. |
| `Trainer.WindowSnoc` | rxntorch/models/reactivity_network.py:78-109 | Adding a batch to the sum over a window is summing the window with that batch. |
| `Trainer.TracePrefix` | rxntorch/models/reactivity_network.py:111-138 | Logged lines are never revised: the lines after fewer batches are a prefix of the later ones. |
| `Trainer.TraceClosing` | rxntorch/models/reactivity_network.py:111-140 | When the batch count is a multiple of `log_freq`, the last line logs the sums over exactly the last `log_freq` batches, with that count as `iter`. |
| `Trainer.TraceLogClosedAt` | rxntorch/models/reactivity_network.py:111-140 | The line logged at batch `hi` holds the sums over batches `hi - log_freq` to `hi`. |
| `Trainer.TraceLogAt` | rxntorch/models/reactivity_network.py:111-140 | Line `m` is logged at `iter (m+1)*log_freq`. It holds the sums over batches `m*log_freq` to `(m+1)*log_freq`, with the closing batch's size and norms. |
| `Trainer.WindowResetAfterLog` | rxntorch/models/reactivity_network.py:139-140 | Right after a log every accumulator is zero. |
| `Trainer.TotalBounds` | rxntorch/models/reactivity_network.py:108-109 | Over any batches, `sum_acc_10 <= sum_acc_20 <=` the number of examples. |
| `Trainer.ExamplesUniform` | rxntorch/models/reactivity_network.py:118-119 | Batches of one size hold `count * batch_size` examples. |
| `Trainer.StatsSeqBounded` | rxntorch/models/reactivity_network.py:106-109 | Every batch of a well-shaped loader has `correct10 <= correct20 <= batch_size`. |
| `Trainer.BoundedSlice` | rxntorch/models/reactivity_network.py:106-109 | Those bounds hold for every run of consecutive batches. |
| `Trainer.WindowBounds` | rxntorch/models/reactivity_network.py:108-109 | The open window's accumulators satisfy `sum_acc_10 <= sum_acc_20 <=` the examples it has seen. |
| `Trainer.LogBounds` | rxntorch/models/reactivity_network.py:111-134 | A logged line has `sum_acc_10 <= sum_acc_20 <=` the examples of its window. When the window's batches all have the closing batch's size, that is the denominator `log_freq * batch_size`, so both accuracies lie in [0, 1]. |
| `Trainer.Decayed` | rxntorch/models/reactivity_network.py:142-144 | Every parameter group gets rate `lr * 0.9`, and the number of groups is unchanged (both in its own contract). |
| `Trainer.DecayedDoesNotCompound` | rxntorch/models/reactivity_network.py:142-144 | Decaying the decayed rates again from the same base gives the same rates: the rate is set from the base every batch and never compounds (`lr * 0.9`, not `lr * 0.9 * 0.9`). |
| `Trainer.ReactivityTrainer.constructor` | rxntorch/models/reactivity_network.py:42-45 | The trainer keeps the base rate and the log period, and the single Adam group starts at the base rate. |
| `Trainer.ReactivityTrainer.SetLearningRates` | rxntorch/models/reactivity_network.py:143-144 | The loop sets every group's rate to `lr * 0.9`. |
| `Trainer.ReactivityTrainer.Accumulate` | rxntorch/models/reactivity_network.py:60-144 | The loop over the batch statistics logs exactly the lines `Trace` specifies. The groups' rates are the decayed base rate after at least one batch and unchanged otherwise. |
| `Trainer.ReactivityTrainer.Iterate` | rxntorch/models/reactivity_network.py:55-144 | `iterate` over a loader logs exactly the lines `Trace` specifies for the loader's batch statistics, and leaves the learning rates decayed after at least one batch. |
| `Decimal.NatToDecimal` | rxntorch/models/reactivity_network.py:153 | `%d` of a natural is a non-empty digit string with no leading zero. |
| `Decimal.IntToDecimal` | rxntorch/models/reactivity_network.py:153 | `%d` of an integer is non-empty and starts with '-' iff the integer is negative. |
| `Decimal.DecimalRoundTrip` | rxntorch/models/reactivity_network.py:153 | `%d` of an integer reads back to that integer. |
| `Trainer.SavePath` | rxntorch/models/reactivity_network.py:153 | The save path is the given path followed by `.ep` and the epoch's digits. |
| `Trainer.SavePathEpoch` | rxntorch/models/reactivity_network.py:146-157 | The epoch can be read back from the saved path, so distinct epochs never write the same file. |
| `Trainer.ReactivityTrainer.Save` | rxntorch/models/reactivity_network.py:146-157 | `save` returns the path `SavePath` specifies. |

## Left out

- Reading the reaction file, the `Rxn` and molecule classes, canonicalisation and mapping removal: this model starts from reactions that are already split into side strings and molecule strings.
- `get_indices_bins` and `save_to_file`: they only print or write files.
- File, gzip and pickle I/O, the progress bar, `print` and `logging`: these are side effects. The saved vocabulary, the intermediate records and the shards become values.
- The `print` of the maximum token lengths in `tokenize_data`: on an empty `token_len` that `print` raises, and this model does not capture that crash.
- The SMILES tokeniser: it is a parameter of the model.
- Dataset.TokenizeRxn: reactions carry molecule strings where the source has molecule objects with a `.smile` attribute.
- Dataset.RxnDataset.CreateVocab, Dataset.RxnDataset.TokenizeData: `error_rsmi` is a local that the source discards (dataset.py:90 and :166); here both methods return it, so that it can be stated.
- The network (`WLNet`, attention, scoring): element-wise losses, scores and `top_k` of each batch are inputs.
- The binary cross-entropy values, the `-10000` score offset, Adam, gradient clipping, and the parameter and gradient norm computations: these are floating-point numerics. The norms are inputs of each batch.
- Trainer.Decayed: `0.9` and all losses are exact reals rather than floating point.
- Masks.MaxOf: an empty batch makes `n_atoms.max()` raise, so this model requires a non-empty batch.
- Masks.AtomMask: it requires a non-empty batch for the same reason.
- Masks.MaskedMean: an empty loss tensor (whose mean is NaN) is excluded.
- Accuracy.TopK: torch raises when `k` exceeds the number of scores, so this model requires `k <= |scores|`. Ties between equal scores are ordered by ascending position; the tie order of `torch.topk` is not specified.
- Masks.NeighborMask: the trailing singleton dimensions that the masks carry for broadcasting are dropped.
- Trainer.ReactivityTrainer.Iterate: the network's per-batch outputs, device moves and the optimizer step are not modelled. Each batch's statistics are a function of that batch alone, so they are computed before the logging loop and not interleaved with it.
- Trainer.ReactivityTrainer.constructor: a log period of 0 makes `(i+1) % self.log_freq` raise; this model requires a positive one.
- Trainer.LogOf: the logged parameter norm is that of the batch that closes the window, and the logged gradient norm is the window's sum. Both appear only in training mode, as in the source. `avg_loss` is the window's sum of losses, not an average.
- Trainer.Ratio: this model states the division, but the `Log` line keeps the count and the denominator rather than the float quotient.
- Trainer.ReactivityTrainer.Save: writing the model with `torch.save` and moving it between devices are not modelled; only the returned path is.
- Default arguments are not modelled; every caller passes them explicitly. They are `lr=1e-4` and `log_freq=10` of the trainer (rxntorch/models/reactivity_network.py:31-32), `train=True` of `iterate` (line 55) and `file_path="output/trained.model"` of `save` (line 146).
- The learning rate is reset to `lr * 0.9` after every batch, in training and evaluation alike. This is faithful to the source (`(i+1) % 1 == 0` always holds).
- Dataset.TokenizeReaction: `token_len` receives a reaction's lengths before its IDs are looked up, so a reaction with an unknown token is counted in `token_len` but not emitted. This is faithful to the source.

## Findings

| source | as written | input that shows it | evidently intended | confidence | as-written member | corrected member |
|---|---|---|---|---|---|---|
| rxntorch/containers/dataset.py:94-96 | `create_vocab` splits `self.reactants[i]`, `self.reagents[i]` and `self.products[i]`. The dataset has none of these attributes, so every reaction raises inside the `try`: no token is counted and every reaction is reported. | A dataset with the single reaction `C>O>C` and a tokeniser that makes each molecule one token | Split the i-th reaction's side strings `self.rxns[i].reactants_smile` and so on | not executed | `Dataset.AsWrittenCreateVocabDiffers` | `Dataset.RxnDataset.CreateVocab` |
| rxntorch/containers/dataset.py:190-191 | `tokenize_data` looks up IDs in `self.reactant_token_list` and `self.product_token_list`. `create_vocab` stores the lists as `reactants_token_list` and `products_token_list`, so every reaction whose sides were built raises there: no record is emitted and the shards are empty. | The same reaction, with ranked lists `["C", ">", "O"]` and `["C"]` | Look the tokens up in `reactants_token_list` and `products_token_list` | not executed | `Dataset.AsWrittenTokenizeDiffers` | `Dataset.RxnDataset.TokenizeData` |
