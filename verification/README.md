# A Dafny model of the quixicore_cpu reference algorithms

The repository is a library of CPU kernels for inference together with a benchmark harness. Every kernel is held
against a scalar reference that defines what it must compute. This project models those references, several of the
kernels that replace them, and the harness's stateful JSON writer, and proves what the comparison relies on.

Floating-point values are exact reals, apart from the bit-level conversions, which work on the patterns themselves, and
the uniform variate, which is the rounded double. `exp`, `tanh`, sigmoid, the decimal printer `%.12g` and the scale
conversions of the cache are parameters (`HalfScale` puts the library's FP16 conversions for the last ones, infinities
and NaN included); where a theorem needs something of them it says so in a predicate (`Softmax.Exponential`: positive, and sums become products;
`Report.PrintsNumbers`: the printer yields number tokens of RFC 8259).

Loops of the repository are loops here, over arrays that are written in place, and each is proved against a
specification function or predicate. What the repository promises is then proved about the specification. Lemmas whose
names end in `WrittenOut`, most of them in modules whose names end in `Formula`, restate the results over the buffers
alone: every index, sum, quotient and exponential is spelled out at the place where the sources have it. They use
`Rows.At` (an element of a buffer), `Arith.RowMajor` (r * width + c), `Arith.Quot` and `Rem`, `Reals.Times`,
`Sums.SumTo` and `Sums.SumOver`, whose laws are `Arith.QuotRem`, `Reals.TimesIs`, `Sums.SumLaws` and `Sums.SumOverLaws`,
and take what a formula names on the way, such as the terms of a sum, as parameters.

| area | files |
|---|---|
| JSON text, a parser for sections 2 to 7 of RFC 8259, the writer, its client and the rows file | JsonText, JsonParser, JsonWriter, Report, ReportFormula |
| rounding to a shorter format, BF16 and FP16 storage | Bits, Rounding, FloatStorage |
| the uniform variate of the samplers, as a double | Uniform |
| the order (score descending, index ascending), logits with their special values, threshold top-k, nucleus sampling, expert routing | Ranking, Logits, TopK, Heap, Nucleus, Sampling, SamplingFormula, Routing, RoutingFormula |
| the paged Q8_0 key/value cache: scatter, gather, block copy, and its codec with FP16 scales | Q8Codec, Q8Cache, Q8Gather, Q8Formula, Q8Copy, NearestFloat, HalfScale |
| N-bit weight packing and the packed projection | BaseQ |
| recurrences: short convolution, delta rule, state space, selective scan | Recurrence, ShortConv, DeltaRule, RecurrenceFormula, StateSpace, SelectiveScan |
| paged attention, materialized and online | Softmax, PagedLayout, PagedAttention, OnlineAttention, AttentionFormula |
| patch extraction, pooling, rotary embedding | PatchLayout, Patches, PatchFormula, Pooling, PoolingFormula, Rotary |
| integer and real arithmetic, sums, rows of flat buffers | Arith, Reals, Sums, Rows, Options |

Four places where the code does less than its surroundings suggest are kept as they are. Each has a failing input and
its exact condition:

- `insert_code` and `load_code` cast the bit index to a 32-bit `int`, and `validate_view` does not bound it: an accepted
  view serves its loads if and only if (columns - 1) * bits < 2^31 (`BaseQ.AcceptedServes`, `BaseQ.LongRowWraps`).
- A storage round trip is not the identity on NaNs. BF16 returns a NaN unchanged if and only if its quiet bit is set, and
  FP16 if and only if it is the canonical quiet NaN of its sign; quiet half NaNs with another payload change as well
  (`FloatStorage.StorageRoundTrip`, `FloatStorage.UnstablePatterns`).
- `uniform01` rounds to exactly one for the last of its 2^53 cells, and then the samplers fall back on the last kept
  token. The kernel, which mixes in a row number, does reach that cell (`Uniform.KernelReachesOne`); the benchmark's
  `uniform01`, which has no row, does so for no seed (`Uniform.BenchmarkBelowOne`).
- A Q8_0 group of finite values does not come back from the cache when its scale is stored as infinity. Its elements are
  read back as reals if and only if the scale lies below 65520 - 2^-9, which for binary32 values means that the largest
  magnitude is below 127 * 65520. From there on none is: elements below half a scale step, zeros included, become NaN
  and the others infinite (`HalfScale.ScatterThenGatherHalves`, `HalfScale.OverflowingGroupLost`). Neither the benchmark
  nor the kernel rejects such a group.

## Model

| member | source | states |
|---|---|---|
| JsonParser.StringRoundTrip | benchmarks/harness/json_writer.h:92-114 | For every string of characters, the parser reads the escaped form back to exactly that string and stops at its closing quote |
| JsonParser.NumberRoundTrip | benchmarks/harness/json_writer.h:58-72 | Every number token of the RFC grammar is read back whole, up to the delimiter that follows it |
| JsonText.IntTextIsNumber | benchmarks/harness/json_writer.h:58-62 | Every printed integer is a number token of the grammar and denotes that integer |
| JsonParser.ValueRoundTrip | benchmarks/harness/json_writer.h:18-114 | A rendered tree followed by any text is read back as that tree, leaving that text |
| JsonParser.TextRoundTrip | benchmarks/harness/json_writer.h:18-114 | Parsing a rendered tree gives the same tree: objects, arrays, strings, numbers, booleans and null |
| JsonParser.RenderInjective | benchmarks/harness/json_writer.h:18-114 | Two different trees never have the same text |
| JsonText.RenderNoControl | benchmarks/harness/json_writer.h:92-114 | No rendered tree holds a character below 0x20 |
| JsonText.EscapesAre | benchmarks/harness/json_writer.h:92-114 | The two-character escapes of quote, backslash, newline, tab and carriage return, and, by the example of 0x1a, the form of the other control characters |
| JsonText.ArrayLayout | benchmarks/harness/json_writer.h:27-76 | The words null, true and false, the brackets of an array and the comma and space between its items |
| JsonText.ObjectLayout | benchmarks/harness/json_writer.h:18-90 | The braces of an object, the quoted names with colon and space, and the comma and space between members |
| JsonWriting.WriteFollowsNote | benchmarks/harness/json_writer.h:18-90 | One legal call moves output, first-flags and key-flag exactly as it moves the tree under construction: separators appear between siblings and nowhere else |
| JsonWriting.EveryRun | benchmarks/harness/json_writer.h:18-90 | Over every run of legal calls the stored state is the text of the partial tree |
| JsonWriting.LegalRunIsDocCalls | benchmarks/harness/json_writer.h:18-90 | A legal run is determined by the partial tree it has built |
| JsonWriting.CompleteRuns | benchmarks/harness/json_writer.h:18-90 | A run of calls yields a finished document if and only if it is the printing of that tree |
| JsonWriting.WriterRoundTrip | benchmarks/harness/json_writer.h:18-119 | Driving the writer over any tree and parsing its output returns the tree |
| JsonWriting.JsonWriter.constructor | benchmarks/harness/json_writer.h:116-118 | A new writer holds no text, no open container and no pending key |
| JsonWriting.JsonWriter.Result | benchmarks/harness/json_writer.h:16 | Once the outermost value is complete, the output is its text and parses to it |
| JsonWriting.JsonWriter.BeginObj | benchmarks/harness/json_writer.h:18-22 | Keeps output and partial tree together; opens an object where a value is wanted, and on misuse leaves what the code leaves |
| JsonWriting.JsonWriter.EndObj | benchmarks/harness/json_writer.h:23-26 | Closes the innermost object and delivers it to its parent |
| JsonWriting.JsonWriter.BeginArr | benchmarks/harness/json_writer.h:27-31 | As BeginObj, for an array |
| JsonWriting.JsonWriter.EndArr | benchmarks/harness/json_writer.h:32-35 | Closes the innermost array and delivers it to its parent |
| JsonWriting.JsonWriter.Key | benchmarks/harness/json_writer.h:37-47 | Names the next member of the innermost object |
| JsonWriting.JsonWriter.Val | benchmarks/harness/json_writer.h:49-76 | Every kind of scalar, a non-finite double becoming null, arrives as the next value |
| JsonWriting.JsonWriter.WriterPrefix | benchmarks/harness/json_writer.h:79-90 | The separator step that the parse-back theorems are about |
| JsonWriting.JsonWriter.AppendString | benchmarks/harness/json_writer.h:92-114 | The character loop appends the quoted form that StringRoundTrip decodes |
| Report.ResultRowJson | benchmarks/harness/report.cpp:44-134 | Through every branch the calls are well nested, and the row parses to one tree determined by the result |
| Report.RowWellFormed | benchmarks/harness/report.cpp:44-134 | Every result, in every branch, yields a tree whose numbers are number tokens |
| Report.RowNames | benchmarks/harness/report.cpp:44-134 | No top-level key of a row occurs twice |
| Report.RowNoControl | benchmarks/harness/report.cpp:44-134 | No row holds a character below 0x20, whatever its strings |
| ReportFormula.CaseHolds | benchmarks/harness/report.cpp:48-60 | Under schema, kernel, variant and shape the row holds the number 1, the two names and the object of dimensions, and nothing else |
| ReportFormula.StatusHolds | benchmarks/harness/report.cpp:61-76 | Under dtype, format, status and notes it holds those strings: an empty format becomes null, an error is appended to the notes or replaces empty ones |
| ReportFormula.ChecksHold | benchmarks/harness/report.cpp:77-88 | skip_reason is there exactly if it is not empty; the verdict and the two errors are there exactly if the case was checked, each under its own key |
| ReportFormula.TimesHold | benchmarks/harness/report.cpp:89-95 | Exactly the rows of cases that ran hold the time, the 20th and the 80th percentile, each under its own key |
| ReportFormula.BatchHolds | benchmarks/harness/report.cpp:96-118 | Exactly these rows hold the rounded variation and the batch, and the baselines if there are any |
| ReportFormula.RatesHold | benchmarks/harness/report.cpp:119-131 | A rate is there exactly if the case ran and the rate is above zero, each of the three under its own key |
| ReportFormula.ShapeMembersAre | benchmarks/harness/report.cpp:54-60 | The shape object has the dimensions in their order, each with its integer |
| ReportFormula.BaselineMembersAre | benchmarks/harness/report.cpp:100-118 | The baselines object has the baselines in their order, each under its name |
| ReportFormula.BaselineIs | benchmarks/harness/report.cpp:105-115 | A baseline that ran holds its time and that time over the target's, or zero if the target's is not above zero; any other holds its error |
| Report.LinesOfJsonl | benchmarks/harness/bench_main.cpp:266-273 | Splitting newline-terminated rows at newlines recovers exactly the rows |
| Report.FileReadsBack | benchmarks/harness/bench_main.cpp:266-273 | The rows file splits into exactly its rows, and each parses to the tree of its result |
| Report.WriteRows | benchmarks/harness/bench_main.cpp:266-273 | The loop over results writes that file |
| Rounding.RoundFormsAgree | benchmarks/cases/float_storage.cpp:32-40 | For every number of dropped bits, adding half minus one plus the lowest kept bit equals rounding by remainder, ties to even |
| Rounding.MagIncreases | benchmarks/cases/float_storage.cpp:32-40 | For every format a larger magnitude pattern is a larger value, across all exponents |
| Rounding.RoundDropNearest | benchmarks/cases/float_storage.cpp:32-40 | Dropping n bits half to even is roundTiesToEven on values, for every n and every format, carries into the exponent included |
| FloatStorage.Bf16NearestEven | benchmarks/cases/float_storage.cpp:32-40 | For every pattern but NaN the 32-bit addition does not wrap, the sign is kept, infinity results exactly from 0x7f7f8000 up, and the result is nearest-even |
| FloatStorage.Bf16Closest | benchmarks/cases/float_storage.cpp:32-40 | No BF16 pattern of either sign is closer to the real value than a finite encoding; ties leave the even pattern |
| FloatStorage.Bf16KeepsNaN | benchmarks/cases/float_storage.cpp:32-40 | NaN stays a quiet NaN with its sign and upper payload |
| FloatStorage.Bf16Exact | benchmarks/cases/float_storage.cpp:25-30 | Decoding BF16 keeps the real value |
| FloatStorage.Bf16RoundTrip | benchmarks/cases/float_storage.cpp:25-40 | Encoding a decoded pattern gives it back, up to the quiet bit of a NaN |
| FloatStorage.DecodeHalf | kernels/common/fp16.h:11-37 | The branches and the renormalizing loop compute one closed-form widening |
| FloatStorage.WidenExact | kernels/common/fp16.h:11-37 | Widening any finite half, subnormals included, keeps its magnitude exactly |
| FloatStorage.WidenSpecial | kernels/common/fp16.h:29-30 | Widening an infinity or a NaN keeps its sign and its payload |
| FloatStorage.HalfExact | kernels/common/fp16.h:11-37 | Widening any finite half keeps its signed real value |
| FloatStorage.HalfNearestEven | kernels/common/fp16.h:39-75 | Encoding keeps the sign and is nearest-even in the normal, subnormal and underflow ranges, with the exact overflow threshold |
| FloatStorage.HalfClosest | kernels/common/fp16.h:39-75 | No finite half is closer to the real value than a finite encoding; ties leave the even pattern |
| FloatStorage.HalfKeepsNaN | kernels/common/fp16.h:39-48 | Every NaN becomes the quiet NaN of its sign |
| FloatStorage.HalfRoundTrip | kernels/common/fp16.h:11-75 | Encoding undoes decoding for every half that is not NaN |
| FloatStorage.HalfNaNRoundTrip | kernels/common/fp16.h:11-48 | Every half NaN comes back as the canonical quiet NaN of its sign |
| FloatStorage.StorageRoundTrip | benchmarks/cases/float_storage.cpp:25-45 | For both formats encoding undoes decoding if and only if the pattern is stable: not NaN, or a NaN that is quiet (BF16) or canonical (FP16) |
| FloatStorage.UnstablePatterns | benchmarks/cases/float_storage.cpp:25-45 | One failing pattern of each format, with what comes back |
| FloatStorage.HalfError | kernels/common/fp16.h:39-75 | A positive value is encoded as infinity exactly from 65520 up, as zero exactly up to half the smallest half, and otherwise to one part in 2048 or half the smallest half |
| FloatStorage.ScalarRoundtrip | benchmarks/cases/float_storage.cpp:55-70 | A processed element comes back unchanged if and only if it is stable, and nothing behind the count is written |
| FloatStorage.UnrolledRoundtrip | benchmarks/cases/float_storage.cpp:72-101 | The four-at-a-time loops with their remainder leave the same output as the plain loop, with the same condition |
| Ranking.StableSort | benchmarks/cases/colibri_ops.cpp:263-265 | Sorting all indices by the comparator yields every index once, in strict order |
| Ranking.RankingRanks | benchmarks/cases/contract_ops.cpp:270-272 | The index at place r of such an order is preceded by exactly r others |
| Ranking.PrefixOfRanking | benchmarks/cases/contract_ops.cpp:270-272 | Any ordered list that nothing outside precedes is the front of every sort, so sorts and partial sorts agree |
| TopK.Partition | kernels/sampling/selection_ref.cpp:13-42 | The two-sided scan permutes the values, terminates inside the range and separates it at the pivot |
| TopK.KthDescending | kernels/sampling/selection_ref.cpp:13-42 | Partition selection permutes the buffer and returns the value with the right numbers of larger and of equal values |
| TopK.KthUnique | kernels/sampling/selection_ref.cpp:13-42 | Only one value has those numbers, so selection and full sort find the same threshold |
| TopK.SelectedIsTopK | benchmarks/cases/colibri_ops.cpp:348-365 | With that threshold the two emitting passes give exactly k distinct columns: those of rank below k |
| TopK.SelectedOrder | benchmarks/cases/colibri_ops.cpp:348-365 | Strict winners come first, then at least one tie with the least selected value, each class in column order |
| TopK.TopKIsSortPrefix | benchmarks/cases/colibri_ops.cpp:348-365 | The k columns are the first k of the stable sort |
| TopK.TopKColumnsSpec | benchmarks/cases/colibri_ops.cpp:348-365 | All of this for every row and every 1 <= k <= width |
| TopK.FullSortBaseline | benchmarks/cases/colibri_ops.cpp:348-365 | Every row of the baseline's output is the k best columns |
| TopK.ThresholdTopkIndices | kernels/sampling/selection_ref.cpp:46-76 | Rejects exactly the invalid shapes and the non-finite scores without writing; otherwise every row is the k best columns |
| TopK.KernelMatchesBaseline | kernels/sampling/selection_ref.cpp:46-76 | Kernel and baseline outputs are identical |
| TopK.TopKWrittenOut | kernels/sampling/selection_ref.cpp:46-76 | Row r of the output: distinct columns, those above a value t first and those equal to t after them, each part in column order; an unlisted column has a smaller value than every listed one, or the same and a higher index |
| Heap.SiftDown | kernels/sampling/sampling_ref.cpp:94-110 | Restores the heap below a displaced root, permutes the live part, leaves the rest |
| Heap.RootIsBest | kernels/sampling/sampling_ref.cpp:112-134 | No element of a heap precedes its root |
| Nucleus.NucleusTokens | kernels/sampling/sampling_ref.cpp:112-134 | Popping the heap yields the shortest prefix of the full sort whose mass reaches the target |
| Nucleus.BestTokensWeighMost | benchmarks/cases/colibri_ops.cpp:263-277 | No m tokens outweigh the m best ones |
| Nucleus.NucleusIsMinimal | benchmarks/cases/colibri_ops.cpp:273-277 | No other token set that reaches the target is smaller than the kept prefix |
| Nucleus.NucleusReaches | benchmarks/cases/colibri_ops.cpp:273-277 | The kept prefix reaches every target that all tokens together reach |
| Nucleus.ShareReached | benchmarks/cases/colibri_ops.cpp:273-277 | For p <= 1 the kept prefix reaches p * total, the total being summed in token order |
| Nucleus.NucleusUnique | benchmarks/cases/colibri_ops.cpp:273-277 | The number of kept tokens is determined |
| Uniform.HalfUnitsNearest | benchmarks/cases/colibri_ops.cpp:255-256 | Adding a half to a cell is roundTiesToEven: no double is closer, and ties go to the even significand |
| Uniform.Uniform01 | kernels/sampling/sampling_ref.cpp:14-22 | Every seed and row gives a double above 0 and at most 1 |
| Uniform.VariateWrittenOut | kernels/sampling/sampling_ref.cpp:14-22 | The variate times 2^53 is the cell and a half, or from 2^52 up, where no double lies between, the even one of the cell and its successor |
| Uniform.OneIsLastCell | kernels/sampling/sampling_ref.cpp:14-22 | The variate is one if and only if seed and row are mixed into the last cell |
| Uniform.KernelReachesOne | kernels/sampling/sampling_ref.cpp:14-22 | A seed and a row for which it is one |
| Uniform.CellExamples | kernels/sampling/sampling_ref.cpp:14-22 | The cells of three more words, two of them without a row |
| Uniform.ProductStaysBelow | kernels/sampling/sampling_ref.cpp:49 | Below one, the product with any 53-bit total is closer to the double before the total than to the total, so rounding cannot reach it |
| Uniform.MixedUndone | benchmarks/cases/colibri_ops.cpp:250-254 | The mixing rounds are a bijection on 64-bit words, with an explicit inverse |
| Uniform.BenchmarkBelowOne | benchmarks/cases/colibri_ops.cpp:249-257 | Without a row the variate is below one for every seed |
| Logits.KeysPrecede | kernels/sampling/sampling_ref.cpp:88-92 | The floating-point comparator, minus infinities included, is the order of the ranking |
| Logits.RowArgmax | kernels/sampling/sampling_ref.cpp:29-41 | The scan finds the head of the sort, the lowest index among equals, and reports exactly the rows with NaN or plus infinity |
| Sampling.SampleWeighted | kernels/sampling/sampling_ref.cpp:43-58 | A positive total selects the item whose cumulative interval holds the scaled draw, and the last item if none does; any other total selects the first item |
| Sampling.FallsBackIff | kernels/sampling/sampling_ref.cpp:43-58 | No interval holds the draw if and only if it is not below the total |
| Sampling.FallbackIsOne | benchmarks/cases/colibri_ops.cpp:277-286 | A nucleus draw falls back on the last kept token if and only if the variate is one |
| Sampling.DrawUnique | kernels/sampling/sampling_ref.cpp:43-58 | At most one interval holds the target |
| Sampling.SortedTopP | benchmarks/cases/colibri_ops.cpp:259-287 | For every seed the kept token whose interval holds uniform * kept is returned, and the final fallback return is not reached |
| Sampling.TopPRow | kernels/sampling/sampling_ref.cpp:234-259 | The heap-based kernel draws the same token, falls back exactly in the last cell, returns the first token of a row of minus infinities, and rejects exactly the rows with NaN or plus infinity |
| Sampling.TopPSample | kernels/sampling/sampling_ref.cpp:223-262 | All rows, the argmax of temperature zero included, up to the first invalid one; each kind of rejection has its exact condition |
| Sampling.TopPUnique | benchmarks/cases/colibri_ops.cpp:259-287 | The promise determines the token and whether the fallback is taken |
| Sampling.KernelMatchesReference | kernels/sampling/sampling_ref.cpp:234-259 | The heap kernel and the full-sort reference return the same token |
| SamplingFormula.TokenWrittenOut | benchmarks/cases/colibri_ops.cpp:259-287 | With weight exp((logit - maximum) / temperature), zero at minus infinity: tokens ordered by logit and index; the fewest first ones that weigh p * total are kept; the token is the one whose interval holds variate * kept, or the last kept one if the variate is one |
| SamplingFormula.RowWrittenOut | kernels/sampling/sampling_ref.cpp:234-259 | The same for every row of the kernel's logits buffer and entry of its output buffer, with the variate of seed and row |
| SamplingFormula.GreedyWrittenOut | kernels/sampling/sampling_ref.cpp:223-247 | At temperature zero, or in a row of minus infinities, the output is the token with the greatest logit, the lowest index among equals |
| SamplingFormula.TemperatureScales | benchmarks/cases/colibri_ops.cpp:267-272 | Sampling at temperature T is sampling at temperature one with exp(x / T) for exp(x): the same token, the same fallback |
| Routing.FullSortRouting | benchmarks/cases/contract_ops.cpp:265-288 | Every token with a finite logit gets the first k experts of the stable sort, each weighted by its share of their unshifted exponentials, zero at minus infinity |
| Routing.PartialSort | kernels/moe/moe_ref.cpp:34-40 | The first k places are ordered and nothing behind them precedes them, every index occurring once |
| Routing.RouteTopk | kernels/moe/moe_ref.cpp:14-60 | Rejects exactly the invalid shapes without writing, and stops at the first token with NaN or plus infinity; partial sort and inverse sum give that same routing, and a row of minus infinities goes to its first expert |
| Routing.RoutersAgree | benchmarks/cases/contract_ops.cpp:265-288 | Kernel and baseline write the same experts and weights for every token |
| RoutingFormula.RoutingWrittenOut | kernels/moe/moe_ref.cpp:24-57 | For every token with a finite logit, over the buffers: the listed experts are ordered by logit and index, every listed one comes before every other, and each weight times the sum of exp(logit) over the listed ones is its own exp(logit), zero at minus infinity |
| RoutingFormula.NothingFinite | kernels/moe/moe_ref.cpp:41-56 | In a row of minus infinities the first listed expert has weight one and the others zero |
| Routing.WeightsSumToOne | benchmarks/cases/contract_ops.cpp:289-316 | The weights of a token sum to one |
| Routing.WeightsDescend | benchmarks/cases/contract_ops.cpp:289-316 | Weights never increase with the rank; unless all logits are minus infinity they are positive exactly at finite logits, and equal weights mean equal logits |
| Routing.RenormalizedSoftmax | benchmarks/cases/contract_ops.cpp:273-286 | The weights are the softmax over all experts, renormalized over the chosen ones |
| Routing.RoutedWeighMost | benchmarks/cases/contract_ops.cpp:270-272 | No other k experts hold a larger total |
| Routing.RoutingShiftInvariant | benchmarks/cases/contract_ops.cpp:273-286 | Adding a constant to every logit changes neither experts nor weights |
| Q8Codec.GroupRoundTrip | benchmarks/cases/q8_kv.cpp:35-39 | With m the largest magnitude and the scale m / 127 stored as a real, each decoded element is within m/254 + 127 * (error of the stored scale) of the original; stored as infinity, elements below m/254 become NaN and the others infinite; the clamp to 127 never takes effect |
| Q8Codec.LargestIs | benchmarks/cases/q8_kv.cpp:62-70 | Every group has exactly one largest magnitude m, attained by an element, and its scale is m / 127 |
| Q8Codec.CodesNearest | benchmarks/cases/q8_kv.cpp:35-39 | Every code is 127 * value / m rounded to the nearest integer, halves away from zero; an element m has code 127 and an element -m has code -127 |
| Q8Codec.ZeroGroupExact | benchmarks/cases/q8_kv.cpp:62-82 | An all-zero group decodes to zeros if and only if its stored scale is read back as a real |
| NearestFloat.RoundsExists | benchmarks/cases/q8_kv.cpp:69-70 | Every real from zero up has a nearest finite binary32 pattern, the even one of two |
| NearestFloat.RoundsUnique | benchmarks/cases/q8_kv.cpp:69-70 | It has only one |
| NearestFloat.RoundsAbove | benchmarks/cases/q8_kv.cpp:69-70 | A real is rounded above a pattern if and only if it lies past the middle to the next pattern, or in it when the pattern is odd |
| NearestFloat.RoundingError | benchmarks/cases/q8_kv.cpp:69-70 | That rounding is off by at most one part in 2^24, or half the smallest subnormal |
| HalfScale.LibraryExists | kernels/common/fp16.h:11-75 | The two conversions, the rounding to binary32 before them included, are functions of the real scale and of the stored pattern |
| HalfScale.NormalScale | kernels/common/fp16.h:68-75 | A real in the normal range of halves is stored to one part in 2047 |
| HalfScale.SubnormalScale | kernels/common/fp16.h:49-67 | Below that range it is stored to 64/127 of the smallest half |
| HalfScale.VanishingScale | kernels/common/fp16.h:49-67 | A real from zero up is stored as the pattern zero exactly up to (1 + 2^-24) / 2 of the smallest half, and is then read back as zero |
| HalfScale.InfiniteScale | kernels/common/fp16.h:39-75 | A real from zero up is read back as infinity exactly from 65520 - 2^-9 up, and as a real exactly below |
| HalfScale.VanishingGroup | benchmarks/cases/q8_kv.cpp:35-82 | A group whose largest magnitude is at most 127 times that limit comes back as zeros |
| HalfScale.GroupReadBack | benchmarks/cases/q8_kv.cpp:35-129 | For m the largest magnitude of a group: below 127 * (65520 - 2^-9) every element comes back to 9/16 of m / 127 and 2^-18; from there on it is NaN below half of m / 127 and the infinity of its sign otherwise |
| HalfScale.OverflowingGroupLost | benchmarks/cases/q8_kv.cpp:62-82 | A group of 32 finite values, one of them 127 * 65520 and the others zero, that comes back as one infinity and NaNs |
| HalfScale.ScatterThenGatherHalves | benchmarks/cases/q8_kv.cpp:41-129 | Through scatter, FP16 scales, block table and gather, every element of both output arrays is what GroupReadBack says of the element it came from |
| Q8Cache.EncodeGroup | benchmarks/cases/q8_kv.cpp:62-82 | The two lane loops write the 32 codes and the scale of one group and nothing else |
| Q8Cache.StoreStep | benchmarks/cases/q8_kv.cpp:41-86 | Writing one group keeps every other cell at the last token mapped to it |
| Q8Cache.Scatter | benchmarks/cases/q8_kv.cpp:41-86 | Each cell of both planes holds the quantized group of the last token that names its slot, and zeros if none does |
| Q8Gather.SequenceUnique | benchmarks/cases/q8_kv.cpp:98-104 | At most one sequence holds a token, empty sequences included |
| Q8Gather.SequenceExists | benchmarks/cases/q8_kv.cpp:98-104 | From any sequence that starts at or before the token, one ahead holds it |
| Q8Gather.AdvanceCursor | benchmarks/cases/q8_kv.cpp:98-104 | The cursor only moves forward and stops at the sequence that holds the token |
| Q8Gather.Gather | benchmarks/cases/q8_kv.cpp:88-129 | Every output group of both planes is the decoded group that the block table denotes, zeros for a missing block; the cursor moves at most sequences - 1 times in all |
| Q8Gather.ScatterGather | benchmarks/cases/q8_kv.cpp:35-129 | With distinct slots and a table that leads to them, for any page size and head count, the group that the cache denotes stays within that bound, and zero groups are exact, if its scale is read back as a real; otherwise it holds the infinities and NaNs of GroupRoundTrip |
| Q8Gather.ScatterThenGather | benchmarks/cases/q8_kv.cpp:41-129 | Running scatter and gather one after the other, every element of both output arrays has that relation to the element it came from |
| Q8Gather.UnwrittenSlot | benchmarks/cases/q8_kv.cpp:41-129 | A slot nothing was scattered into is gathered as zeros, if and only if the pattern zero is read as a real |
| Q8Formula.ScatterWrittenOut | benchmarks/cases/q8_kv.cpp:41-86 | Over the buffers: for the last token that names a slot, every group of every head has the scale m / 127 and the codes 127 * value / m, rounded, at its slot |
| Q8Formula.GatherWrittenOut | benchmarks/cases/q8_kv.cpp:88-129 | Over the buffers: an output element is the code times the decoded scale at the slot that its sequence, page and the block table name, and zero for a missing block |
| Q8Formula.RoundTripWrittenOut | benchmarks/cases/q8_kv.cpp:41-129 | Scatter then gather, over the buffers and in m: every element comes back within m/254 + 127 * |stored - m/127|, or is not a real if the scale is not |
| Q8Formula.HalvesWrittenOut | benchmarks/cases/q8_kv.cpp:41-129 | The same with FP16 scales: what GroupReadBack says, over the buffers and in m alone |
| Q8Copy.CopyBlocks | kernels/attention/attention_q8_kv.cpp:351-415 | Rejects exactly the pairs out of range; otherwise each block of all four planes holds the original contents of the last pair naming it, swaps, chains and in-place calls included |
| Q8Copy.CopyWrittenOut | kernels/attention/attention_q8_kv.cpp:351-415 | Element for element, a block that some pair names holds the original of the source of the last such pair whose source is not negative |
| Q8Copy.KeepWrittenOut | kernels/attention/attention_q8_kv.cpp:351-415 | Element for element, any other block holds what it held |
| Q8Copy.EntryFollows | include/quixicore_cpu/ops.h:855-863 | A rewritten table entry names a block whose source is the old entry |
| Q8Copy.CopyTransparent | benchmarks/cases/q8_kv.cpp:300-321 | With distinct destinations and rewritten entries, every gathered group is what it was before the copy |
| Q8Copy.GatherAfterCopy | include/quixicore_cpu/ops.h:855-863 | Whole gathered outputs before and after the remap are equal |
| BaseQ.InsertCode | benchmarks/cases/base_q.cpp:39-47 | The row's little-endian number grows by code * 2^(column * bits); the spill stays in the row and no other row changes |
| BaseQ.CastFindsByte | benchmarks/cases/base_q.cpp:41-43 | The cast bit index finds its byte if and only if it is below 2^31; from there to 2^32 it points before the row |
| BaseQ.RowFitsInt | kernels/quantization/base_q_ref.cpp:124-137 | All columns of a row are looked for at their own bytes if and only if (columns - 1) * bits < 2^31 |
| BaseQ.AcceptedServes | kernels/quantization/base_q_ref.cpp:43-75 | A view that passes validation can serve all its loads if and only if that bound holds |
| BaseQ.LongRowWraps | kernels/quantization/base_q_ref.cpp:124-137 | A concrete view that passes validation and whose column 2^28 is looked for before its row |
| BaseQ.PackMatrix | benchmarks/cases/base_q.cpp:79-93 | After packing, every row's number is the sum of code_c * 2^(c * bits), and the mirror holds the decoded value of every code |
| BaseQ.Extract | include/quixicore_cpu/base_q.h:13-15 | Reading bits at column * bits of that number returns the column's code |
| BaseQ.LoadReads | kernels/quantization/base_q_ref.cpp:124-137 | The one- or two-byte window shows the same bits as the whole row's number |
| BaseQ.LoadPacked | kernels/quantization/base_q_ref.cpp:124-137 | Loading any column of a packed matrix returns its code, for rows within that bound |
| BaseQ.MirrorDequantizes | benchmarks/cases/base_q.cpp:86-91 | The benchmark's mirror is the matrix of weights that the codes stand for |
| BaseQ.MirrorWrittenOut | benchmarks/cases/base_q.cpp:86-91 | Entry (row, column) of the mirror is code * scale + bias with the scale and the bias of group row * (columns / groupSize) + column / groupSize |
| BaseQ.WeightIs | kernels/quantization/base_q_ref.cpp:139-152 | The weight of a code is that too, and in the symmetric case (code - 2^(bits - 1)) * scale of that group |
| BaseQ.LoadWeightPacked | kernels/quantization/base_q_ref.cpp:139-152 | The kernel's weight, affine or symmetric, is the entry of the dequantized matrix |
| BaseQ.ProjectRow | kernels/quantization/base_q_ref.cpp:185-215 | Four interleaved partial sums over groups add up to the plain row product |
| BaseQ.ProjectionMatches | benchmarks/cases/base_q.cpp:115-126 | Projecting through packed bytes equals the reference product with the dequantized matrix |
| BaseQ.ProjectionWrittenOut | kernels/quantization/base_q_ref.cpp:185-215 | The projection of a row is the sum over its columns of that weight of the packed code times the input |
| Recurrence.RunSplit | benchmarks/cases/gdn.cpp:63-101 | Running a request in two chunks with the state carried over ends in the state of one run, for both recurrences |
| Recurrence.OutputSplit | benchmarks/cases/gdn.cpp:63-101 | The second chunk's outputs are those of one run |
| Recurrence.ChunkInvariant | benchmarks/cases/gdn.cpp:200-226 | Splitting any request of a batch anywhere changes neither the final pool nor any output |
| Recurrence.UnmappedSlot | benchmarks/cases/gdn.cpp:63-101 | A slot that no request names keeps its rows |
| Recurrence.OwnSlot | benchmarks/cases/gdn.cpp:63-101 | With distinct slots a request's final state depends only on itself and its slot's initial rows |
| Recurrence.OrderIndependentState | benchmarks/cases/gdn.cpp:63-101 | With distinct slots any order of the same requests leaves the same pool |
| Recurrence.OrderIndependentOutput | benchmarks/cases/gdn.cpp:63-101 | With distinct slots any order of the same requests gives the same outputs |
| RecurrenceFormula.DeltaFirst | benchmarks/cases/gdn.cpp:63-101 | The first request of a slot starts each value head and dimension with the slot's row of the initial pool |
| RecurrenceFormula.PackedNext | benchmarks/cases/gdn.cpp:63-101 | A later one starts with what the request before it in that slot has left |
| RecurrenceFormula.DeltaToken | benchmarks/cases/gdn.cpp:77-97 | One token, in every direction e of the row, over the arrays: the row decays by the decay of token and value head, and the key of head vh / (valueHeads / keyHeads) is added beta * (v - decayed row . key) times |
| RecurrenceFormula.DeltaOutput | benchmarks/cases/gdn.cpp:77-97 | The output element of that token, value head and dimension is the new row's product with the query of the same key head |
| RecurrenceFormula.DeltaLast | benchmarks/cases/gdn.cpp:63-101 | The final pool holds the row that the last request of each slot has left |
| RecurrenceFormula.ConvFirst | benchmarks/cases/gdn.cpp:200-226 | As DeltaFirst, for the history of a channel |
| RecurrenceFormula.ConvToken | benchmarks/cases/gdn.cpp:206-224 | One token moves the history up by one and appends its input |
| RecurrenceFormula.ConvOutput | benchmarks/cases/gdn.cpp:206-224 | The output is value * sigmoid(value) for the sum of the taps times history and input, the activation included |
| RecurrenceFormula.ConvLast | benchmarks/cases/gdn.cpp:200-226 | As DeltaLast, for the history of a channel |
| ShortConv.ShortConvolution | benchmarks/cases/gdn.cpp:200-226 | For 2 to 8 taps, the pool and the outputs are those of the requests taken one after the other |
| ShortConv.ConvLane | benchmarks/cases/gdn.cpp:206-224 | One request and channel: only its history row and its outputs change, to what the recurrence leaves |
| ShortConv.ConvLaneFour | kernels/linear_attention/gdn_ref.cpp:175-195 | The four-tap path with its history in variables leaves the same rows and outputs |
| ShortConv.CausalConv | benchmarks/cases/basert.cpp:1250-1264 | Every output is the bias plus the zero-left-padded causal sum, for any number of taps |
| ShortConv.CausalWrittenOut | benchmarks/cases/basert.cpp:1250-1264 | Over the buffers: output (t, c) is the bias and the sum over taps k of weight (c, k) times sample t + k + 1 - taps, where there is one |
| ShortConv.StreamingIsCausal | benchmarks/cases/basert.cpp:1250-1264 | From a zero state, before the activation, streaming output equals the causal convolution restarted at the request's first token, for two or more taps |
| DeltaRule.Recur | benchmarks/cases/gdn.cpp:63-101 | The pool and the outputs are those of the requests taken one after the other |
| DeltaRule.DeltaToken | benchmarks/cases/gdn.cpp:77-97 | The two in-place passes over a state row perform one update and touch nothing else |
| DeltaRule.DeltaIdentity | benchmarks/cases/gdn.cpp:77-97 | The delta rule: S'k = (1 - beta * k.k) * decay * Sk + beta * k.k * v |
| DeltaRule.UnitKeyRecalls | benchmarks/cases/gdn.cpp:77-97 | A unit key written with full strength reads its value back |
| PagedLayout.HeadMixes | kernels/attention/attention_serving_ref.cpp:130-233 | Token probabilities and the sink's share sum to one, and each component of a head's output is the sum of the value rows, each times its probability, times the value scale |
| AttentionFormula.SharedHead | benchmarks/cases/optimization_plan.cpp:708 | Query heads kv * (queryHeads / kvHeads) + j share key/value head kv |
| AttentionFormula.OutputWrittenOut | kernels/attention/attention_serving_ref.cpp:130-233 | In both routines' output arrays, for every head kv, query head of its group and component: the sum of exp(score) times the value entries of kv, over that of exp(score) and the sink, times the value scale, or zero; scores, mask and window are written out over the buffers (PositionIs) |
| PagedLayout.HeadBounded | kernels/attention/attention_serving_ref.cpp:130-233 | Each component lies between min(0, min v) and max(0, max v) times the value scale, over the value rows that the head sees |
| PagedLayout.HiddenHeadIsZero | kernels/attention/attention_serving_ref.cpp:130-233 | A head that sees no position outputs zeros, with or without a sink |
| Softmax.ShiftIrrelevant | benchmarks/cases/optimization_plan.cpp:735-760 | Whatever maximum is subtracted, normalized accumulation gives the unshifted attention output |
| PagedLayout.LayoutIndependent | benchmarks/cases/optimization_plan.cpp:703-763 | The output depends on page size, block table and cache only through the logical key and value rows, also with a window, a score cap and FP8 scales |
| PagedAttention.MaterializedHead | benchmarks/cases/optimization_plan.cpp:709-760 | Score buffer, normalization and accumulation leave the attention row of one head and change nothing else |
| PagedAttention.MaterializedPagedAttention | benchmarks/cases/optimization_plan.cpp:703-763 | Every request and query head gets its attention row |
| OnlineAttention.MoveMaximum | kernels/attention/attention_serving_ref.cpp:130-233 | Rescaling to a new maximum keeps denominator and partial row in balance with the positions taken so far |
| OnlineAttention.OneTile | kernels/attention/attention_serving_ref.cpp:130-233 | A tile of up to sixteen positions extends that invariant over the tile |
| OnlineAttention.OnlineHead | kernels/attention/attention_serving_ref.cpp:130-233 | The online computation ends with the same attention row, with or without a sink, a sliding window, a score cap and FP8 scales |
| OnlineAttention.OnlinePagedAttention | kernels/attention/attention_serving_ref.cpp:130-233 | Every request and query head gets its attention row |
| OnlineAttention.LayoutsAgree | benchmarks/cases/optimization_plan.cpp:703-763 | Two layouts of the same logical tokens give identical outputs, however each is computed |
| PatchLayout.DestOfPlace | benchmarks/cases/basert.cpp:441-464 | Every output entry has one place among frames, rows, columns and channels, and the place leads back to it |
| PatchLayout.SourceOfPlace | benchmarks/cases/basert.cpp:441-464 | With divisible sizes every image element has a place, and the place leads back to it |
| PatchLayout.PatchBijection | benchmarks/cases/basert.cpp:441-464 | The map between image elements and patch entries is a bijection |
| Patches.Patchify | benchmarks/cases/basert.cpp:441-464 | The running destination cursor fills every entry with the element the closed form names |
| Patches.ProjectPatches | benchmarks/cases/basert.cpp:817-850 | The running feature cursor sums the bias and the products of the closed form |
| Patches.FusedIsPatchifyThenMatmul | benchmarks/cases/basert.cpp:817-850 | The fused projection is patch extraction, then a matrix product plus bias |
| Patches.PlanarIndices | benchmarks/cases/basert.cpp:385-393 | With one frame every index is that of the two-dimensional loops |
| PatchFormula.PatchifyWrittenOut | benchmarks/cases/basert.cpp:441-464 | Over the buffers: entry ((kt, ky, kx), c) of patch ((ot, oy), ox) is pixel (ot * temporal + kt, oy * patch + ky, ox * patch + kx), channel c |
| PatchFormula.ProjectionWrittenOut | benchmarks/cases/basert.cpp:817-850 | Over the buffers: every output is its bias and the sum of those pixels times the weights of its row |
| Pooling.PoolTokens | kernels/vision/patch_ops_ref.cpp:1020-1063 | For every batch item, every bucket holds the scaled sum of the accepted tokens that fall into it, and its mask is set exactly if one does |
| Pooling.PoolingConserves | benchmarks/cases/basert.cpp:1072-1090 | On arbitrary coordinates the total output of a channel is the scaled total of the accepted input |
| PoolingFormula.PoolWrittenOut | kernels/vision/patch_ops_ref.cpp:1020-1063 | Over the buffers: bucket b is the scaled sum of the valid tokens with coordinates from zero up for which px / kernel + (width / kernel) * (py / kernel) is b, and its mask is one exactly if there is such a token |
| Pooling.AveragePool | benchmarks/cases/basert.cpp:564-571 | Every output of the regular pool is the mean of its window |
| Pooling.CoordinatePoolIsAverage | benchmarks/cases/basert.cpp:1072-1090 | On a complete grid with tokens in any order a bucket is the root times the mean of its window |
| Pooling.AveragePools | kernels/vision/patch_ops_ref.cpp:418-467 | The same for every item of a batch, with square windows that do not overlap |
| PoolingFormula.AverageWrittenOut | kernels/vision/patch_ops_ref.cpp:418-467 | Over the buffers: every output times kernel * kernel is the sum of the pixels of its window |
| Pooling.PoolsAgree | kernels/vision/patch_ops_ref.cpp:1020-1063 | On batches of complete grids the whole outputs of the two routines differ by the root alone, and every mask entry is set |
| StateSpace.DirectMamba | benchmarks/cases/optimization_plan.cpp:508-533 | For every batch item and head, the double loop over targets and sources computes the source expansion |
| StateSpace.RecurrenceIsExpansion | benchmarks/cases/optimization_plan.cpp:508-533 | The expansion over all earlier sources equals a one-pass recurrence with decay ratios of neighbours |
| StateSpace.Mamba2 | kernels/ssm/ssm_extended_ref.cpp:13-60 | For every batch item and head, the one-pass kernel computes the source expansion |
| StateSpace.KernelMatchesReference | kernels/ssm/ssm_extended_ref.cpp:13-60 | The quadratic reference and the one-pass kernel fill the same buffer |
| StateSpace.DualityWrittenOut | benchmarks/cases/optimization_plan.cpp:508-533 | Over the buffers: output (t, v) of a head is the sum over s <= t of (c_t . b_s) * exp(decay_t - decay_s) * x_s,v |
| SelectiveScan.ScanScalar | benchmarks/cases/contract_ops.cpp:329-348 | Every output is the readout of the hidden state after its token, plus the skip term |
| SelectiveScan.HiddenIsUnrolled | benchmarks/cases/contract_ops.cpp:329-348 | The hidden state is the sum over sources of inputs times the product of later decays |
| SelectiveScan.ScanWrittenOut | benchmarks/cases/contract_ops.cpp:329-348 | Over the buffers: every output is d * u plus the sum over states of c times the state, which starts at zero and becomes exp(delta * a) times itself plus delta * b * u with every token |
| Rotary.PairsPartition | benchmarks/cases/rotary_extended.cpp:75-79 | In both layouts the pairs partition the rotated elements |
| Rotary.MakeSections | benchmarks/cases/rotary_extended.cpp:126-136 | The section sizes pass the kernel's validation and count the pairs of each axis, in both layouts |
| Rotary.SectionsCountPairs | kernels/attention/rotary_positioned_ref.cpp:21-37 | All section sizes that pass validation count the pairs of each axis |
| Rotary.RotationUnique | benchmarks/cases/rotary_extended.cpp:62-89 | The rotated row is determined, the tail being copied |
| Rotary.RotationKeepsEnergy | benchmarks/cases/rotary_extended.cpp:62-89 | With unit angles a row keeps its sum of squares |
| Rotary.NegatedUndoes | benchmarks/cases/rotary_extended.cpp:62-89 | Negating the sine table undoes the rotation |
| Rotary.EqualAxesIsPositioned | benchmarks/cases/rotary_extended.cpp:62-89 | A multimodal row whose three axes share a position rotates like a positioned split-half row |
| Rotary.MultimodalIsPositioned | benchmarks/cases/rotary_extended.cpp:50-93 | Equal positions on all axes make the whole multimodal output the positioned one |
| Rotary.RotateRow | benchmarks/cases/rotary_extended.cpp:62-89 | The pair loop rotates one row in both layouts and changes nothing else |
| Rotary.RotateRowGrouped | kernels/attention/rotary_positioned_ref.cpp:54-84 | The kernel's three-pairs-at-a-time loop leaves the same row |
| Rotary.RotaryReference | benchmarks/cases/rotary_extended.cpp:50-93 | Every row of the output is rotated by the angles of its token |
| Rotary.PairWrittenOut | benchmarks/cases/rotary_extended.cpp:62-89 | Over the buffers: with c and s from the tables at the position of the pair's axis, the elements 2p and 2p + 1 of interleaved rows, and p and pairs + p of split ones, become x c - y s and y c + x s |
| Rotary.TailWrittenOut | benchmarks/cases/rotary_extended.cpp:62-89 | Over the buffers: the elements from 2 * pairs up are copied |

## Left out

- Floating-point rounding of sums and products, and the tolerances that absorb it.
- Sampling.SortedTopP: sums and products of weights are exact; a vocabulary without a finite logit, which makes the benchmark compute NaN, is excluded.
- Routing.FullSortRouting: tokens without a finite logit, for which the benchmark computes NaN, are excluded.
- Routing.PartialSort: a selection loop stands for the library routine; only what the standard promises of it is used.
- Ranking.StableSort: an insertion sort stands for the library routine, which has the same result under a strict order.
- JsonWriting.JsonWriter.EndObj: demands an open container, because popping an empty vector has no defined behaviour.
- JsonWriting.JsonWriter.Val: the overloads of val and null are one method over a sum of value kinds.
- FloatStorage.Bf16NearestEven: words are natural numbers below 2^32 with explicit carries, not machine words.
- DeltaRule.Recur: requests always load their slot's state; negative slots and the kernel's load_initial flag are not modelled.
- ShortConv.ShortConvolution: as DeltaRule.Recur; the sigmoid of the activation is a parameter, and fewer than 2 or more than 8 taps, which the kernel rejects, are excluded.
- OnlineAttention.OnlinePagedAttention: FP8 codes appear as the reals they decode to; the validation of context lengths and block tables is a precondition.
- PagedAttention.MaterializedPagedAttention: the scale 1/sqrt(dim) is a parameter.
- Pooling.PoolTokens: sqrt(C) is a parameter.
- BaseQ.PackMatrix: codes and scales are inputs instead of the case's arithmetic patterns; rows within the bound of BaseQ.RowFitsInt, beyond which the code writes before the row.
- BaseQ.InsertCode: bit indices below 2^31, as BaseQ.CastFindsByte explains.
- BaseQ.LoadReads: rows within that bound, beyond which the code reads before the row.
- BaseQ.LoadPacked: as BaseQ.LoadReads.
- BaseQ.LoadWeightPacked: as BaseQ.LoadReads; scale storage types are reals.
- BaseQ.ProjectRow: as BaseQ.LoadReads.
- BaseQ.ProjectionMatches: as BaseQ.LoadReads.
- Q8Codec.GroupRoundTrip: the scale, its reciprocal and the products are exact. Below a scale of about 2^-128 the code's reciprocal overflows to infinity: nonzero elements are then clamped to 127, and for a zero element NaN is cast to an 8-bit integer.
- HalfScale.VanishingGroup: as Q8Codec.GroupRoundTrip; such a scale is stored as zero, so that the group is still read back as zeros whatever its codes are.
- HalfScale.ScatterThenGatherHalves: the stored scale is the one the code stores, rounded to binary32 first; the codes are computed with the unrounded scale.
- Pooling.AveragePools: strides other than the window and rounding the output size up are not modelled.
- Q8Copy.CopyBlocks: an output may be the input of its own plane, for which the kernel takes a snapshot, but not the input of the other plane, which it would overwrite before reading.
- materialized_mla: the same scheme as paged attention, over one cache without mask or sink.
- base_q_moe: the packing and dequantizing loops of the projection once more.
- The two-dimensional patch loops as separate methods: they are the one-frame case (Patches.PlanarIndices).
- The categorical, top-k and min-p samplers.
- Dispatch, instruction-set variants, the thread pool and prepared panels: no algorithm of their own.
- run_json, the markdown summary, timing, file output, environment probing and option parsing: harness plumbing.
- The integer overflow tests of the library's shape validation.
