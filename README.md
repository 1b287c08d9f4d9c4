# PDW generator model

A Dafny model of the synthetic pulse-descriptor-word (PDW) dataset generator
in `data/pdw_generator.py`. The generator configures ten radar emitters and
gives each a location. For every emitter it draws a random number of pulses,
each with:

- RF, amplitude and direction of arrival (DOA), drawn around the emitter's means;
- PRI and PW, drawn from a fixed, staggered or jittered modulation regime;
- a radar-function label;
- a timestamp inside one random burst window.

All emitters' rows are concatenated into one table. The table is then
degraded:

1. about one row per hundred is duplicated;
2. one measurement cell is blanked in about one row per fifty;
3. the RF column is turned into text;
4. the rows are shuffled.

Every random draw is an input to the model: standard-normal values, unit
uniforms, integer offsets, index samples and the final permutation. Each
input comes with a `requires` stating the range it is drawn from. Magnitudes
are `real`.

The modules follow the generator's structure:

| module | file | what it covers |
|---|---|---|
| `Common` | common.dfy | `Option`, `Result` and the failures the library calls can raise |
| `Sampling` | sampling.dfy | draws without replacement, permutations, picking rows by index |
| `Modulation` | modulation.dfy | the three PRI/PW generators and their dispatch |
| `Clustering` | clustering.dfy | the burst window and the per-pulse timestamps |
| `Location` | location.dfy | truncating a full MGRS code to a precision |
| `Pdw` | pdw.dfy | a row, its measurement cells, blanking a cell, RF as text |
| `Config` | config.dfy | the emitter profiles, labels and constants |
| `Assembly` | assembly.dfy | one emitter's pass and the concatenated base table |
| `Corruption` | corruption.dfy | the in-place table (`PdwTable`) and its degrading passes |
| `Dataset` | dataset.dfy | the whole run and what the final table holds |

The code floors only PRI and PW at 0.01 (`np.maximum` at lines 62, 69 and
77). RF, amplitude and DOA are plain normal draws with no floor (lines 123-125).

After line 176 a missing RF value is the blank text `' '`, not a NaN. The
model still counts it as a missing value. The count reported at line 194 is
the number of rows with a blanked cell, and that is what `Dataset` proves
about the final table.

## Model

| member | source | states |
|---|---|---|
| Modulation.Clamp | data/pdw_generator.py:62 | the result is at least 0.01 and at least the input; it equals the input exactly when the input is already at or above the floor |
| Modulation.Floored | data/pdw_generator.py:68-69 | element `i` is `max(level_i + s*z_i, 0.01)`, for as many elements as there are levels |
| Modulation.GenerateFixed | data/pdw_generator.py:59-62 | fails (numpy's negative-scale error) exactly when the scale is negative; otherwise returns `n` values, each at least 0.01 |
| Modulation.GenerateStaggered | data/pdw_generator.py:64-69 | with `n > 0`, an empty level list fails first (the `i % 0` division error); otherwise a negative scale fails; otherwise returns `n` values, each at least 0.01 |
| Modulation.GenerateJittered | data/pdw_generator.py:71-77 | fails exactly when the scale is negative; otherwise returns `n` values, each at least 0.01 |
| Modulation.Generate | data/pdw_generator.py:79-83 | the dispatch succeeds exactly when the scale is non-negative and no non-empty run has an empty stagger; value `i` is `max(level_i + scale*z_i, 0.01)`, where the level is the mean, `values[i % len]` or the uniform draw; an absent `std` means 0.1 |
| Modulation.GeneratedAboveFloor | data/pdw_generator.py:59-77 | every generated value is at least 0.01, and flooring never lowers the unfloored draw |
| Modulation.FixedWithoutNoise | data/pdw_generator.py:59-62 | with zero deviation every fixed value is `max(mean, 0.01)` |
| Modulation.StaggeredIsPeriodic | data/pdw_generator.py:67 | two pulses whose indices agree modulo the pattern length, and whose noise draws agree, get the same value |
| Modulation.StaggeredWithoutNoise | data/pdw_generator.py:64-69 | with zero deviation, pulse `i` is exactly `values[i % len]` whenever that level is at least 0.01 |
| Modulation.UniformWithin | data/pdw_generator.py:75 | a unit draw puts the uniform value in `[min, max]`, and strictly below `max` when `min < max` |
| Modulation.JitteredWithoutNoise | data/pdw_generator.py:71-77 | with zero deviation and `min >= 0.01`, every jittered value lies in `[min, max]` |
| Clustering.BurstWindow | data/pdw_generator.py:89-93 | `end_u - start_u` equals the burst length in seconds; `start_u` is the burst start floored to a whole second |
| Clustering.WindowInsideIff | data/pdw_generator.py:85-93 | the burst window lies inside `[overall_start, overall_end]` if and only if the burst is no longer than the span; a longer burst draws its offset from a negative range with no check and spills out |
| Clustering.Timestamps | data/pdw_generator.py:95 | `randint(start_u, end_u, n)` with `n > 0` fails exactly on an empty window, and `n == 0` gives no stamps without checking the window; on success it returns `n` stamps, each in `[start_u, end_u)` |
| Clustering.ClusterTimestamps | data/pdw_generator.py:85-96 | for one pulse or more, succeeds exactly when the burst length is positive (an empty window is `randint`'s error); with no pulses it always succeeds; it returns one stamp per pulse |
| Clustering.ClusterInsideRange | data/pdw_generator.py:85-96 | when the burst fits the span, every stamp lies in `[overall_start, overall_end)`, and any two stamps lie less than one burst length apart |
| Clustering.ConfiguredBurstsFit | data/pdw_generator.py:140-144 | each of the 0.5 h, 1 h and 2 h bursts fits inside the configured month |
| Location.Slice | data/pdw_generator.py:102 | Python slicing: the length is the clipped range or zero, and character `k` is `s[lo + k]` |
| Location.Code | data/pdw_generator.py:102 | the truncated code is at most `5 + 2p` characters long, and at most `p` longer than the input |
| Location.CodeOfFullCode | data/pdw_generator.py:98-103 | on a 15-character code with `p <= 5`, the result is `full[:5] + full[5:5+p] + full[10:10+p]`, `5 + 2p` characters long |
| Location.SixDigitCode | data/pdw_generator.py:102 | at precision 3 the code has 11 characters: the 5-character prefix, then 3 easting and 3 northing digits taken from the full code |
| Config.Label | data/pdw_generator.py:137 | `map(EMITTER_FUNCTION_MAP)` gives the table's label for a known identifier and the missing marker for any other |
| Config.ProfilesWellFormed | data/pdw_generator.py:26-53 | there are ten profiles; profile `k` is emitter `k+1`; every emitter has a label; no modulation spec has a negative deviation or an empty stagger |
| Pdw.SetMissing | data/pdw_generator.py:172 | the chosen cell becomes missing, and blanking RF leaves the numeric NaN rather than the blank text; every other measurement value and every identity cell is unchanged, and the RF cell keeps its form when another column is blanked |
| Pdw.SetMissingOnComplete | data/pdw_generator.py:171-172 | blanking one cell of a complete row leaves exactly that column missing |
| Pdw.RfAsText | data/pdw_generator.py:175-177 | the RF cell becomes text; it is blank exactly when RF was missing; no measurement value changes, and nothing outside the RF cell changes |
| Assembly.EmitterRows | data/pdw_generator.py:114-150 | one emitter's pass fails exactly when its PRI or PW spec cannot be drawn; otherwise it returns one row per pulse. Row `i` holds RF, amplitude and DOA as the normal draws around the profile's means with the fixed deviations, PRI and PW as value `i` of the modulation model, and the `i`-th stamp of the emitter's single burst. Every row carries the emitter's id, label and location, and a timestamp inside the dataset's range; any two of the emitter's stamps lie less than one burst length apart |
| Assembly.Collect | data/pdw_generator.py:114-152 | the run succeeds exactly when every emitter's pass succeeds |
| Assembly.AllRows | data/pdw_generator.py:114-152 | the base table exists exactly when every emitter's specs can be drawn, and then has one row per drawn pulse |
| Assembly.AllRowsAreEmitterRows | data/pdw_generator.py:126-147 | every row of the base table is a row of one configured emitter, with that emitter's id, label and location |
| Assembly.CollectBlock | data/pdw_generator.py:152 | in the concatenation, pass `k`'s rows are the contiguous block after the rows of passes `0..k-1` |
| Assembly.EmitterBlock | data/pdw_generator.py:150-152 | rows are concatenated in emitter order: emitter `k`'s rows occupy the block that starts after the pulses of the emitters before it |
| Assembly.PulseTotalBounds | data/pdw_generator.py:117 | with every count drawn from `[100, 2000)`, the total lies between `100·m` and `1999·m` for `m` emitters |
| Assembly.AssignLocations | data/pdw_generator.py:106-108 | the location loop gives every id from 1 to 10, and no other key, the truncated code of that emitter's full code |
| Assembly.GenerateAll | data/pdw_generator.py:110-152 | the generation loop appends each pass to a list and concatenates it; its result equals `AllRows`, including the first failure |
| Assembly.ConfiguredGenerationSucceeds | data/pdw_generator.py:114-152 | with the configured profiles generation never fails, and the base table has between 1000 and 19990 rows |
| Corruption.DuplicateCount | data/pdw_generator.py:155-156 | `int(len * 0.01)`: `100·r <= len < 100·(r+1)` |
| Corruption.MissingCount | data/pdw_generator.py:162-163 | `int(len * 0.02)`: `50·r <= len < 50·(r+1)` |
| Corruption.Corrupt | data/pdw_generator.py:171-172 | the blanking loop keeps the row count; each chosen row becomes `SetMissing` of its chosen column; every other row is unchanged |
| Corruption.CorruptionBlanksOneCellPerRow | data/pdw_generator.py:162-172 | on complete rows, each chosen row misses exactly its chosen column; no identity cell and no surviving value changes; the incomplete rows are exactly the chosen ones, and there are as many as indices drawn |
| Corruption.RfColumnAsText | data/pdw_generator.py:175-177 | every RF cell is text afterwards; it is blank exactly where RF was missing; all values and all other cells are kept |
| Corruption.DuplicatesAreCopies | data/pdw_generator.py:155-160 | the table grows by `len // 100`, and the appended rows form a sub-multiset of the existing rows (copies of distinct rows) |
| Corruption.PdwTable.constructor | data/pdw_generator.py:152 | the table holds the concatenated base rows |
| Corruption.PdwTable.InjectDuplicates | data/pdw_generator.py:159-160 | the new table is the old rows followed by the picked rows: the old rows are unchanged and the appended ones are copies of old rows |
| Corruption.PdwTable.InjectMissing | data/pdw_generator.py:166-172 | after the in-place loop, the table equals `Corrupt` of the table before it |
| Corruption.PdwTable.RfToText | data/pdw_generator.py:175-177 | the table becomes `RfColumnAsText` of the table before |
| Corruption.PdwTable.Shuffle | data/pdw_generator.py:182 | the rows are reordered by the permutation, and the multiset of rows is unchanged |
| Sampling.Pick | data/pdw_generator.py:159 | selecting rows by index gives one row per index, row `k` being the row at `idx[k]` |
| Sampling.PickIsSubMultiset | data/pdw_generator.py:159 | a draw without replacement selects a sub-multiset of the rows |
| Sampling.ShuffleIsPermutation | data/pdw_generator.py:182 | applying a permutation keeps the multiset of rows |
| Sampling.PermutationCovers | data/pdw_generator.py:182 | a full shuffle sends every row somewhere: each position is the image of some entry of the permutation |
| Sampling.DistinctCardinality | data/pdw_generator.py:166 | distinct indices name as many rows as there are indices |
| Dataset.CountIncompleteIsCardinality | data/pdw_generator.py:194 | the count of incomplete rows equals the number of positions holding one |
| Dataset.CountIncompleteOfPermutation | data/pdw_generator.py:182 | rearranging rows does not change how many are incomplete |
| Dataset.BaseRowsGenerated | data/pdw_generator.py:106-152 | the base table has one complete row per pulse; every row carries a configured id, that id's label, that emitter's truncated location, and a timestamp inside the month |
| Dataset.DuplicatedRowsGenerated | data/pdw_generator.py:159-160 | duplication keeps every row generated and complete |
| Dataset.CorruptedRowsGenerated | data/pdw_generator.py:171-172 | after blanking, every row keeps its identity cells and misses at most one measurement |
| Dataset.CorruptedRow | data/pdw_generator.py:171-172 | one row after blanking keeps its identity cells and misses at most one measurement |
| Dataset.CorruptedCount | data/pdw_generator.py:162-172 | exactly as many rows are incomplete as indices were drawn |
| Dataset.TextualRowsGenerated | data/pdw_generator.py:175-177 | the RF conversion keeps identity cells and gaps |
| Dataset.TextualCount | data/pdw_generator.py:175-177 | the RF conversion keeps the number of incomplete rows |
| Dataset.ShuffledRowsGenerated | data/pdw_generator.py:182 | shuffling keeps every row generated, with at most one gap and RF as text |
| Dataset.ShuffledCount | data/pdw_generator.py:182 | shuffling keeps the number of incomplete rows |
| Dataset.GenerateBase | data/pdw_generator.py:106-152 | the location and generation loops give exactly the concatenated passes `AllRows` of the configured profiles, with each emitter's truncated location; that is one complete, generated row per drawn pulse, between 1000 and 19990 rows |
| Dataset.Degraded | data/pdw_generator.py:155-182 | the degrading passes as one function of the base table: it has `len + int(len*0.01)` rows |
| Dataset.BaseRowsSurvive | data/pdw_generator.py:155-182 | every base pulse survives into the final table: some final row has its timestamp, emitter, label and location, and every measurement that row still holds is the pulse's own |
| Dataset.Degrade | data/pdw_generator.py:155-182 | the in-place passes leave exactly `Degraded` of the table before: `len + int(len*0.01)` rows, exactly `int(len'*0.02)` of them incomplete, none missing more than one cell, RF all text, and every row still carrying a configured emitter's id, label, location and an in-range timestamp |
| Dataset.BuildDataset | data/pdw_generator.py:106-182 | the whole run: the final table is exactly `Degraded` of the base table `AllRows` built from the draws; its row count is base plus duplicates; the number of rows with a missing value is exactly the count the script reports at line 194; every row carries its emitter's label and location; RF is text |

## Left out

- Random number generation (`np.random.*`, `random.choice`, `DataFrame.sample`): draws are inputs constrained by `requires`, and no distributions are modelled.
- IEEE-754 arithmetic: values are `real`. Clamps and bounds hold exactly; rounding is not modelled.
- Corruption.DuplicateCount: computed as `int(len * 0.01)` in exact arithmetic. The double closest to 0.01 is slightly above it, so for the generator's table sizes the floating-point floor is the same. The same holds for Corruption.MissingCount and 0.02.
- The MGRS encoder (`MGRS().toMGRS`) and the latitude/longitude box it is fed (lines 14-16, 98-101) are a foreign geodetic library. The full codes are an input, and only the slicing at line 102 is modelled. The claim that different emitters end up with different codes is probabilistic and is not stated.
- Date handling: the range bounds are whole-second epoch instants, and the burst offset is an integer number of nanoseconds. Clustering.OffsetDrawn allows any integer offset in the closed range between 0 and the largest offset; the library's half-open uniform draw is a subset of that. The conversion back to datetimes at line 96 is the identity on seconds.
- Text formatting by `astype(str)`: an RF numeral keeps its number (`NumeralText`) rather than a string. `fillna(' ')` at line 177 finds nothing left to fill after the replacement at line 176.
- The column reorder at line 181 is the fixed field order of `Pdw.Row`. `col_indices` at line 169 is computed and never used.
- Data-frame index labels: after `ignore_index=True` they are row positions, so `.at[row_idx, ...]` is modelled as a positional update.
- CSV writing, path handling and console output (lines 112, 119, 158, 165, 178, 184-195).
