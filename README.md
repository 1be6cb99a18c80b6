# moss GLM design matrix, modelled in Dafny

This project models the discrete core of `moss/glm.py`: how `DesignMatrix`
turns an event table and the optional side inputs into an fMRI design matrix.

- **Event encoder** (`numerics.dfy`, `encoder.dfy`): `_make_hires_ev_base`.
  The onsets and offsets of one condition's events are located on the
  oversampled frame grid with a left `searchsorted`, then clamped to the last
  sample. A zero-length pulse is widened by one sample. The value is added at
  the onset samples and subtracted at the offset samples, and the result is
  integrated with a running sum.
  - Both writes are numpy fancy-index statements. Every write reads the array
    as it was before the statement, so when two events share a sample only
    the last write lands. `FancyAdd` models exactly that.
  - The model proves that, when no two events share a sample, the
    timecourse is the sum of the events' boxcars. It also proves that two
    events sharing an onset do not add up.
- **HRF models** (`hrf.dfy`): `IdentityHRF.convolve` and
  `GammaDifferenceHRF.convolve`.
  - The kernel post-processing: normalising to unit sum, and the
    zero-padded first difference scaled to the energy of the main channel.
  - The truncated causal convolution `np.convolve(data, kernel)[:ntp]`.
  - The output column names `name` and `name_deriv`.
- **Conditions** (`conditions.dfy`): `_make_hires_base` and `_convolve`, then
  the condition block of `__init__`. `_convolve` writes each output column
  into a copy of the hires base by name, so a column that already exists is
  replaced rather than appended. The model proves the resulting layout when
  no condition is named like another's `_deriv` column, and exhibits what
  happens when one is. That block is subsampled, demeaned,
  measured (peak-to-peak heights) and optionally high-pass filtered.
- **Components** (`components.dfy`): `_validate_component`, over a mutable
  `Table` class standing for the caller's DataFrame. It renames positional
  columns to `base_0 … base_{n-1}`, checks that the index lines up with the
  frametimes, and reindexes the table. Also here: the expansion of a boolean
  artifact mask into one-hot indicator columns.
- **Design matrix** (`design.dfy`): the assembly of `__init__`.
  - The columns are concatenated in a fixed order: conditions, regressors,
    confounds, artifacts. They are then demeaned.
  - The name lists, the `isin` masks and the peak-to-peak heights.
  - The `*_submatrix` properties, returning `None` for an empty group.
  - `contrast_vector`.
  - `Build`, which follows `__init__` step by step, including its failure
    paths.

Reals are exact. Integer sample indices are `nat`. A raised exception is an
`Err` result.

## Model

| member | source | states |
|---|---|---|
| `Columns.CumSum` | moss/glm.py:357 | `np.cumsum` gives one running total per sample |
| `Columns.CumSumFirst` | moss/glm.py:357 | the running total starts at the first sample |
| `Columns.CumSumStep` | moss/glm.py:357 | `np.cumsum` grows by exactly the next element at every step |
| `Columns.Mean` | moss/glm.py:280 | the mean times the number of samples is the column's sum |
| `Columns.Demean` | moss/glm.py:280 | each sample minus the column mean, so the column keeps its length and sums to zero |
| `Columns.Max` | moss/glm.py:242 | the column maximum is one of its samples and no sample exceeds it |
| `Columns.Min` | moss/glm.py:242 | the column minimum is one of its samples and no sample is below it |
| `Columns.ExtremesAttained` | moss/glm.py:242 | `max - min` is the difference of two actual samples |
| `Columns.PeakToPeak` | moss/glm.py:242 | `max - min` is non-negative, bounds the difference of any two samples and is the difference of two of them |
| `Columns.PeakToPeakShift` | moss/glm.py:241-242 | shifting a column by a constant keeps its peak-to-peak height |
| `Columns.DemeanAll` | moss/glm.py:280 | every column of the matrix is demeaned and sums to zero |
| `Columns.Heights` | moss/glm.py:242 | one peak-to-peak height per column, in column order |
| `Columns.HeightsDemeaned` | moss/glm.py:241-242 | heights measured after demeaning equal those measured before |
| `Columns.MatVec` | moss/glm.py:413 | `np.dot(F, v)` has one entry per row of F |
| `Columns.DotAdditive` | moss/glm.py:413 | a row's product with a sum of vectors is the sum of its products |
| `Columns.MatVecAdditive` | moss/glm.py:413 | `np.dot(F, v + w)` is `np.dot(F, v) + np.dot(F, w)`: the filter is linear |
| `EventEncoder.SearchSorted` | moss/glm.py:346 | the left insertion point: every grid element before it is below the value, the one at it is not |
| `EventEncoder.SearchSortedSplits` | moss/glm.py:346 | on an increasing grid, element i is below the value iff i is before the insertion point |
| `EventEncoder.SearchSortedMonotone` | moss/glm.py:346-349 | a later time never has an earlier insertion point |
| `EventEncoder.ClampIndex` | moss/glm.py:346 | `np.minimum(i, tmax - 1)` lies in the grid, never exceeds i, is i when i is in range and the last sample when i is at or past it |
| `EventEncoder.OnsetIndices` | moss/glm.py:346 | one onset sample per event, each inside the grid |
| `EventEncoder.RawOffsetIndices` | moss/glm.py:348-349 | one offset sample per event, from onset + duration, each inside the grid |
| `EventEncoder.FixedOffsets` | moss/glm.py:351-354 | the fix-up moves an offset by at most one sample; an offset equal to its onset afterwards is the last sample; an offset unequal to its onset is unchanged |
| `EventEncoder.OffsetIndices` | moss/glm.py:348-354 | the final offset samples, one per event, inside the grid |
| `EventEncoder.OnsetBeforeOffset` | moss/glm.py:344-354 | an event with non-negative duration never ends before its onset sample |
| `EventEncoder.FancyAdd` | moss/glm.py:347 | a fancy-indexed `+=` keeps the array's length |
| `EventEncoder.FancyAddAt` | moss/glm.py:347 | after a fancy-indexed `+=`, each element is its old value plus the last increment aimed at it (last write wins) |
| `EventEncoder.LastHitDistinct` | moss/glm.py:347 | with pairwise distinct indices, last-write-wins equals accumulation |
| `EventEncoder.CumSumOfHits` | moss/glm.py:357 | the running sum of the onset-minus-offset increments at k is everything aimed at or before k |
| `EventEncoder.HiresEv` | moss/glm.py:343-357 | the encoded timecourse has one sample per grid point |
| `EventEncoder.Boxcar` | moss/glm.py:347-357 | one event's contribution: value on [onset, offset), minus value on [offset, onset), zero elsewhere |
| `EventEncoder.Superposition` | moss/glm.py:343-357 | with distinct onset samples and distinct offset samples, the timecourse is the sum of the events' boxcars |
| `EventEncoder.SingleEvent` | moss/glm.py:343-357 | a single event encodes to its own boxcar |
| `EventEncoder.SingleEventBoxcar` | moss/glm.py:345-357 | a single event with onset a < offset b is its value on a..b-1 and zero everywhere else, after b included |
| `EventEncoder.ZeroDurationImpulse` | moss/glm.py:351-357 | a zero-duration event before the last sample is a one-sample impulse at its onset |
| `EventEncoder.LastSampleEventVanishes` | moss/glm.py:346-357 | an event clamped onto the last sample contributes nothing: its +value and -value cancel |
| `EventEncoder.GapReturnsToZero` | moss/glm.py:343-357 | between the offset of one event and the onset of the next, the timecourse is exactly zero |
| `EventEncoder.SharedOnsetLeavesNegativeTail` | moss/glm.py:347-357 | two events sharing an onset sample lose the first +value: past both offsets the timecourse stays at minus the first value |
| `EventEncoder.FixZeroDurations` | moss/glm.py:352-354 | the in-place loop leaves exactly the fixed-up offsets in the array |
| `EventEncoder.ScatterAdd` | moss/glm.py:347 | the in-place write leaves exactly the fancy-indexed sum in the array |
| `EventEncoder.MakeHiresEv` | moss/glm.py:336-359 | the imperative encoder returns the specified timecourse |
| `Hrf.Normalize` | moss/glm.py:60 | `y /= y.sum()` has unit sum and is proportional to y |
| `Hrf.Diff0` | moss/glm.py:63-64 | the zero-padded difference has one sample per kernel sample (one for an empty kernel) |
| `Hrf.CumSumOfDiff0` | moss/glm.py:63-64 | the running sum of the zero-padded difference gives back the kernel minus its first sample |
| `Hrf.SumSqScale` | moss/glm.py:65-66 | scaling a channel by c scales its energy by c squared |
| `Hrf.GammaDifference` | moss/glm.py:58-59 | the positive density minus `ratio` times the negative one, sample by sample |
| `Hrf.KernelFrom` | moss/glm.py:60-71 | the main channel is the normalised samples; a derivative channel exists iff requested, is the difference scaled by the energy factor and has the main channel's energy |
| `Hrf.MakeKernel` | moss/glm.py:56-71 | the main channel is the normalised gamma difference, with unit sum; a derivative channel exists iff requested, starts at 0, is the scaled difference and has the main channel's energy |
| `Hrf.DerivIntegrates` | moss/glm.py:63-66 | the derivative channel integrates back to the scaled main channel |
| `Hrf.FullConvolve` | moss/glm.py:116-119 | the full convolution has length ntp + len(kernel) - 1 |
| `Hrf.Truncated` | moss/glm.py:116-119 | `[:ntp]` keeps exactly ntp samples |
| `Hrf.TruncatedIsCausal` | moss/glm.py:116-119 | output i is the sum over j <= i of data[j] * kernel[i - j] |
| `Hrf.Causality` | moss/glm.py:116-119 | two timecourses that agree up to sample i convolve to the same value at i |
| `Hrf.ImpulseResponse` | moss/glm.py:116-119 | a unit impulse at the first sample convolves to the kernel, cut to ntp and zero past its end |
| `Hrf.UnitKernelIsIdentity` | moss/glm.py:34-37 | a one-sample unit kernel reproduces the data, as `IdentityHRF` does |
| `Hrf.ConvolutionAdditive` | moss/glm.py:116-119 | the response to a sum of timecourses is the sum of their responses |
| `Hrf.OutputName` | moss/glm.py:100-106 | the given name, else the Series' name, else "event" |
| `Hrf.ConvolveGamma` | moss/glm.py:92-123 | fails iff data or a kernel channel is empty; otherwise one column named `name` holding the truncated convolution, plus `name_deriv` for the derivative channel |
| `Hrf.Convolve` | moss/glm.py:34-123 | the identity model returns the data under the name; the gamma model returns one or two columns of the data's length, named `name` and `name_deriv` |
| `Components.DigitChar` | moss/glm.py:392 | a digit below ten prints as the character that stands for it |
| `Components.NatToString` | moss/glm.py:392 | `"%d"` prints decimal digits whose value is n, with no leading zero, at least two of them from 10 on |
| `Components.NatToStringInjective` | moss/glm.py:392 | different numbers print differently |
| `Components.DefaultLabels` | moss/glm.py:392 | n labels, label i being `base_i` |
| `Components.DefaultLabelsDistinct` | moss/glm.py:392 | the default labels never collide |
| `Components.IsRange` | moss/glm.py:395 | `names.tolist() == list(range(n))`: the labels are exactly the positions 0..n-1 |
| `Components.Renamed` | moss/glm.py:395-397 | a positional range 0..n-1 becomes the default labels; any other labels are kept |
| `Components.RenamedIdempotent` | moss/glm.py:395-397 | validating twice renames no further |
| `Components.RangeIndex` | moss/glm.py:400 | `np.arange(n)` as an index: sample i is i |
| `Components.Table.constructor` | moss/glm.py:393 | a table built from an array holds the given labels, index and columns |
| `Components.Table.SetColumns` | moss/glm.py:397 | assigning `comp.columns` changes the labels and nothing else |
| `Components.Table.SetIndex` | moss/glm.py:405 | assigning `comp.index` succeeds iff the lengths agree, and then changes the index and nothing else |
| `Components.ValidateComponent` | moss/glm.py:383-407 | None passes; an array gets default labels and fails iff its row count is not the frametimes'; a table is renamed in place, fails iff its index is neither the frametimes nor 0..n-1 (keeping the new names), and otherwise is reindexed to the frametimes and returned |
| `Components.FlaggedFrames` | moss/glm.py:263 | `np.where(mask)`: exactly the flagged frames, increasing, count(mask) of them |
| `Components.OneHot` | moss/glm.py:261-263 | count(mask) indicator columns, one sample per frame |
| `Components.ExpandArtifacts` | moss/glm.py:259-266 | no mask or an all-clear mask gives None; otherwise count(mask) >= 1 columns, column j being 1 exactly at the j-th flagged frame and 0 elsewhere |
| `Components.ArtifactColumnsPartitionFrames` | moss/glm.py:261-263 | each flagged frame is marked by exactly one indicator column, an unflagged frame by none |
| `Conditions.RowEvent` | moss/glm.py:213-216 | a row's duration defaults to 0 and its value to 1 |
| `Conditions.EventsUpToRows` | moss/glm.py:330-331 | among the first n rows, the events selected are those of the rows whose condition matches, one per row, in table order |
| `Conditions.EventsOf` | moss/glm.py:330-331 | `design[design.condition == cond]`: exactly one event per row of the condition, in table order, each that row's onset, duration and value |
| `Conditions.AbsentConditionIsSilent` | moss/glm.py:329-333 | a requested condition with no rows encodes to an all-zero timecourse |
| `Conditions.HiresBase` | moss/glm.py:324-334 | one hires timecourse per requested condition, each on the whole grid |
| `Conditions.MakeHiresBase` | moss/glm.py:324-334 | the loop over conditions returns each condition's encoded events, in the order of the names |
| `Conditions.DerivNames` | moss/glm.py:366-369 | one `cond_deriv` name per condition when the model has a derivative channel, none otherwise |
| `Conditions.ConvolvedNames` | moss/glm.py:361-369 | the condition names keep their places at the front; at most one derivative name per condition follows, and none without a derivative channel |
| `Conditions.NamesUpToBounds` | moss/glm.py:364-369 | after any number of conditions the column names start with the condition names and grow by at most one per condition |
| `Conditions.NamesUpToHasDerivs` | moss/glm.py:364-369 | with a derivative channel, every handled condition's `_deriv` name is among the columns |
| `Conditions.NamesUpToExtra` | moss/glm.py:364-369 | every column past the conditions is the `_deriv` name of a handled condition |
| `Conditions.NamesUpToDistinct` | moss/glm.py:364-369 | distinct condition names give distinct column names, whatever clashes occur |
| `Conditions.ConvolvedNamesNoClash` | moss/glm.py:364-369 | when no condition is named like another's derivative, the `_deriv` names are all appended, in condition order |
| `Conditions.Put` | moss/glm.py:368-369 | `frame[key] = vals` keeps the names when the key exists and otherwise appends it |
| `Conditions.PutValues` | moss/glm.py:368-369 | after `frame[key] = vals` the key's column holds the values and every other column is unchanged |
| `Conditions.PutAll` | moss/glm.py:367-369 | writing an output column by column keeps one column per name |
| `Conditions.WriteColumns` | moss/glm.py:367-369 | the loop over an output's columns leaves the block that writing them in turn gives |
| `Conditions.Outputs` | moss/glm.py:364-366 | one `hrf_model.convolve` result per condition, taken on the condition's hires column |
| `Conditions.OutputsShaped` | moss/glm.py:364-366 | a model that convolves gives each condition its main column under its own name and, with a derivative channel, its `_deriv` column, all of the hires length |
| `Conditions.ConvolvedUpTo` | moss/glm.py:361-369 | the block after n conditions keeps one column per name |
| `Conditions.ConvolvedUpToNames` | moss/glm.py:361-369 | the names of the block after n conditions are the condition names plus each derivative name not already present |
| `Conditions.ConvolvedUpToLengths` | moss/glm.py:361-369 | every column of the block after n conditions has the hires length |
| `Conditions.ConvolvedBlock` | moss/glm.py:361-369 | the convolved block carries the convolved names, one column per name, each of the hires length |
| `Conditions.MainColumns` | moss/glm.py:364-369 | the main-channel column of every condition's output, in condition order |
| `Conditions.DerivColumns` | moss/glm.py:364-369 | the derivative-channel column of every condition's output when the model has that channel, none otherwise |
| `Conditions.ConvolvedBlockNoClash` | moss/glm.py:361-369 | when no condition is named like another's derivative, the block is the conditions' main responses under their names followed by their derivative responses under the `_deriv` names |
| `Conditions.DerivNameClashNames` | moss/glm.py:364-369 | the conditions `A` and `A_deriv` under a derivative model give three columns, `A`, `A_deriv`, `A_deriv_deriv`, not four |
| `Conditions.DerivNameClash` | moss/glm.py:364-369 | in that block the `A_deriv` column holds condition `A_deriv`'s main response: `A`'s derivative response is overwritten |
| `Conditions.ConvolveConditions` | moss/glm.py:361-369 | `_convolve` fails iff the model cannot convolve a condition, and otherwise returns the convolved block |
| `Conditions.Subsample` | moss/glm.py:376-380 | one sample per frame, each taken from the hires timecourse |
| `Conditions.SubsampleConstant` | moss/glm.py:376-380 | resampling a constant signal gives the same constant at every frame |
| `Conditions.SubsampleAll` | moss/glm.py:371-381 | every column is resampled at the frames |
| `Conditions.FilterAll` | moss/glm.py:409-414 | every column is multiplied by the filter matrix |
| `Conditions.Finish` | moss/glm.py:240-244 | the names are kept; the heights are those of the subsampled columns, measured after demeaning and before filtering; unfiltered columns sum to zero |
| `Conditions.ConditionMatrix` | moss/glm.py:235-244 | the condition block carries the convolved names, one column of ntp samples and one height per name |
| `Conditions.BuildConditions` | moss/glm.py:235-244 | the condition side fails iff `_convolve` does, and otherwise yields the specified condition block |
| `DesignMatrices.Labels` | moss/glm.py:286 | the condition names as column labels, one for one |
| `DesignMatrices.IsIn` | moss/glm.py:303-309 | `isin` gives one flag per column |
| `DesignMatrices.IsInMarks` | moss/glm.py:303-309 | `isin` marks exactly the columns whose label is among the names |
| `DesignMatrices.Matching` | moss/glm.py:571 | the columns matched by one name all carry that name, one data column each |
| `Columns.Positions` | moss/glm.py:571 | the positions below n that carry a value: each carries it, they increase, and every such position is among them |
| `DesignMatrices.MatchingIndices` | moss/glm.py:571 | one name selects the columns at exactly the positions that carry it, in column order, each with its own data |
| `DesignMatrices.Select` | moss/glm.py:568-590 | `X[names]` yields only columns carrying one of the names |
| `DesignMatrices.SelectComplete` | moss/glm.py:568-590 | `X[names]` keeps every column whose label is among the names, with its data |
| `DesignMatrices.SelectSound` | moss/glm.py:568-590 | every column `X[names]` returns is a column of X, with its own data |
| `DesignMatrices.MatchingDistinct` | moss/glm.py:571 | with distinct labels, one name selects exactly its own column |
| `DesignMatrices.SelectDistinct` | moss/glm.py:568-590 | with distinct labels, selecting present names gives exactly those columns, in the order of the names |
| `DesignMatrices.SelectAppend` | moss/glm.py:568-571 | selecting the names of two lists is selecting each in turn |
| `DesignMatrices.SelectRun` | moss/glm.py:568-590 | with distinct labels, selecting a run of the columns gives that run |
| `DesignMatrices.DesignMatrix.MainSubmatrix` | moss/glm.py:568-571 | `main_submatrix` holds only columns named in the main names |
| `DesignMatrices.DesignMatrix.ConditionSubmatrix` | moss/glm.py:573-576 | `condition_submatrix` holds only condition columns |
| `DesignMatrices.DesignMatrix.ConfoundSubmatrix` | moss/glm.py:578-583 | `confound_submatrix` is None iff there is no confound name, and otherwise holds only confound columns |
| `DesignMatrices.DesignMatrix.ArtifactSubmatrix` | moss/glm.py:585-590 | `artifact_submatrix` is None iff there is no artifact name, and otherwise holds only artifact columns |
| `DesignMatrices.DesignMatrix.ContrastVector` | moss/glm.py:416-421 | one weight per column: the weight of the last (name, weight) pair naming that column, 0 if none does |
| `DesignMatrices.ContrastUnlisted` | moss/glm.py:418-421 | a column whose label is not among the names keeps weight 0 |
| `DesignMatrices.ContrastLastWins` | moss/glm.py:419-420 | a column takes the weight of the last pair that names it |
| `DesignMatrices.AllColumns` | moss/glm.py:269-277 | the labels are the condition block's, then the regressors', confounds' and artifacts', each group a run starting where the previous ends |
| `DesignMatrices.AllData` | moss/glm.py:269-277 | the concatenated data has one column of ntp samples per label, in the same order |
| `DesignMatrices.Assemble` | moss/glm.py:269-312 | one height per column, and every stored column sums to zero |
| `DesignMatrices.NamesPresent` | moss/glm.py:285-299 | every name in the condition, regressor, confound and artifact lists is a column of the matrix |
| `DesignMatrices.AssembleValid` | moss/glm.py:269-299 | the assembled matrix is rectangular and its name lists refer to its columns |
| `DesignMatrices.ColumnSlices` | moss/glm.py:269-299 | the condition, regressor, confound and artifact names are contiguous runs of the columns at fixed offsets |
| `DesignMatrices.AssembledValues` | moss/glm.py:277-295 | the matrix stores the condition and component columns demeaned, and the heights of the condition block followed by those of the components |
| `DesignMatrices.ConditionHeight` | moss/glm.py:242 | a condition column keeps the height measured before the high-pass filter |
| `DesignMatrices.ComponentHeight` | moss/glm.py:289-295 | a regressor, confound or artifact height is that of the demeaned column stored in the matrix |
| `DesignMatrices.ComponentDemeaned` | moss/glm.py:280 | each component column enters the matrix demeaned, after the condition block |
| `DesignMatrices.AssembleLayout` | moss/glm.py:269-309 | the name lists are the matching runs of the columns, the masks are their `isin`, and the confound and artifact masks exist iff those inputs were given |
| `DesignMatrices.ConditionMask` | moss/glm.py:304 | with distinct labels, `condition_vector` marks exactly the leading condition columns |
| `DesignMatrices.MainMask` | moss/glm.py:303 | with distinct labels, `main_vector` marks exactly the conditions and the regressors of interest |
| `DesignMatrices.ConfoundMask` | moss/glm.py:305-307 | with distinct labels, `confound_vector` is absent only without confound columns, and otherwise marks exactly them |
| `DesignMatrices.ArtifactMask` | moss/glm.py:305-309 | with distinct labels, `artifact_vector` is absent only without artifact columns, and otherwise marks exactly them |
| `DesignMatrices.DerivativeColumnsUnmasked` | moss/glm.py:301-309 | with distinct labels, no mask marks a derivative column |
| `DesignMatrices.MasksCoverWithoutDerivatives` | moss/glm.py:301-309 | with distinct labels and without derivative columns, every column is marked by exactly one of the main, confound and artifact masks |
| `DesignMatrices.MasksMarkRuns` | moss/glm.py:301-309 | for any labels, the condition and main masks mark the condition and regressor runs, the confound and artifact masks their runs, and without derivative columns every column is marked |
| `DesignMatrices.ConditionSubmatrixIsLeading` | moss/glm.py:573-576 | with distinct labels, the condition submatrix is the leading columns |
| `DesignMatrices.MainSubmatrixSkipsDerivatives` | moss/glm.py:568-571 | with distinct labels, the main submatrix is the condition columns without derivatives, then the regressors |
| `DesignMatrices.ConfoundSubmatrixIsRun` | moss/glm.py:578-583 | with distinct labels and some confound, the confound submatrix is the run of confound columns |
| `DesignMatrices.ArtifactSubmatrixIsTail` | moss/glm.py:585-590 | with distinct labels and some artifact, the artifact submatrix is the trailing columns |
| `DesignMatrices.NoArtifactsNoArtifactGroup` | moss/glm.py:259-266 | an absent or all-clear mask leaves no artifact columns, no artifact submatrix and no artifact mask |
| `DesignMatrices.ValidatedShaped` | moss/glm.py:383-407 | an accepted component has one column of ntp samples per label |
| `DesignMatrices.ExpectedAssembly` | moss/glm.py:235-281 | when every step succeeds, the expected matrix is the assembly of the steps' results |
| `DesignMatrices.ValidateComponents` | moss/glm.py:246-266 | fails iff a component does not line up with the frametimes; otherwise returns the validated regressors, confounds and artifact indicators, and leaves each table renamed, reindexed to the frametimes and with its data unchanged |
| `DesignMatrices.ArtifactBlock` | moss/glm.py:258-266 | no block without a mask or without a flagged frame; otherwise one column per flagged frame, labelled `artifact_j`, holding the expanded indicators |
| `DesignMatrices.ValidateArtifacts` | moss/glm.py:258-266 | fails iff a mask with a flagged frame has another length than the frametimes; otherwise returns the indicator columns named `artifact_j` |
| `DesignMatrices.Build` | moss/glm.py:166-314 | `__init__` fails iff convolution, validation or the artifact step would raise, and otherwise builds the specified matrix, leaving the caller's tables renamed, indexed by the frametimes and with their data unchanged |

## Left out

- Gamma densities (`scipy.stats.gamma`), `np.linspace` and the `sqrt` rescaling of the derivative kernel: the sampled densities arrive as sequences, and `MakeKernel` takes the rescaling factor as a number with the defining property of that square root (non-negative, and its square times the energy of the difference is the energy of the main channel; `EnergyScale`).
- `fsl_highpass_matrix` and `fsl_highpass_filter`: the filter matrix is a parameter of the condition side; only its application, column by column, is modelled.
- `interp1d(kind="nearest")` in `_subsample_condition_matrix`: the hires sample picked for each frame is a parameter, so scipy's tie-breaking at the midpoints is not modelled.
- PCA confound reduction and the singular values (sklearn and numpy linear algebra): no discrete contract.
- The `np.arange` grids of `__init__`: their length depends on float rounding; the frametimes and the hires grid are parameters.
- The default condition names (sorted unique values of the `condition` column): `Build` takes the condition names explicitly.
- `__init__` adds the default `duration` and `value` columns to the caller's design table; the model fills the defaults in when reading each row and does not change the table.
- Plotting, `__repr__`, file export and pickling: I/O and rendering.
- `FIR` and the `HRFModel` base class: they only raise or return `NotImplementedError`.
- Floating-point rounding, NaN and pandas dtypes: reals are exact.
- Error message texts: only whether a step fails is modelled.
- A 1-D Series passed as a component, and a Series name of None: the model takes 2-D inputs and string names.
- The same table passed as regressors and as confounds: `Build` requires two different objects. With one object the first validation renames its positional labels to `regressor_i`; the second then sees those names, which are no positional range, so it keeps them, and the confound group carries the same labels as the regressor group. The contracts describe each table by its own state before the call, which holds only for two separate objects.
- EventEncoder.MakeHiresEv: requires a non-empty grid; the source indexes at `len(grid) - 1` and so fails or returns an empty array on an empty grid.
- DesignMatrices.ConditionMask: the "only if" direction needs distinct column labels; a repeated label (a regressor named like a condition, say) is marked wherever it appears.
- DesignMatrices.MainMask: the same assumption of distinct column labels.
- DesignMatrices.ConfoundMask: the same assumption of distinct column labels.
- DesignMatrices.ArtifactMask: the same assumption of distinct column labels.
- DesignMatrices.ValidateComponents: on failure it does not state which tables were already renamed or reindexed; `Components.ValidateComponent` states it table by table.
- DesignMatrices.Build: on failure it does not state which tables were already renamed or reindexed, as for `ValidateComponents`.
- DesignMatrices.DerivativeColumnsUnmasked: stated for distinct column labels only; a regressor or confound labelled like a derivative column would make `isin` mark it. `MasksMarkRuns` states what each mask marks for any labels.
- DesignMatrices.MasksCoverWithoutDerivatives: the "exactly one" part is stated for distinct column labels only; `MasksMarkRuns` states the "at least one" part for any labels.
- Conditions.ConvolveConditions: requires distinct condition names. With an explicit list that names a condition twice, `self._hires_base[cond]` is a frame of several columns and what `hrf_model.convolve` and the column assignment then do is not modelled. The default names are the unique values of the `condition` column, which are distinct.
- Conditions.ConvolvedBlock: the same assumption of distinct condition names; a name clash between a condition and another's `_deriv` name is modelled (`DerivNameClash`).
- Conditions.ConditionMatrix: the same assumption of distinct condition names.
- Conditions.BuildConditions: the same assumption of distinct condition names.
- DesignMatrices.Build: the same assumption of distinct condition names, made part of `Arguments.Acceptable`.
- The masks do not cover every column when the HRF has a temporal derivative: the derivative columns are in no name list, so no mask marks them (`DerivativeColumnsUnmasked`); the model follows the code on this, not the class description.
- `confound_vector` is None exactly when no confounds were given, while `confound_submatrix` is None exactly when there are no confound names; the model keeps both conditions as the code has them.
