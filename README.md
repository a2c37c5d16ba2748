# Site-saturation mutagenesis read classifier, in Dafny

This project models the read-classification core of the PALB2 site-saturation mutagenesis (SSM)
pipeline. Every aligned read that starts at the expected position and passes the CIGAR filter is
checked for the engineered edits. Its remaining DNA changes are then resolved to whole codons and
to an event type: a non-coding zone label, Synonymous, Missense, StopGain, Mixed,
MultipleSynonymous, TooMany, Frameshift or NoChanges. The read is counted in one category
counter, and the reads that carry an output are filed in a deduplicated locus table.

Modules (one per source file, plus two shared ones):

- `PySemantics` (py_semantics.dfy) covers the Python built-ins the code relies on:
  - slices with negative and out-of-range bounds, and negative indexing;
  - ASCII `upper`;
  - `str` and `int` on integers;
  - `Outcome<T>`: a value, a raised exception (`Raises`), or a loop that never ends (`Hangs`).
- `GeneticCode` (genetic_code.dfy) is the translation the code obtains from Biopython: the
  standard genetic code (NCBI table 1) on triplets, and reverse complement for strand R.
- `TargetDict` (target_dict.dfy) holds the target record, the five reference zones and the
  indicator record.
- `CountReads` (count_reads.dfy) models CountReads.py:
  - the zones (`get_aa`);
  - the check for the required edits;
  - the ordered decision procedure of `get_mismatch_counts`;
  - the `CountReads` class, whose per-base and per-residue counter tables are updated in place.
- `DnaFunctions` (dna_functions.py model) covers positional diffing, removal of the expected
  changes, the consecutiveness test, the contig trim, the zone cut-offs and codon arithmetic of
  `get_affected_amino_acid`, the two loops of `get_codon`, and `position_wrapper`.
- `Deduper` (deduper.dfy) is the locus table: a class with the `final_dict` map, updated in place
  by `add_to_dict`.
- `ParseCigar` (parse_cigar.dfy) holds `split_cigar`, `trim_soft` and `filter_matches`.
- `SamParsing` (sam_parser.dfy) models main.py:
  - the target and indicator records and the argument check;
  - the per-line rejection chain and dispatch of `process_sam`, as a `SamParser` class with one
    counter field per category;
  - a functional specification (`RowStep`, `RunRows`, `RunSam`) that the methods are proved
    against.
- `AllPossible` (all_possible.dfy) is the all-alternates enumerator of AllPossible.py.

Exceptions the code raises (IndexError, ValueError, TypeError, KeyError and the explicit raises)
become `Raises` outcomes with the exception's name or message. The run stops at the first one, as
the Python program does.

## Model

| member | source | states |
|---|---|---|
| `PySemantics.Slice` | bioinfo/python/CountReads.py:60-62 | A Python slice is at most as long as the sequence, is the ordinary subsequence for in-range bounds, and is empty when the normalised bounds cross |
| `PySemantics.TakeDrop` | bioinfo/python/CountReads.py:60-62 | `s[:k] + s[k:] == s` for every integer k, negative or out of range |
| `PySemantics.At` | bioinfo/python/CountReads.py:399-400 | Indexing with a negative index counts from the end |
| `PySemantics.UpperStr` | bioinfo/python/dna_functions.py:16-17 | `upper` keeps the length and upper-cases every character |
| `PySemantics.ParseInt` | bioinfo/python/main.py:286 | `int` succeeds exactly on an optionally signed run of decimal digits; a bare digit run parses to a non-negative value |
| `PySemantics.ParseIntToStr` | bioinfo/python/main.py:286 | `int(str(n)) == n` for every integer |
| `PySemantics.NatToStr` | bioinfo/python/deduper.py:22-25 | The decimal text of a natural number is non-empty and all digits |
| `PySemantics.IntToStr` | bioinfo/python/deduper.py:22-25 | `str` of an integer is non-empty, starts with '-' exactly for a negative number, and is the digit text otherwise |
| `PySemantics.IntToStrInjective` | bioinfo/python/deduper.py:22-25 | Distinct integers have distinct decimal texts |
| `GeneticCode.BaseRank` | bioinfo/python/CountReads.py:86-88 | A base has a codon-table row exactly when, upper-cased, it is T, C, A, G or U (U read as T) |
| `GeneticCode.CodonToAa` | bioinfo/python/CountReads.py:86-88 | A codon with any base outside the table translates to X |
| `GeneticCode.StopCodons` | bioinfo/python/CountReads.py:263 | A codon translates to `*` exactly when it is TAA, TAG or TGA |
| `GeneticCode.Translate` | bioinfo/python/CountReads.py:88 | The protein has one residue per whole codon |
| `GeneticCode.TranslateAt` | bioinfo/python/CountReads.py:88 | Residue i is the translation of bases 3i, 3i+1 and 3i+2 |
| `GeneticCode.TranslateAppend` | bioinfo/python/dna_functions.py:190-191 | Translating a concatenation whose first part is whole codons translates the parts separately |
| `GeneticCode.ReverseComplement` | bioinfo/python/CountReads.py:86 | Reverse complement keeps the length |
| `GeneticCode.ReverseComplementAt` | bioinfo/python/CountReads.py:86 | Base i of the reverse complement is the complement of base n-1-i |
| `GeneticCode.ReverseComplementInvolution` | bioinfo/python/dna_functions.py:194-195 | Reverse-complementing twice gives back the sequence |
| `GeneticCode.TranslateStrand` | bioinfo/python/CountReads.py:85-88 | Strand F translates the bases as given and strand R translates their reverse complement |
| `ParseCigar.RunLen` | bioinfo/python/parse_cigar.py:9-10 | The run length is maximal: every character before it is of the requested class and the next one is not |
| `ParseCigar.Runs` | bioinfo/python/parse_cigar.py:9-10 | Splitting at digit runs (or non-digit runs) and dropping empty pieces leaves non-empty runs of the other class |
| `ParseCigar.ZipMapLastWins` | bioinfo/python/parse_cigar.py:11 | `dict(zip(keys, values))` holds exactly the zipped keys, and a repeated key keeps its last value |
| `ParseCigar.ZipMapValues` | bioinfo/python/parse_cigar.py:11 | Every value of the zipped dictionary is one of the zipped values |
| `ParseCigar.RunsOfRender` | bioinfo/python/parse_cigar.py:9-10 | For a CIGAR string written from its operations, the letter runs are the operations and the digit runs their lengths, in order |
| `ParseCigar.SplitCigarRender` | bioinfo/python/parse_cigar.py:8-11 | `split_cigar` maps each operation letter to the length of its last occurrence |
| `ParseCigar.SplitCigarKeys` | bioinfo/python/parse_cigar.py:8-11 | The keys of `split_cigar` are exactly the operation letters present |
| `ParseCigar.TrimSoft` | bioinfo/python/parse_cigar.py:14-22 | No operations raises; a first component is always 0; (None, None) exactly when the string starts with neither M nor S/H followed by M |
| `ParseCigar.TrimSoftRender` | bioinfo/python/parse_cigar.py:14-22 | On a CIGAR string: (0, M length) for a leading M, S-M or H-M, (None, None) for any other start, and IndexError for a single S or H |
| `ParseCigar.FilterMatches` | bioinfo/python/parse_cigar.py:25-29 | False without an M key; raises exactly when the M value is not an integer; true exactly when the M length is at least the minimum |
| `ParseCigar.FilterMatchesMonotone` | bioinfo/python/parse_cigar.py:27-28 | Passing at one minimum implies passing at every smaller one |
| `ParseCigar.FilterMatchesSplit` | bioinfo/python/parse_cigar.py:25-29 | On the output of `split_cigar` the filter never raises |
| `ParseCigar.FilterMatchesRender` | bioinfo/python/parse_cigar.py:25-29 | On a CIGAR string the filter passes exactly when its last M run is at least the minimum |
| `CountReads.GetAa` | bioinfo/python/CountReads.py:43-96 | Raises exactly when the coding slice is not whole codons; otherwise returns the zones and the strand's translation, one residue per codon |
| `CountReads.ZonesUpstream` | bioinfo/python/CountReads.py:59-62 | Upstream non-coding followed by the upstream partial codon is `reference[:cds_full_start]`, and the partial codon is its last `codon_distance_up` bases |
| `CountReads.ZonesDownstream` | bioinfo/python/CountReads.py:72-74 | The downstream partial codon starts at the last coding base; the downstream non-coding zone starts one base after its end |
| `CountReads.ZonesOverlap` | bioinfo/python/CountReads.py:59-82 | The five zones together are as long as the target, because the downstream partial codon repeats the last coding base and one base is skipped |
| `CountReads.ValidateSamLine` | bioinfo/python/CountReads.py:98-111 | Raises for fewer than three fields; true exactly for ten or more fields on the target's chromosome |
| `CountReads.IsCorrectBase` | bioinfo/python/CountReads.py:113-114 | A base is correct exactly when it has the required alternative's length and every character matches |
| `CountReads.TrimToTarget` | bioinfo/python/CountReads.py:116-129 | Succeeds exactly when the line has a bases field |
| `CountReads.TrimToTargetSlice` | bioinfo/python/CountReads.py:116-129 | The result is the read's bases from the target's `from` to `to`, relative to the read start |
| `CountReads.StrsMember` | bioinfo/python/CountReads.py:142 | `str(x) in [str(i) ...]` exactly when x is among the integers |
| `CountReads.CheckValidity` | bioinfo/python/CountReads.py:131-151 | With no expected offsets the result is `strict` |
| `CountReads.CheckValidityIndices` | bioinfo/python/CountReads.py:141-151 | Strict: true exactly when every expected offset is a mismatch. Lenient: true exactly when at least one is |
| `CountReads.StrictImpliesLenient` | bioinfo/python/CountReads.py:141-151 | With expected offsets, passing strictly implies passing leniently |
| `CountReads.MismatchIndicesSpec` | bioinfo/python/CountReads.py:167-168 | The DNA mismatch list ascends and holds exactly the offsets below the shorter length where read and target differ |
| `CountReads.MismatchIndicesMembers` | bioinfo/python/CountReads.py:167-168 | Membership in the DNA mismatch list, both directions |
| `CountReads.MismatchIndicesDistinct` | bioinfo/python/CountReads.py:168 | The DNA mismatch list has no repeats |
| `CountReads.WithoutMember` | bioinfo/python/CountReads.py:192-194 | After the removals an offset remains exactly when it was a mismatch and is not expected |
| `CountReads.RemoveFirstDistinct` | bioinfo/python/CountReads.py:193-194 | On a list without repeats, `remove` of an element drops every occurrence of it |
| `CountReads.RemoveExpectedIndices` | bioinfo/python/CountReads.py:192-194 | The in-place removal loop leaves the mismatches that are not expected, in their order |
| `CountReads.IntsMinMax` | bioinfo/python/CountReads.py:216-218 | `min` and `max` are elements of the list and bound all of it |
| `CountReads.ZoneLabelCases` | bioinfo/python/CountReads.py:233-261 | Each zone label's exact condition on the lowest and highest offsets, given the order of the tests; no rule applies (the raise) exactly when the change lies in the coding zone past the partial codon |
| `CountReads.AaMismatchesOfEqual` | bioinfo/python/CountReads.py:306-318 | Equal translations have no changed residue, so the branch for several synonymous residues never runs |
| `CountReads.MismatchCountsNoChanges` | bioinfo/python/CountReads.py:192-201 | The report is NoChanges exactly when no unexpected change is left, and then the list is empty and the flag false; the frameshift flag always goes with the Frameshift event |
| `CountReads.ClassifyFlags` | bioinfo/python/CountReads.py:202-400 | With some unexpected change the report is never NoChanges, and its frameshift flag is set exactly for Frameshift |
| `CountReads.ClassifyZone` | bioinfo/python/CountReads.py:215-261 | Unchanged or empty translations get the zone label of the lowest and highest offsets at the lowest offset; the procedure raises exactly when no rule applies |
| `CountReads.ClassifyStop` | bioinfo/python/CountReads.py:263-292 | With a stop in the alternative: more than one changed residue is Frameshift (flag set), none is MultipleSynonymous, one is StopGain |
| `CountReads.ClassifyNoStop` | bioinfo/python/CountReads.py:305-368 | Without a stop: equal translations give Synonymous for one residue and MultipleSynonymous otherwise; several changed residues give TooMany; one changed residue in a single-residue span gives Missense; Mixed only after these |
| `CountReads.ClassifyMixed` | bioinfo/python/CountReads.py:381-400 | The remaining case is Mixed at the changed residue i of the span; the reported residues are read at index -i (residue 0 when i is 0, residue n - i otherwise), as the source indexes them |
| `CountReads.MixedReportsMirrored` | bioinfo/python/CountReads.py:396-400 | With reference ABD and alternative ACD the Mixed report names residue 1 but carries D and D, a residue that did not change |
| `CountReads.Bumped` | bioinfo/python/CountReads.py:420 | Counting a base raises that base's counter by one and leaves the position, the reference base and the other counters alone |
| `CountReads.FirstUntallied` | bioinfo/python/CountReads.py:411-420 | The first base without a counter: every earlier base has one |
| `CountReads.TalliedEffect` | bioinfo/python/CountReads.py:406-420 | After counting bases 0..k-1, each offset has one more count for its read base, is created with position `aln_start + i` and the reference base, and no other offset changes |
| `CountReads.ZeroChanges` | bioinfo/python/CountReads.py:456-463 | The per-residue counters cover exactly the 21 codes, all zero |
| `CountReads.ReplaceStop` | bioinfo/python/CountReads.py:433 | `replace('*', 'X')` keeps the length, replaces exactly the stops and leaves none |
| `CountReads.CountChange` | bioinfo/python/CountReads.py:447-451 | Counting a change never changes the list's length |
| `CountReads.CountChangeEffect` | bioinfo/python/CountReads.py:434-435 | At a valid index with a known residue, the entry's total and that residue's counter rise by one and nothing else changes |
| `CountReads.MultiSynStops` | bioinfo/python/CountReads.py:429-436 | Once the MultipleSynonymous loop has raised, later turns change nothing |
| `CountReads.BuildAaRefList` | bioinfo/python/CountReads.py:453-465 | One entry per reference residue: its index, the residue, total 0 and the 21 zero counters |
| `CountReads.CountReads.constructor` | bioinfo/python/CountReads.py:33-41 | The object holds the line, indicators and target, the start read as an integer, get_aa's results, an empty base table and a fresh residue table |
| `CountReads.CountReads.GetMismatchCounts` | bioinfo/python/CountReads.py:153-400 | The method (with its in-place removal loop) returns the decision procedure's result |
| `CountReads.CountReads.AddToDict` | bioinfo/python/CountReads.py:406-420 | The base table after counting the bases below the shorter length; it raises exactly at the first base without a counter, after creating that base's entry |
| `CountReads.CountReads.AddAaDict` | bioinfo/python/CountReads.py:422-451 | The residue table and the exception match the specification of the two branches; an IndexError outside the MultipleSynonymous loop is swallowed |
| `DnaFunctions.DiffIndices` | bioinfo/python/dna_functions.py:18 | At most one index per compared position |
| `DnaFunctions.DiffIndicesSound` | bioinfo/python/dna_functions.py:18 | Every listed index is below the bound and its bases differ |
| `DnaFunctions.DiffIndicesComplete` | bioinfo/python/dna_functions.py:18 | Every differing position below the bound is listed |
| `DnaFunctions.DiffIndicesAscending` | bioinfo/python/dna_functions.py:18 | The indices ascend |
| `DnaFunctions.ChangesBelowSound` | bioinfo/python/dna_functions.py:19-24 | Each change records its position and the differing reference and alternative bases |
| `DnaFunctions.ChangesBelowSpec` | bioinfo/python/dna_functions.py:18-24 | The change positions are exactly the differing indices, in order |
| `DnaFunctions.DnaChangesSpec` | bioinfo/python/dna_functions.py:14-25 | `get_dna_changes` lists exactly the case-insensitively differing positions below the shorter length, ascending, with the upper-cased bases |
| `DnaFunctions.GetDnaChanges` | bioinfo/python/dna_functions.py:4-25 | The loop builds the change list of the specification |
| `DnaFunctions.Shifted` | bioinfo/python/dna_functions.py:40 | Each expected position is moved by the codon distance |
| `DnaFunctions.ShiftedMember` | bioinfo/python/dna_functions.py:40 | A position is a target position exactly when it minus the distance is expected |
| `DnaFunctions.RemoveExpectedMember` | bioinfo/python/dna_functions.py:42-45 | A change is kept exactly when it was present and its position is not a target position |
| `DnaFunctions.RemoveExpectedOrdered` | bioinfo/python/dna_functions.py:39-45 | The kept changes are no more than the input and keep ascending positions |
| `DnaFunctions.RemoveExpectedChanges` | bioinfo/python/dna_functions.py:28-45 | The loop builds the order-preserving filtered list |
| `DnaFunctions.Deltas` | bioinfo/python/dna_functions.py:63-64 | One delta per pair of successive positions |
| `DnaFunctions.SumDeltas` | bioinfo/python/dna_functions.py:60-66 | The deltas add up to last position minus first |
| `DnaFunctions.ConsecutiveSpan` | bioinfo/python/dna_functions.py:60-69 | Consecutive exactly when the span from first to last position is within the maximum distance; always for zero or one change |
| `DnaFunctions.IsConsecutive` | bioinfo/python/dna_functions.py:48-69 | The loop's answer is the consecutiveness test |
| `DnaFunctions.MinMaxPosBounds` | bioinfo/python/dna_functions.py:92-93 | The lowest and highest positions are attained and bound every change |
| `DnaFunctions.MinMaxPosAscending` | bioinfo/python/dna_functions.py:92-93 | On ascending changes they are the first and last positions |
| `DnaFunctions.TrimContig` | bioinfo/python/dna_functions.py:72-97 | The reference allele is None exactly when there is no change; otherwise the alternative is present |
| `DnaFunctions.TrimContigSpan` | bioinfo/python/dna_functions.py:83-97 | The contig spans every change and starts and stops at a change |
| `DnaFunctions.TrimContigOfChanges` | bioinfo/python/dna_functions.py:83-97 | For the changes of a read, the contig runs from the first to the last change, with equally long alleles that show each change at its offset |
| `DnaFunctions.TrimContigWide` | bioinfo/python/dna_functions.py:92-97 | Several changes give `[min, max, ref[min..max], alt[min..max]]` |
| `DnaFunctions.PadLen` | bioinfo/python/dna_functions.py:221 | The right padding is below 3 and makes the length a multiple of 3 |
| `DnaFunctions.PadBases` | bioinfo/python/dna_functions.py:223-225 | The padding has the requested number of bases |
| `DnaFunctions.PadBasesAt` | bioinfo/python/dna_functions.py:223 | Padding base k is `seq[new_start + len]` as Python indexes it |
| `DnaFunctions.QIndex` | bioinfo/python/dna_functions.py:230 | The first '?' lies within the text |
| `DnaFunctions.QIndexSpec` | bioinfo/python/dna_functions.py:230 | No '?' comes before it, and it is a '?' when inside |
| `DnaFunctions.CodonTerminatesSpec` | bioinfo/python/dna_functions.py:221-228 | The closed-form condition holds exactly when the padding loop ends |
| `DnaFunctions.GrowingStep` | bioinfo/python/dna_functions.py:221-228 | A padding step appends the same base to both alleles, or the padding cannot fit |
| `DnaFunctions.AfterResetStep` | bioinfo/python/dna_functions.py:226-228 | After a reset to '?' the next step appends the base after the codon start |
| `DnaFunctions.PadStep` | bioinfo/python/dna_functions.py:221-228 | Each turn of the padding loop keeps its invariant and lowers its measure |
| `DnaFunctions.ShrinkStateStep` | bioinfo/python/dna_functions.py:230-234 | Each turn of the trimming loop drops one base from both alleles and keeps its invariant |
| `DnaFunctions.ShrinkStateExit` | bioinfo/python/dna_functions.py:230-234 | When the trimming loop stops, the alleles are the longest '?'-free prefix of whole codons |
| `DnaFunctions.PaddingExit` | bioinfo/python/dna_functions.py:216-235 | After the padding loop, trimming gives `get_codon`'s result |
| `DnaFunctions.GetCodon` | bioinfo/python/dna_functions.py:200-235 | When the loops end, the two-loop method returns the codon specification's alleles |
| `DnaFunctions.PadCodons` | bioinfo/python/dna_functions.py:216-228 | Left prefix and padding give whole codons that trim to the result |
| `DnaFunctions.PadLoop` | bioinfo/python/dna_functions.py:221-228 | The padding loop ends with whole codons in its invariant state |
| `DnaFunctions.CodonSpecBalanced` | bioinfo/python/dna_functions.py:216-235 | For equally long alleles, both codon strings are whole codons of the same length |
| `DnaFunctions.ShrinkBalanced` | bioinfo/python/dna_functions.py:230-234 | Trimming keeps equal lengths and leaves whole codons |
| `DnaFunctions.ShrinkWhole` | bioinfo/python/dna_functions.py:230-234 | Trimming leaves '?'-free whole codons alone |
| `DnaFunctions.CodonSpecExtends` | bioinfo/python/dna_functions.py:216-235 | With enough bases, both results share the prefix `seq[start-codon_index:start]` and the same right padding from `seq` |
| `DnaFunctions.SpanCutOf` | bioinfo/python/dna_functions.py:151-181 | No coding change exactly in the three returning cases; the alleles are kept whole exactly when the span starts and ends in the coding zone (the body also shows the branch at lines 161-167 is never taken) |
| `DnaFunctions.AffectedNoCoding` | bioinfo/python/dna_functions.py:151-175 | In each of the three cases the result is ('', '', '', '', -1) |
| `DnaFunctions.AffectedCoding` | bioinfo/python/dna_functions.py:184-197 | Any other result reaches the coding zone, AApos is the codon of the start on either strand, and the residues translate the codons |
| `DnaFunctions.CodonBoundary` | bioinfo/python/dna_functions.py:184 | The codon start lies within three bases before the span and on a codon boundary |
| `DnaFunctions.CodonsFromBoundary` | bioinfo/python/dna_functions.py:216-235 | Codons taken from the codon boundary are whole codons of the reference that cover the span |
| `DnaFunctions.AffectedCodingSpan` | bioinfo/python/dna_functions.py:169-196 | A span inside the coding zone is taken in whole reference codons from the codon boundary at or before it, translated on the strand, at codon `rel // 3` on strand F and `(us_len - start - 1) // 3` on strand R |
| `DnaFunctions.KeepCodons` | bioinfo/python/dna_functions.py:169-196 | With alleles kept whole, the result is the strand's translation of `get_codon`'s output, at codon `rel // 3` on strand F and `(us_len - start - 1) // 3` on strand R |
| `DnaFunctions.PositionWrapperSpan` | bioinfo/python/dna_functions.py:259-265 | `cons` is the consecutiveness of the unexpected changes; no change gives the empty contig; otherwise the contig runs from first to last change with equal alleles and equally long residue strings |
| `DnaFunctions.UnexpectedChanges` | bioinfo/python/dna_functions.py:259-260 | The unexpected changes ascend and record the upper-cased bases of target and read |
| `DnaFunctions.CodingCodonsBalanced` | bioinfo/python/dna_functions.py:186-197 | Equal alleles give equally long codons and residues |
| `DnaFunctions.AffectedBalanced` | bioinfo/python/dna_functions.py:184-197 | Substitution-only contigs give equally long reference and alternative residues |
| `Deduper.Sighting` | bioinfo/python/deduper.py:19-51 | Coding key `chrom:start:ref:alt` from the contig with its residues, codons and AApos; non-coding key from the report with '.' in those five fields; `pos = read_start + relative position`; a list position raises TypeError |
| `Deduper.Recorded` | bioinfo/python/deduper.py:53-62 | The key's record is the new metadata with the old count plus one (1 on first sighting); no other key changes |
| `Deduper.RecordedAllCount` | bioinfo/python/deduper.py:53-62 | From an empty table, each key's count is its number of sightings |
| `Deduper.RecordedAllKeys` | bioinfo/python/deduper.py:53-54 | From an empty table, a key is present exactly when it was seen |
| `Deduper.RecordedAllLatest` | bioinfo/python/deduper.py:57-61 | A key's metadata is that of its latest sighting |
| `Deduper.SeenTwice` | bioinfo/python/deduper.py:53-62 | Two sightings leave count 2, the second sighting's metadata and one new key |
| `Deduper.KeyInjective` | bioinfo/python/deduper.py:22-25 | On one chromosome, with ':'-free reference alleles, two changes share a key exactly when position, reference and alternative agree |
| `Deduper.LocusTable.constructor` | bioinfo/python/deduper.py:1-63 | A new locus table is empty |
| `Deduper.LocusTable.AddToDict` | bioinfo/python/deduper.py:1-63 | In place, the table becomes the table after one sighting; an exception leaves it unchanged |
| `AllPossible.Skipping` | bioinfo/python/AllPossible.py:60-63 | The kept bases are exactly those different from the skipped one |
| `AllPossible.SkippingAltOrder` | bioinfo/python/AllPossible.py:60-63 | Skipping a base in A, C, T, G, letter by letter |
| `AllPossible.AltGenerator` | bioinfo/python/AllPossible.py:58-63 | Three alternates for a base among A, C, T, G, four for any other |
| `AllPossible.AltGeneratorBases` | bioinfo/python/AllPossible.py:60-63 | The alternates are exactly the other bases, each once, in A, C, T, G order |
| `AllPossible.RecordsAt` | bioinfo/python/AllPossible.py:69-74 | Base i yields one record per alternate, at `from + i` with ID '.' and REF `seq[i]` |
| `AllPossible.GetLineLength` | bioinfo/python/AllPossible.py:65-74 | Over A, C, G, T there are 3·n records |
| `AllPossible.GetLineLayout` | bioinfo/python/AllPossible.py:65-74 | Record k belongs to base k / 3 and is its alternate k % 3, so positions ascend |
| `AllPossible.GetLineSubstitutions` | bioinfo/python/AllPossible.py:68-74 | Every record is a genuine substitution with ID '.' |
| `SamParsing.BuildTargetDict` | bioinfo/python/main.py:188-201 | `mmc[i] = positions[i] - read_start`, the sequence upper-cased, `size` its length, the bounds and strand copied |
| `SamParsing.Indicators` | bioinfo/python/main.py:223-232 | One indicator per position, pairing it with the base at the same index; IndexError exactly when there are fewer bases |
| `SamParsing.BuildIndicatorDict` | bioinfo/python/main.py:203-232 | The appending loop builds those indicators |
| `SamParsing.IndicatorsMatchTarget` | bioinfo/python/main.py:195 | Each indicator's position minus the read start is the target's expected offset |
| `SamParsing.ValidateArgs` | bioinfo/python/main.py:139-151 | Returns True or raises |
| `SamParsing.ValidateArgsSound` | bioinfo/python/main.py:139-151 | After the check the alignment file exists, every target character is A, C, G or T, and every required base is one of those letters in either case |
| `SamParsing.ValidateArgsComplete` | bioinfo/python/main.py:139-151 | A missing alignment file, a required base that is not a single A, C, T or G, or any other reference character makes the check raise |
| `SamParsing.IndicatorBaseCorrect` | bioinfo/python/CountReads.py:113-114 | Against the indicators of checked arguments, a read base is correct for edit i exactly when it is the base given for edit i, so a single A, C, T or G |
| `SamParsing.StripLeft` | bioinfo/python/main.py:282 | The left strip is a suffix of the text that does not start with white space |
| `SamParsing.StripRight` | bioinfo/python/main.py:282 | The right strip is a prefix of the text that does not end with white space |
| `SamParsing.Strip` | bioinfo/python/main.py:282 | A non-empty stripped line neither starts nor ends with white space |
| `SamParsing.Setup` | bioinfo/python/main.py:112-119 | The parser builds the target and indicators and checks the arguments; it raises exactly when the indicators or the check do |
| `SamParsing.StripSlice` | bioinfo/python/main.py:282 | `strip` removes exactly the leading and trailing whitespace |
| `SamParsing.SplitTab` | bioinfo/python/main.py:282 | `split('\t')` gives at least one field |
| `SamParsing.SplitTabNoTab` | bioinfo/python/main.py:282 | No field contains a tab |
| `SamParsing.JoinSplitTab` | bioinfo/python/main.py:282 | Joining the fields with tabs gives back the line |
| `SamParsing.SplitJoinTab` | bioinfo/python/main.py:282 | Splitting tab-free fields joined by tabs gives back the fields |
| `SamParsing.RowKindOf` | bioinfo/python/main.py:279-282 | A line is a header exactly when it starts with '@' |
| `SamParsing.LineKind` | bioinfo/python/main.py:286-295 | The field checks (start, chromosome, CIGAR filter) never classify a line as a header |
| `SamParsing.ReadKind` | bioinfo/python/main.py:297 | The read checks, after get_aa, never classify a line as a header |
| `SamParsing.Checked` | bioinfo/python/main.py:300-316 | The field count and edit checks never classify a line as a header |
| `SamParsing.Classified` | bioinfo/python/main.py:319 | A read that passes every check is dispatched with its report |
| `SamParsing.HeaderSkipped` | bioinfo/python/main.py:279-280 | A header changes nothing, not even total_count |
| `SamParsing.OffTargetKind` | bioinfo/python/main.py:286-288 | A wrong start or chromosome is off target |
| `SamParsing.OffTargetFirst` | bioinfo/python/main.py:286-288 | Such a line is counted in total_count and off_target only, whatever its CIGAR string and bases |
| `SamParsing.ApplyOffTarget` | bioinfo/python/main.py:283-288 | An off-target line raises total_count and off_target by one |
| `SamParsing.LineKindDispatched` | bioinfo/python/main.py:286-297 | A dispatched line was on target and passed the CIGAR filter |
| `SamParsing.ReadKindDispatched` | bioinfo/python/main.py:297-319 | A dispatched read has ten fields, get_aa succeeded, and it carries get_mismatch_counts's report and position_wrapper's outcome |
| `SamParsing.DispatchedKind` | bioinfo/python/main.py:286-319 | The two together, from the raw line |
| `SamParsing.FrameshiftCategory` | bioinfo/python/main.py:321-395 | A report whose flag goes with Frameshift always has a counter |
| `SamParsing.DispatchComplete` | bioinfo/python/main.py:395-397 | The final raise of process_sam is never reached |
| `SamParsing.DispatchCounter` | bioinfo/python/main.py:321-339 | Frameshift, NoChanges, TooMany, Mixed and MultipleSynonymous only raise their counter |
| `SamParsing.DispatchNoncoding` | bioinfo/python/main.py:342-352 | A zone label raises noncoding_count and files the report's sighting |
| `SamParsing.DispatchCoding` | bioinfo/python/main.py:354-393 | Synonymous, Missense and StopGain raise their counter and file the sighting with position_wrapper's result, whose exception passes through |
| `SamParsing.ApplyCounts` | bioinfo/python/main.py:283-393 | A counted line raises total_count by one and the category counters by at most one |
| `SamParsing.RowStepCounts` | bioinfo/python/main.py:279-393 | The same for a raw line; a header raises nothing |
| `SamParsing.ApplyFiled` | bioinfo/python/main.py:321-393 | Only a dispatched read of the four filed categories changes the table |
| `SamParsing.CategoryFiled` | bioinfo/python/main.py:342-393 | The filed categories carry no frameshift flag and a zone label, Synonymous, Missense or StopGain |
| `SamParsing.OnlyEventsFiled` | bioinfo/python/main.py:321-393 | Only the six zone labels, Synonymous, Missense and StopGain without the frameshift flag reach `add_to_dict` |
| `SamParsing.RunRowsConsistent` | bioinfo/python/main.py:276-397 | The category counters never add up to more than total_count |
| `SamParsing.RunRowsTotal` | bioinfo/python/main.py:276-283 | total_count is the number of lines that are not headers |
| `SamParsing.RunRowsFailure` | bioinfo/python/main.py:276-397 | Once a line raises, the run has raised |
| `SamParsing.RunRowsHeaders` | bioinfo/python/main.py:279-280 | A run of header lines leaves the state unchanged |
| `SamParsing.Summary` | bioinfo/python/main.py:399-412 | The summary divides by total_count: it raises ZeroDivisionError exactly when no line was counted, and otherwise keeps the state |
| `SamParsing.RunSamSummary` | bioinfo/python/main.py:276-412 | A run whose lines pass raises (ZeroDivisionError) exactly when the starting total plus the non-header lines is 0, and otherwise ends in the state after the last line |
| `SamParsing.RunSamNoReads` | bioinfo/python/main.py:276-412 | From zero counters, a file with no line but headers raises ZeroDivisionError |
| `SamParsing.SamParser.constructor` | bioinfo/python/main.py:112-137 | The parser holds the target, indicators and settings of its arguments, zero counters, and a locus table object that `ProcessSam` empties on each call |
| `SamParsing.SamParser.CountEvent` | bioinfo/python/main.py:321-380 | Exactly the counter of the report's category rises, with the categories checked in the source's order |
| `SamParsing.SamParser.DispatchRead` | bioinfo/python/main.py:321-397 | Counters, table and exception after a classified read are those of the dispatch specification |
| `SamParsing.SamParser.ClassifyRead` | bioinfo/python/main.py:319-397 | A read with every required edit is classified and dispatched as specified |
| `SamParsing.SamParser.CheckRead` | bioinfo/python/main.py:300-316 | Counters, table and exception are those the field-count and edit checks specify: a short line is dropped, a read without the required edits counted invalid, any other read classified |
| `SamParsing.SamParser.ProcessRead` | bioinfo/python/main.py:297 | Counters, table and exception follow the read-check specification, which starts with get_aa; its exception ends the run |
| `SamParsing.SamParser.ProcessLine` | bioinfo/python/main.py:282-295 | The field checks in order: the start parsed, off target, the CIGAR filter |
| `SamParsing.SamParser.ProcessRow` | bioinfo/python/main.py:276-283 | One line of the file moves the state exactly as the line-step specification says |
| `SamParsing.SamParser.ProcessSam` | bioinfo/python/main.py:235-412 | The whole run matches the run specification, starting from the counters as they stand and an empty locus table (the local `final_dict = dict()` of line 269): the first exception stops it, a run that counted no line raises ZeroDivisionError in the summary, and otherwise `usable_count = stop + missense + synonymous` |

## Left out

- File and stream I/O is not modelled: opening the alignment file, the TSV, VCF and metrics
  writers, `write_vcf` of AllPossible.py, logging and argument parsing. `ProcessSam` receives the
  file's lines, and `Args` is the parsed command line. `os.path.exists` becomes the
  `samfileExists` field.
- The text of the summary line of `process_sam` (float percentages, the sample name) and its
  logging are not modelled. Only its division by `total_count` is: `Summary` raises
  ZeroDivisionError when no line was counted.
- The debug print for amino acid 2710 in the StopGain branch is not modelled, because it is
  output only.
- Biopython's translation of non-ACGTU characters is not modelled: any codon with such a base
  translates to X, and Biopython's warnings about partial codons are not modelled. Translation
  uses whole codons only.
- Upper-casing, `int` and `str` are ASCII-only. `int` does not accept surrounding whitespace,
  underscores or non-ASCII digits. `strip` removes the Unicode white space Python removes.
- Lines 174-188 of `get_mismatch_counts` compute strand-dependent translations that are
  overwritten before use, so they are not modelled.
- The unreachable branches are not modelled:
  - `get_affected_amino_acid` lines 161-167 (`SpanCutOf` proves them unreachable);
  - `get_mismatch_counts` lines 308-318 (`AaMismatchesOfEqual`);
  - the ValueError handler at 384-390 (`remove` of the list's own first element always
    succeeds).
- `CountReads.add_to_dict` and `add_aa_dict` are modelled as methods of the class, but
  `process_sam` never calls them.
- `is_correct_base` is modelled on one indicator record. `process_sam` passes a list of them,
  and nothing calls the method.
- The strand argument of `deduper.add_to_dict` is accepted but unused, as in the source.
- The coding branches of `process_sam` pass `args['strand']` to `position_wrapper`. The model
  passes the target's strand, which `build_target_dict` copies from the same argument.
- `DnaFunctions.GetCodon`: it requires the closed-form termination condition. Without it the
  first loop of `get_codon` never ends. That case is the `Hangs` outcome of the specification,
  and `CodonTerminatesSpec` characterises it.
- `SamParsing.SamParser.ProcessSam`: it, and the methods it calls, require the run not to hang.
  The hanging case is left to the `Hangs` outcome of the functional specification.
- `SamParsing.SamParser.ProcessSam`: after an exception, only the exception is stated; the
  counters and the table are left unspecified.
- The parser keeps one `LocusTable` object for its lifetime and `ProcessSam` empties it when it
  starts. Python creates a new `final_dict` in every call; a table handed out by an earlier call is
  therefore shared in the model and not in Python, and nothing in the model hands it out.
- `ParseCigar.Runs` and `SplitCigar` use ASCII digits for both splits. parse_cigar.py splits the
  letters at `[0-9]+`, which is ASCII, but the lengths at `\D+`, which in Python keeps every Unicode
  decimal digit. A CIGAR string with a non-ASCII digit (such as U+0663) is therefore split
  differently by the model; such strings are not CIGAR strings of an aligner.
- `SamParsing.SamParser.constructor`: it requires the indicator build and the argument check to
  succeed. The raising cases are stated by `Setup`.
- `CountReads.CountReads.constructor`: it requires the start field to be an integer and
  `get_aa` to succeed. The failing cases are the `Raises` outcomes of `LineKind` and `ReadKind`,
  which the parser methods follow.
- The keys of `CountReads.results_dict` are `str(i)`. The model keys the table by the integer
  `i`, which is one-to-one with it.
