/**
 * The two records that the pipeline threads through every per-read call:
 * the target description assembled once per run, and the five reference
 * zones cut from it for one read.
 */
module TargetDict {
  import opened GeneticCode

  /** The target: chromosome, the genomic bounds of the full-codon region,
      the reference bases (upper-cased), the intentional-edit offsets
      relative to the read start, the partial-codon flank lengths and the strand. */
  datatype Target = Target(
    chrom: string,
    from: int,
    to: int,
    size: int,
    bases: string,
    mmc: seq<int>,
    codonDistanceUp: int,
    codonDistanceDown: int,
    strand: Strand)

  /** The five zones of the reference: upstream non-coding, upstream partial
      codon, coding (forward strand), downstream partial codon, downstream non-coding. */
  datatype OtherSeqs = OtherSeqs(
    downstreamNoncodingSeq: string,
    cdsDownSeq: string,
    referenceSeqFstrand: string,
    cdsUpSeq: string,
    upstreamNoncodingSeq: string)

  /** One required edit: its chromosome, genomic position and the base it must show. */
  datatype Indicator = Indicator(chrom: string, pos: int, requiredAlt: string)
}
