/**
 * Translation of nucleotide triplets with the standard genetic code (NCBI
 * translation table 1), and reverse complementation for targets on the
 * reverse strand. The pipeline obtains both from Biopython's `Seq`.
 */
module GeneticCode {
  import opened PySemantics

  datatype Strand = F | R

  /** Position of a base in the order T, C, A, G (U reads as T, case ignored); 4 for any other character. */
  function BaseRank(c: char): (k: nat)
    ensures k <= 4
    ensures k < 4 <==> Upper(c) in "TCAGU"
  {
    match Upper(c)
    case 'T' => 0
    case 'U' => 0
    case 'C' => 1
    case 'A' => 2
    case 'G' => 3
    case _ => 4
  }

  /** Table 1 by first and second base (ranks 0..3 for T, C, A, G); k is the rank of the third base. */
  function Table1(i: nat, j: nat, k: nat): (r: char)
    requires i < 4 && j < 4 && k < 4
  {
    match (i, j)
    case (0, 0) => if k < 2 then 'F' else 'L'
    case (0, 1) => 'S'
    case (0, 2) => if k < 2 then 'Y' else '*'
    case (0, 3) => if k < 2 then 'C' else if k == 2 then '*' else 'W'
    case (1, 0) => 'L'
    case (1, 1) => 'P'
    case (1, 2) => if k < 2 then 'H' else 'Q'
    case (1, 3) => 'R'
    case (2, 0) => if k < 3 then 'I' else 'M'
    case (2, 1) => 'T'
    case (2, 2) => if k < 2 then 'N' else 'K'
    case (2, 3) => if k < 2 then 'S' else 'R'
    case (3, 0) => 'V'
    case (3, 1) => 'A'
    case (3, 2) => if k < 2 then 'D' else 'E'
    case (3, 3) => 'G'
  }

  /** The amino acid of one codon; '*' for a stop codon, 'X' when a base is not A, C, G, T or U. */
  function CodonToAa(b0: char, b1: char, b2: char): (aa: char)
    ensures BaseRank(b0) == 4 || BaseRank(b1) == 4 || BaseRank(b2) == 4 ==> aa == 'X'
  {
    var i, j, k := BaseRank(b0), BaseRank(b1), BaseRank(b2);
    if i == 4 || j == 4 || k == 4 then 'X' else Table1(i, j, k)
  }

  /** Exactly TAA, TAG and TGA are stop codons. */
  lemma StopCodons(b0: char, b1: char, b2: char)
    ensures CodonToAa(b0, b1, b2) == '*' <==>
      (BaseRank(b0), BaseRank(b1), BaseRank(b2)) in {(0, 2, 2), (0, 2, 3), (0, 3, 2)}
  {
  }

  /** Biopython's `translate()`: one residue per complete codon; trailing bases of a partial codon are ignored. */
  function Translate(dna: string): (aa: string)
    ensures |aa| == |dna| / 3
    decreases |dna|
  {
    if |dna| < 3 then [] else [CodonToAa(dna[0], dna[1], dna[2])] + Translate(dna[3..])
  }

  /** Residue i is the translation of bases 3i, 3i+1, 3i+2. */
  lemma {:induction false} TranslateAt(dna: string, i: nat)
    requires i < |dna| / 3
    ensures Translate(dna)[i] == CodonToAa(dna[3 * i], dna[3 * i + 1], dna[3 * i + 2])
    decreases i
  {
    if i > 0 {
      var t := dna[3..];
      var j := 3 * i;
      var k := j - 3;
      assert k == 3 * (i - 1);
      TranslateAt(t, i - 1);
      assert t[k] == dna[j] && t[k + 1] == dna[j + 1] && t[k + 2] == dna[j + 2];
      assert Translate(dna)[i] == Translate(t)[i - 1];
    } else {
      assert Translate(dna) == [CodonToAa(dna[0], dna[1], dna[2])] + Translate(dna[3..]);
    }
  }

  /** Translating codon-aligned pieces separately gives the translation of the whole. */
  lemma {:induction false} TranslateAppend(a: string, b: string)
    requires |a| % 3 == 0
    ensures Translate(a + b) == Translate(a) + Translate(b)
    decreases |a|
  {
    if |a| > 0 {
      assert (a + b)[3..] == a[3..] + b;
      TranslateAppend(a[3..], b);
    } else {
      assert a + b == b;
    }
  }

  /** Watson-Crick complement of one base, keeping its case; other characters are left alone. */
  function Complement(c: char): (r: char)
  {
    match c
    case 'A' => 'T'
    case 'T' => 'A'
    case 'C' => 'G'
    case 'G' => 'C'
    case 'a' => 't'
    case 't' => 'a'
    case 'c' => 'g'
    case 'g' => 'c'
    case _ => c
  }

  /** The reverse complement: the complemented bases in reverse order. */
  function ReverseComplement(s: string): (r: string)
    ensures |r| == |s|
  {
    if |s| == 0 then [] else [Complement(s[|s| - 1])] + ReverseComplement(s[..|s| - 1])
  }

  /** Base i of the reverse complement is the complement of base |s| - 1 - i. */
  lemma {:induction false} ReverseComplementAt(s: string, i: nat)
    requires i < |s|
    ensures ReverseComplement(s)[i] == Complement(s[|s| - 1 - i])
    decreases |s|
  {
    if i > 0 {
      ReverseComplementAt(s[..|s| - 1], i - 1);
    }
  }

  /** Reverse complementation undoes itself. */
  lemma ReverseComplementInvolution(s: string)
    ensures ReverseComplement(ReverseComplement(s)) == s
  {
    var r := ReverseComplement(s);
    var rr := ReverseComplement(r);
    forall i | 0 <= i < |s|
      ensures rr[i] == s[i]
    {
      ReverseComplementAt(r, i);
      ReverseComplementAt(s, |s| - 1 - i);
    }
  }

  /** Translation of the coding strand: the bases as given for F, their reverse complement for R. */
  function TranslateStrand(dna: string, strand: Strand): (aa: string)
    ensures |aa| == |dna| / 3
    ensures strand == F ==> aa == Translate(dna)
    ensures strand == R ==> aa == Translate(ReverseComplement(dna))
  {
    match strand
    case F => Translate(dna)
    case R => Translate(ReverseComplement(dna))
  }
}
