/**
 * The all-alternates enumerator of AllPossible.py: for every base of a target sequence, one VCF
 * record per other nucleotide, in sequence order.
 */
module AllPossible {

  /** The order in which alternates are tried. */
  const AltOrder: string := "ACTG"

  function Rank(b: char): (r: nat)
  {
    if b == 'A' then 0 else if b == 'C' then 1 else if b == 'T' then 2 else 3
  }

  function Skipping(bs: string, base: char): (r: string)
    ensures forall b :: b in r <==> b in bs && b != base
    ensures |r| <= |bs|
  {
    if |bs| == 0 then [] else (if bs[0] != base then [bs[0]] else []) + Skipping(bs[1..], base)
  }

  /** Skipping one base of A, C, T, G, worked out letter by letter. */
  lemma SkippingAltOrder(base: char)
    ensures Skipping(AltOrder, base) ==
      (if base == 'A' then "" else "A") + (if base == 'C' then "" else "C") +
      (if base == 'T' then "" else "T") + (if base == 'G' then "" else "G")
  {
    assert AltOrder[1..] == "CTG" && "CTG"[1..] == "TG" && "TG"[1..] == "G" && "G"[1..] == "";
    assert Skipping("G", base) == if base == 'G' then "" else "G";
    assert Skipping("TG", base) == (if base == 'T' then "" else "T") + Skipping("G", base);
    assert Skipping("CTG", base) == (if base == 'C' then "" else "C") + Skipping("TG", base);
    assert Skipping(AltOrder, base) == (if base == 'A' then "" else "A") + Skipping("CTG", base);
  }

  /** makeAltVCF._altGenerator: A, C, T, G in that order, leaving out the reference base, so a
      base among them has three alternates and any other base (lower case, N) four. */
  function AltGenerator(base: char): (alts: string)
    ensures |alts| == if base in AltOrder then 3 else 4
  {
    SkippingAltOrder(base);
    Skipping(AltOrder, base)
  }

  /** The alternates are exactly the other three (or four) bases, each once, in A, C, T, G order. */
  lemma AltGeneratorBases(base: char)
    ensures forall b :: b in AltGenerator(base) <==> b in AltOrder && b != base
    ensures forall i, j :: 0 <= i < j < |AltGenerator(base)| ==> Rank(AltGenerator(base)[i]) < Rank(AltGenerator(base)[j])
  {
    SkippingAltOrder(base);
  }

  /** One line of the all-alternates VCF: chromosome, position, ID, REF and ALT. */
  datatype VcfRecord = VcfRecord(chrom: string, pos: int, id: string, ref: char, alt: char)

  function RecordsAt(chrom: string, from: int, s: string, i: nat): (rs: seq<VcfRecord>)
    requires i < |s|
    ensures |rs| == |AltGenerator(s[i])|
    ensures forall k :: 0 <= k < |rs| ==> rs[k] == VcfRecord(chrom, from + i, ".", s[i], AltGenerator(s[i])[k])
  {
    var alts := AltGenerator(s[i]);
    seq(|alts|, k requires 0 <= k < |alts| => VcfRecord(chrom, from + i, ".", s[i], alts[k]))
  }

  /** makeAltVCF.getline over the first n bases of the sequence. */
  function GetLine(chrom: string, from: int, s: string, n: nat): (r: seq<VcfRecord>)
    requires n <= |s|
  {
    if n == 0 then [] else GetLine(chrom, from, s, n - 1) + RecordsAt(chrom, from, s, n - 1)
  }

  predicate OverAcgt(s: string)
  {
    forall i :: 0 <= i < |s| ==> s[i] in AltOrder
  }

  lemma Thirds(k: int, q: int)
    requires 3 * q <= k < 3 * q + 3
    ensures k / 3 == q && k % 3 == k - 3 * q
  {
  }

  /** Over A, C, G, T every base gives three records. */
  lemma {:induction false} GetLineLength(chrom: string, from: int, s: string, n: nat)
    requires n <= |s| && OverAcgt(s)
    ensures |GetLine(chrom, from, s, n)| == 3 * n
  {
    if n > 0 {
      GetLineLength(chrom, from, s, n - 1);
      assert s[n - 1] in AltOrder;
    }
  }

  /** Over A, C, G, T every base gives three records: record k is alternate k % 3 of base k / 3,
      at position from + k / 3 with ID '.', so positions ascend and there are 3 n records. */
  lemma {:induction false} GetLineLayout(chrom: string, from: int, s: string, n: nat)
    requires n <= |s| && OverAcgt(s)
    ensures |GetLine(chrom, from, s, n)| == 3 * n
    ensures forall k :: 0 <= k < 3 * n ==>
      GetLine(chrom, from, s, n)[k] == VcfRecord(chrom, from + k / 3, ".", s[k / 3], AltGenerator(s[k / 3])[k % 3])
  {
    if n > 0 {
      GetLineLayout(chrom, from, s, n - 1);
      GetLineLength(chrom, from, s, n);
      var prev := GetLine(chrom, from, s, n - 1);
      var here := RecordsAt(chrom, from, s, n - 1);
      var all := GetLine(chrom, from, s, n);
      assert all == prev + here;
      assert s[n - 1] in AltOrder;
      assert |here| == 3;
      forall k | 0 <= k < 3 * n
        ensures all[k] == VcfRecord(chrom, from + k / 3, ".", s[k / 3], AltGenerator(s[k / 3])[k % 3])
      {
        if k < 3 * (n - 1) {
          assert all[k] == prev[k];
        } else {
          var m := k - 3 * (n - 1);
          Thirds(k, n - 1);
          assert all[k] == here[m];
          assert here[m] == VcfRecord(chrom, from + (n - 1), ".", s[n - 1], AltGenerator(s[n - 1])[m]);
        }
      }
    }
  }

  /** Every record of the full enumeration is a genuine substitution: its ALT differs from REF. */
  lemma GetLineSubstitutions(chrom: string, from: int, s: string)
    requires OverAcgt(s)
    ensures forall r :: r in GetLine(chrom, from, s, |s|) ==> r.alt != r.ref && r.alt in AltOrder && r.id == "."
  {
    GetLineLayout(chrom, from, s, |s|);
    var recs := GetLine(chrom, from, s, |s|);
    forall r | r in recs
      ensures r.alt != r.ref && r.alt in AltOrder && r.id == "."
    {
      var k :| 0 <= k < |recs| && recs[k] == r;
      var alts := AltGenerator(s[k / 3]);
      AltGeneratorBases(s[k / 3]);
      assert alts[k % 3] in alts;
    }
  }
}
