/**
 * Locating the DNA differences between a read and its target, reducing them
 * to the smallest span that holds them, and mapping that span onto whole
 * codons and amino acids of the coding region.
 */
module DnaFunctions {
  import opened PySemantics
  import opened GeneticCode
  import opened TargetDict

  /** One DNA difference at 0-based offset `pos`: reference base and observed base. */
  datatype Change = Change(pos: int, ref: char, alt: char)

  function Min(a: int, b: int): (r: int) { if a <= b then a else b }

  function Max(a: int, b: int): (r: int) { if a >= b then a else b }

  /** The offsets (shifted by `offset`) of the first n positions at which a and b differ, ascending. */
  function DiffIndices(a: string, b: string, n: nat, offset: int): (r: seq<int>)
    requires n <= |a| && n <= |b|
    ensures |r| <= n
  {
    if n == 0 then []
    else DiffIndices(a, b, n - 1, offset) + (if a[n - 1] != b[n - 1] then [offset + n - 1] else [])
  }

  /** Every listed offset is below n (after shifting) and marks a position where a and b differ. */
  lemma {:induction false} DiffIndicesSound(a: string, b: string, n: nat, offset: int)
    requires n <= |a| && n <= |b|
    ensures forall j :: 0 <= j < |DiffIndices(a, b, n, offset)| ==>
      offset <= DiffIndices(a, b, n, offset)[j] < offset + n &&
      a[DiffIndices(a, b, n, offset)[j] - offset] != b[DiffIndices(a, b, n, offset)[j] - offset]
  {
    if n > 0 {
      DiffIndicesSound(a, b, n - 1, offset);
      var prev := DiffIndices(a, b, n - 1, offset);
      var tail: seq<int> := if a[n - 1] != b[n - 1] then [offset + n - 1] else [];
      var r := DiffIndices(a, b, n, offset);
      assert r == prev + tail;
      forall j | 0 <= j < |r|
        ensures offset <= r[j] < offset + n && a[r[j] - offset] != b[r[j] - offset]
      {
        if j < |prev| {
          assert r[j] == prev[j];
        }
      }
    }
  }

  /** Every position below n where a and b differ is listed. */
  lemma {:induction false} DiffIndicesComplete(a: string, b: string, n: nat, offset: int)
    requires n <= |a| && n <= |b|
    ensures forall i :: 0 <= i < n && a[i] != b[i] ==> offset + i in DiffIndices(a, b, n, offset)
  {
    if n > 0 {
      DiffIndicesComplete(a, b, n - 1, offset);
    }
  }

  /** The offsets are listed in strictly ascending order. */
  lemma {:induction false} DiffIndicesAscending(a: string, b: string, n: nat, offset: int)
    requires n <= |a| && n <= |b|
    ensures forall j, k :: 0 <= j < k < |DiffIndices(a, b, n, offset)| ==>
      DiffIndices(a, b, n, offset)[j] < DiffIndices(a, b, n, offset)[k]
  {
    if n > 0 {
      DiffIndicesAscending(a, b, n - 1, offset);
      DiffIndicesSound(a, b, n - 1, offset);
      var prev := DiffIndices(a, b, n - 1, offset);
      var tail: seq<int> := if a[n - 1] != b[n - 1] then [offset + n - 1] else [];
      var r := DiffIndices(a, b, n, offset);
      assert r == prev + tail;
      forall j, k | 0 <= j < k < |r|
        ensures r[j] < r[k]
      {
        assert r[j] == prev[j];
        if k < |prev| {
          assert r[k] == prev[k];
        }
      }
    }
  }

  function Positions(cs: seq<Change>): (ps: seq<int>)
    ensures |ps| == |cs|
    ensures forall i :: 0 <= i < |cs| ==> ps[i] == cs[i].pos
  {
    seq(|cs|, i requires 0 <= i < |cs| => cs[i].pos)
  }

  /** The changes among the first n positions of two equal-case strings, in order of position. */
  function ChangesBelow(ref: string, alt: string, n: nat): (r: seq<Change>)
    requires n <= |ref| && n <= |alt|
  {
    if n == 0 then []
    else ChangesBelow(ref, alt, n - 1) + (if ref[n - 1] != alt[n - 1] then [Change(n - 1, ref[n - 1], alt[n - 1])] else [])
  }

  /** Each change lies below n and records the two differing bases at its position. */
  lemma {:induction false} ChangesBelowSound(ref: string, alt: string, n: nat)
    requires n <= |ref| && n <= |alt|
    ensures forall c :: c in ChangesBelow(ref, alt, n) ==>
      0 <= c.pos < n && c.ref == ref[c.pos] && c.alt == alt[c.pos] && c.ref != c.alt
  {
    if n > 0 {
      ChangesBelowSound(ref, alt, n - 1);
    }
  }

  /** The changes between the reference and the read, compared case-insensitively over their common length. */
  function DnaChanges(referenceSeq: string, altSeq: string): (r: seq<Change>)
  {
    ChangesBelow(UpperStr(referenceSeq), UpperStr(altSeq), Min(|referenceSeq|, |altSeq|))
  }

  lemma PositionsAppend(a: seq<Change>, b: seq<Change>)
    ensures Positions(a + b) == Positions(a) + Positions(b)
  {
  }

  /** The positions of the changes are exactly the offsets where the strings differ, ascending. */
  lemma {:induction false} ChangesBelowSpec(ref: string, alt: string, n: nat)
    requires n <= |ref| && n <= |alt|
    ensures Positions(ChangesBelow(ref, alt, n)) == DiffIndices(ref, alt, n, 0)
  {
    if n > 0 {
      ChangesBelowSpec(ref, alt, n - 1);
      var prev := ChangesBelow(ref, alt, n - 1);
      var tail := if ref[n - 1] != alt[n - 1] then [Change(n - 1, ref[n - 1], alt[n - 1])] else [];
      PositionsAppend(prev, tail);
      var dtail: seq<int> := if ref[n - 1] != alt[n - 1] then [n - 1] else [];
      assert Positions(tail) == dtail;
      assert DiffIndices(ref, alt, n, 0) == DiffIndices(ref, alt, n - 1, 0) + dtail;
    }
  }

  /** Each change reports the upper-cased bases at its position, and the positions are exactly the
      offsets at which the upper-cased strings differ, ascending. */
  lemma DnaChangesSpec(referenceSeq: string, altSeq: string)
    ensures Positions(DnaChanges(referenceSeq, altSeq)) ==
      DiffIndices(UpperStr(referenceSeq), UpperStr(altSeq), Min(|referenceSeq|, |altSeq|), 0)
    ensures forall c :: c in DnaChanges(referenceSeq, altSeq) ==>
      0 <= c.pos < |referenceSeq| && c.pos < |altSeq| &&
      c.ref == Upper(referenceSeq[c.pos]) && c.alt == Upper(altSeq[c.pos]) && c.ref != c.alt
  {
    ChangesBelowSpec(UpperStr(referenceSeq), UpperStr(altSeq), Min(|referenceSeq|, |altSeq|));
    ChangesBelowSound(UpperStr(referenceSeq), UpperStr(altSeq), Min(|referenceSeq|, |altSeq|));
  }

  /** get_dna_changes: the changes between the reference and the read, position by position. */
  method GetDnaChanges(referenceSeq: string, altSeq: string) returns (diffList: seq<Change>)
    ensures diffList == DnaChanges(referenceSeq, altSeq)
  {
    var n := Min(|altSeq|, |referenceSeq|);
    var ref := UpperStr(referenceSeq);
    var alt := UpperStr(altSeq);
    diffList := [];
    var i := 0;
    while i < n
      invariant 0 <= i <= n
      invariant diffList == ChangesBelow(ref, alt, i)
    {
      if alt[i] != ref[i] {
        diffList := diffList + [Change(i, ref[i], alt[i])];
      }
      i := i + 1;
    }
  }

  function Shifted(mmc: seq<int>, codonDistance: int): (t: seq<int>)
    ensures |t| == |mmc|
    ensures forall i :: 0 <= i < |mmc| ==> t[i] == mmc[i] + codonDistance
  {
    seq(|mmc|, i requires 0 <= i < |mmc| => mmc[i] + codonDistance)
  }

  /** The changes whose position is not an expected (intentional) one, in their original order. */
  function RemoveExpected(ms: seq<Change>, targetMmc: seq<int>, codonDistance: int): (r: seq<Change>)
  {
    if |ms| == 0 then []
    else
      RemoveExpected(ms[..|ms| - 1], targetMmc, codonDistance) +
      (if ms[|ms| - 1].pos !in Shifted(targetMmc, codonDistance) then [ms[|ms| - 1]] else [])
  }

  lemma ShiftedMember(mmc: seq<int>, codonDistance: int, p: int)
    ensures p in Shifted(mmc, codonDistance) <==> p - codonDistance in mmc
  {
    var t := Shifted(mmc, codonDistance);
    if p in t {
      var i :| 0 <= i < |t| && t[i] == p;
      assert mmc[i] == p - codonDistance;
    }
    if p - codonDistance in mmc {
      var i :| 0 <= i < |mmc| && mmc[i] == p - codonDistance;
      assert t[i] == p;
    }
  }

  /** A change survives exactly when its position is not an expected one. */
  lemma {:induction false} RemoveExpectedMember(ms: seq<Change>, targetMmc: seq<int>, codonDistance: int, c: Change)
    ensures c in RemoveExpected(ms, targetMmc, codonDistance) <==> c in ms && c.pos - codonDistance !in targetMmc
  {
    ShiftedMember(targetMmc, codonDistance, c.pos);
    if |ms| > 0 {
      var init := ms[..|ms| - 1];
      RemoveExpectedMember(init, targetMmc, codonDistance, c);
      assert ms == init + [ms[|ms| - 1]];
    }
  }

  /** Filtering keeps the order: ascending positions stay ascending. */
  lemma {:induction false} RemoveExpectedOrdered(ms: seq<Change>, targetMmc: seq<int>, codonDistance: int)
    requires forall i, j :: 0 <= i < j < |ms| ==> ms[i].pos < ms[j].pos
    ensures var r := RemoveExpected(ms, targetMmc, codonDistance);
      |r| <= |ms| && forall i, j :: 0 <= i < j < |r| ==> r[i].pos < r[j].pos
  {
    if |ms| > 0 {
      var init := ms[..|ms| - 1];
      RemoveExpectedOrdered(init, targetMmc, codonDistance);
      var last := ms[|ms| - 1];
      var r0 := RemoveExpected(init, targetMmc, codonDistance);
      var r := RemoveExpected(ms, targetMmc, codonDistance);
      forall i, j | 0 <= i < j < |r|
        ensures r[i].pos < r[j].pos
      {
        if j >= |r0| {
          assert r[j] == last;
          assert r[i] == r0[i];
          RemoveExpectedMember(init, targetMmc, codonDistance, r0[i]);
          var k :| 0 <= k < |init| && init[k] == r0[i];
        }
      }
    }
  }

  /** remove_expected_changes */
  method RemoveExpectedChanges(dnaMismatches: seq<Change>, targetMmc: seq<int>, codonDistance: int)
    returns (cleanMismatches: seq<Change>)
    ensures cleanMismatches == RemoveExpected(dnaMismatches, targetMmc, codonDistance)
  {
    cleanMismatches := [];
    var targetPositions := Shifted(targetMmc, codonDistance);
    var i := 0;
    while i < |dnaMismatches|
      invariant 0 <= i <= |dnaMismatches|
      invariant cleanMismatches == RemoveExpected(dnaMismatches[..i], targetMmc, codonDistance)
    {
      assert dnaMismatches[..i + 1][..i] == dnaMismatches[..i];
      if dnaMismatches[i].pos !in targetPositions {
        cleanMismatches := cleanMismatches + [dnaMismatches[i]];
      }
      i := i + 1;
    }
    assert dnaMismatches[..i] == dnaMismatches;
  }

  /** Differences of successive positions. */
  function Deltas(ps: seq<int>): (ds: seq<int>)
    ensures |ds| == if |ps| == 0 then 0 else |ps| - 1
  {
    if |ps| < 2 then [] else Deltas(ps[..|ps| - 1]) + [ps[|ps| - 1] - ps[|ps| - 2]]
  }

  function Sum(s: seq<int>): (r: int)
  {
    if |s| == 0 then 0 else Sum(s[..|s| - 1]) + s[|s| - 1]
  }

  /** is_consecutive: the deltas between successive changes add up to at most maxDistance. */
  predicate Consecutive(mmc: seq<Change>, maxDistance: int)
  {
    !(Sum(Deltas(Positions(mmc))) > maxDistance)
  }

  /** The deltas telescope: their sum is the distance from the first to the last position. */
  lemma {:induction false} SumDeltas(ps: seq<int>)
    requires |ps| > 0
    ensures Sum(Deltas(ps)) == ps[|ps| - 1] - ps[0]
  {
    if |ps| >= 2 {
      var init := ps[..|ps| - 1];
      SumDeltas(init);
      assert Deltas(ps)[..|Deltas(ps)| - 1] == Deltas(init);
    }
  }

  /** Changes are consecutive exactly when the last lies at most maxDistance after the first,
      whatever the order in between (with no change the distance counts as 0). */
  lemma ConsecutiveSpan(mmc: seq<Change>, maxDistance: int)
    ensures Consecutive(mmc, maxDistance) <==>
      (if |mmc| == 0 then 0 else mmc[|mmc| - 1].pos - mmc[0].pos) <= maxDistance
  {
    if |mmc| > 0 {
      var ps := Positions(mmc);
      SumDeltas(ps);
      assert ps[0] == mmc[0].pos && ps[|ps| - 1] == mmc[|mmc| - 1].pos;
    }
  }

  /** is_consecutive, with its loop collecting the deltas before they are summed. */
  method IsConsecutive(mmc: seq<Change>, maxDistance: int) returns (r: bool)
    ensures r == Consecutive(mmc, maxDistance)
  {
    var deltas: seq<int> := [];
    var mutatedPositions := Positions(mmc);
    var x := 0;
    while x < |mutatedPositions| - 1
      invariant 0 <= x <= if |mutatedPositions| == 0 then 0 else |mutatedPositions| - 1
      invariant |mutatedPositions| == 0 ==> deltas == []
      invariant |mutatedPositions| > 0 ==> deltas == Deltas(mutatedPositions[..x + 1])
    {
      assert mutatedPositions[..x + 2][..x + 1] == mutatedPositions[..x + 1];
      deltas := deltas + [mutatedPositions[x + 1] - mutatedPositions[x]];
      x := x + 1;
    }
    if |mutatedPositions| > 0 {
      assert mutatedPositions[..x + 1] == mutatedPositions;
    }
    r := !(Sum(deltas) > maxDistance);
  }

  /** pos_ref_alt: the span [start, stop] that holds every change, with its reference and read bases. */
  datatype Contig = Contig(start: int, stop: int, ref: Option<string>, alt: Option<string>)

  /** Python's `min` over the positions of a non-empty list of changes. */
  function MinPos(cs: seq<Change>): (r: int)
    requires |cs| > 0
  {
    if |cs| == 1 then cs[0].pos else Min(cs[0].pos, MinPos(cs[1..]))
  }

  /** Python's `max` over the positions of a non-empty list of changes. */
  function MaxPos(cs: seq<Change>): (r: int)
    requires |cs| > 0
  {
    if |cs| == 1 then cs[0].pos else Max(cs[0].pos, MaxPos(cs[1..]))
  }

  /** MinPos and MaxPos bound every position and are themselves positions of the list. */
  lemma {:induction false} MinMaxPosBounds(cs: seq<Change>)
    requires |cs| > 0
    ensures forall c :: c in cs ==> MinPos(cs) <= c.pos <= MaxPos(cs)
    ensures exists c :: c in cs && c.pos == MinPos(cs)
    ensures exists c :: c in cs && c.pos == MaxPos(cs)
  {
    assert cs[0] in cs;
    if |cs| > 1 {
      MinMaxPosBounds(cs[1..]);
      forall c | c in cs
        ensures MinPos(cs) <= c.pos <= MaxPos(cs)
      {
        if c != cs[0] {
          assert c in cs[1..];
        }
      }
      var lo :| lo in cs[1..] && lo.pos == MinPos(cs[1..]);
      var hi :| hi in cs[1..] && hi.pos == MaxPos(cs[1..]);
      assert lo in cs && hi in cs;
    }
  }

  /** For strictly ascending positions the minimum is the first and the maximum the last. */
  lemma {:induction false} MinMaxPosAscending(cs: seq<Change>)
    requires |cs| > 0
    requires forall i, j :: 0 <= i < j < |cs| ==> cs[i].pos < cs[j].pos
    ensures MinPos(cs) == cs[0].pos && MaxPos(cs) == cs[|cs| - 1].pos
  {
    if |cs| > 1 {
      var t := cs[1..];
      forall i, j | 0 <= i < j < |t|
        ensures t[i].pos < t[j].pos
      {
        assert t[i] == cs[i + 1] && t[j] == cs[j + 1];
      }
      MinMaxPosAscending(t);
      assert cs[0].pos < cs[1].pos && cs[|cs| - 2].pos < cs[|cs| - 1].pos;
      assert t[0] == cs[1] && t[|t| - 1] == cs[|cs| - 1];
    }
  }

  /** trim_contig: nothing for no change; the single change's own bases for one change; otherwise the
      slices the reference and the read show between the lowest and highest changed position. */
  function TrimContig(mmc: seq<Change>, referenceSeq: string, altSeq: string): (r: Contig)
    ensures |mmc| == 0 <==> r.ref.None?
    ensures |mmc| > 0 ==> r.alt.Some?
  {
    if |mmc| == 0 then Contig(0, 0, None, None)
    else if |mmc| == 1 then Contig(mmc[0].pos, mmc[0].pos, Some([mmc[0].ref]), Some([mmc[0].alt]))
    else
      var lo := MinPos(mmc);
      var hi := MaxPos(mmc);
      Contig(lo, hi, Some(Slice(referenceSeq, lo, hi + 1)), Some(Slice(altSeq, lo, hi + 1)))
  }

  /** Whatever the order of the changes, the span holds all of them and starts and ends at one. */
  lemma TrimContigSpan(mmc: seq<Change>, referenceSeq: string, altSeq: string)
    requires |mmc| > 0
    ensures forall c :: c in mmc ==>
      TrimContig(mmc, referenceSeq, altSeq).start <= c.pos <= TrimContig(mmc, referenceSeq, altSeq).stop
    ensures exists c :: c in mmc && c.pos == TrimContig(mmc, referenceSeq, altSeq).start
    ensures exists c :: c in mmc && c.pos == TrimContig(mmc, referenceSeq, altSeq).stop
  {
    if |mmc| == 1 {
      assert mmc[0] in mmc;
      forall c | c in mmc
        ensures c == mmc[0]
      {
      }
    } else {
      MinMaxPosBounds(mmc);
      var lo, hi := MinPos(mmc), MaxPos(mmc);
      assert TrimContig(mmc, referenceSeq, altSeq).start == lo && TrimContig(mmc, referenceSeq, altSeq).stop == hi;
    }
  }

  /** For changes found between a reference and a read (ascending, inside both strings) the span runs
      from the first to the last change, and the reference and read pieces have the span's length
      and hold every change at its offset within the span. */
  lemma TrimContigOfChanges(mmc: seq<Change>, referenceSeq: string, altSeq: string) returns (r: Contig)
    requires forall i, j :: 0 <= i < j < |mmc| ==> mmc[i].pos < mmc[j].pos
    requires forall i :: 0 <= i < |mmc| ==>
      0 <= mmc[i].pos < |referenceSeq| && mmc[i].pos < |altSeq| &&
      mmc[i].ref == Upper(referenceSeq[mmc[i].pos]) && mmc[i].alt == Upper(altSeq[mmc[i].pos])
    requires |mmc| > 0
    ensures r == TrimContig(mmc, referenceSeq, altSeq)
    ensures r.start == mmc[0].pos && r.stop == mmc[|mmc| - 1].pos && r.ref.Some? && r.alt.Some?
    ensures |r.ref.value| == |r.alt.value| == r.stop - r.start + 1
    ensures forall i :: 0 <= i < |mmc| ==> r.start <= mmc[i].pos <= r.stop
    ensures forall i :: 0 <= i < |mmc| ==>
      Upper(r.ref.value[mmc[i].pos - r.start]) == mmc[i].ref && Upper(r.alt.value[mmc[i].pos - r.start]) == mmc[i].alt
  {
    r := TrimContig(mmc, referenceSeq, altSeq);
    var lo, hi := mmc[0].pos, mmc[|mmc| - 1].pos;
    forall i | 0 <= i < |mmc|
      ensures lo <= mmc[i].pos <= hi
    {
      if 0 < i < |mmc| - 1 {
        assert lo < mmc[i].pos < hi;
      }
    }
    if |mmc| > 1 {
      MinMaxPosAscending(mmc);
      TrimContigWide(mmc, referenceSeq, altSeq, lo, hi);
      ChangesInSlice(mmc, referenceSeq, altSeq, lo, hi + 1);
    }
  }

  /** Several changes between lo and hi: the span is [lo, hi] with the slices of both strings. */
  lemma TrimContigWide(mmc: seq<Change>, referenceSeq: string, altSeq: string, lo: int, hi: int)
    requires |mmc| > 1 && MinPos(mmc) == lo && MaxPos(mmc) == hi
    requires 0 <= lo <= hi < |referenceSeq| && hi < |altSeq|
    ensures TrimContig(mmc, referenceSeq, altSeq).start == lo && TrimContig(mmc, referenceSeq, altSeq).stop == hi
    ensures TrimContig(mmc, referenceSeq, altSeq).ref.Some? && TrimContig(mmc, referenceSeq, altSeq).alt.Some?
    ensures TrimContig(mmc, referenceSeq, altSeq).ref.value == referenceSeq[lo..hi + 1]
    ensures TrimContig(mmc, referenceSeq, altSeq).alt.value == altSeq[lo..hi + 1]
  {
    TrimContigMany(mmc, referenceSeq, altSeq);
  }

  lemma TrimContigMany(mmc: seq<Change>, referenceSeq: string, altSeq: string)
    requires |mmc| > 1
    ensures TrimContig(mmc, referenceSeq, altSeq).start == MinPos(mmc)
    ensures TrimContig(mmc, referenceSeq, altSeq).stop == MaxPos(mmc)
    ensures TrimContig(mmc, referenceSeq, altSeq).ref == Some(Slice(referenceSeq, MinPos(mmc), MaxPos(mmc) + 1))
    ensures TrimContig(mmc, referenceSeq, altSeq).alt == Some(Slice(altSeq, MinPos(mmc), MaxPos(mmc) + 1))
  {
  }

  /** Changes inside [lo, hi) are seen at their offsets within the slices of both strings. */
  lemma ChangesInSlice(mmc: seq<Change>, referenceSeq: string, altSeq: string, lo: int, hi: int)
    requires 0 <= lo <= hi <= |referenceSeq| && hi <= |altSeq|
    requires forall i :: 0 <= i < |mmc| ==>
      lo <= mmc[i].pos < hi && mmc[i].ref == Upper(referenceSeq[mmc[i].pos]) && mmc[i].alt == Upper(altSeq[mmc[i].pos])
    ensures forall i :: 0 <= i < |mmc| ==>
      Upper(referenceSeq[lo..hi][mmc[i].pos - lo]) == mmc[i].ref && Upper(altSeq[lo..hi][mmc[i].pos - lo]) == mmc[i].alt
  {
    forall i | 0 <= i < |mmc|
      ensures Upper(referenceSeq[lo..hi][mmc[i].pos - lo]) == mmc[i].ref
      ensures Upper(altSeq[lo..hi][mmc[i].pos - lo]) == mmc[i].alt
    {
      ChangeInSlice(referenceSeq, altSeq, lo, hi, mmc[i]);
    }
  }

  /** A change inside [lo, hi) is seen at its offset within the slices of both strings. */
  lemma ChangeInSlice(referenceSeq: string, altSeq: string, lo: int, hi: int, c: Change)
    requires 0 <= lo <= c.pos < hi <= |referenceSeq| && hi <= |altSeq|
    requires c.ref == Upper(referenceSeq[c.pos]) && c.alt == Upper(altSeq[c.pos])
    ensures Upper(referenceSeq[lo..hi][c.pos - lo]) == c.ref && Upper(altSeq[lo..hi][c.pos - lo]) == c.alt
  {
    assert referenceSeq[lo..hi][c.pos - lo] == referenceSeq[c.pos];
    assert altSeq[lo..hi][c.pos - lo] == altSeq[c.pos];
  }



  // ------------------------------------------------------------------
  // get_codon

  /** How many bases complete a fragment of length n to whole codons. */
  function PadLen(n: nat): (p: nat)
    ensures p < 3 && (n + p) % 3 == 0
  {
    (3 - n % 3) % 3
  }

  lemma PadLenStep(n: nat)
    requires n % 3 > 0
    ensures PadLen(n + 1) < PadLen(n)
  {
  }

  /** PadLen is the only padding below it that completes whole codons. */
  lemma PadLenUnique(n: nat, q: nat)
    requires q <= PadLen(n) && (n + q) % 3 == 0
    ensures q == PadLen(n)
  {
    var m := n % 3;
    assert n == 3 * (n / 3) + m;
    assert (n + q) % 3 == (m + q) % 3 by {
      assert n + q == 3 * (n / 3) + (m + q);
    }
  }

  /** Reading `count` bases of a string of length n from index `from` on raises no IndexError. */
  predicate Fits(n: nat, from: int, count: nat)
  {
    count == 0 || (ValidIndex(n, from) && ValidIndex(n, from + count - 1))
  }

  /** The `count` bases that `s[from]`, `s[from + 1]`, ... yield, negative indices counting from the end. */
  function PadBases(s: string, from: int, count: nat): (r: string)
    requires Fits(|s|, from, count)
    ensures |r| == count
  {
    if count == 0 then []
    else
      assert Fits(|s|, from, count - 1);
      PadBases(s, from, count - 1) + [At(s, from + count - 1)]
  }

  /** The length of the longest prefix of r without a '?'. */
  function QIndex(r: string): (k: nat)
    ensures k <= |r|
  {
    if |r| == 0 || r[0] == '?' then 0 else 1 + QIndex(r[1..])
  }

  /** QIndex is the position of the first '?' (or the length when there is none). */
  lemma {:induction false} QIndexSpec(r: string)
    ensures forall i :: 0 <= i < QIndex(r) ==> r[i] != '?'
    ensures QIndex(r) < |r| ==> r[QIndex(r)] == '?'
  {
    if |r| > 0 && r[0] != '?' {
      QIndexSpec(r[1..]);
    }
  }

  /** The bases PadBases reads are those at the successive indices, counted from the end when negative. */
  lemma {:induction false} PadBasesAt(s: string, from: int, count: nat, k: nat)
    requires Fits(|s|, from, count) && k < count
    ensures ValidIndex(|s|, from + k) && PadBases(s, from, count)[k] == At(s, from + k)
  {
    if k < count - 1 {
      PadBasesAt(s, from, count - 1, k);
    }
  }

  /** The second loop of get_codon: the reference is cut back to whole codons free of '?', and the
      alternative loses as many bases (never fewer than none). */
  function Shrink(r: string, a: string): (string, string)
  {
    var k := (QIndex(r) / 3) * 3;
    var drop := |r| - k;
    (r[..k], a[..if |a| >= drop then |a| - drop else 0])
  }

  /** What get_codon returns. The prefix `seq[start - codonIndex:start]` is added to both alleles and
      bases after it are appended until the reference has whole codons. When an appended index is
      out of range both become "?" and appending restarts one base after the prefix start; when
      that cannot succeed either, the loop never ends. */
  function CodonSpec(refDna: string, altDna: string, s: string, codonIndex: int, start: int): (r: Outcome<(string, string)>)
  {
    var ns := start - codonIndex;
    var p := Slice(s, ns, start);
    var r0 := p + refDna;
    var a0 := p + altDna;
    var pad := PadLen(|r0|);
    if Fits(|s|, ns + |r0|, pad) then
      var b := PadBases(s, ns + |r0|, pad);
      Done(Shrink(r0 + b, a0 + b))
    else if Fits(|s|, ns + 1, 2) then
      Done(("", ""))
    else
      Hangs
  }

  lemma PadBasesSnoc(s: string, from: int, count: nat)
    requires Fits(|s|, from, count) && ValidIndex(|s|, from + count)
    ensures Fits(|s|, from, count + 1)
    ensures PadBases(s, from, count + 1) == PadBases(s, from, count) + [At(s, from + count)]
  {
  }

  /** Inside a range that fits, every index is valid. */
  lemma FitsInside(n: nat, from: int, count: nat, c: nat)
    requires Fits(n, from, count) && c < count
    ensures ValidIndex(n, from + c) && Fits(n, from, c)
  {
  }

  /** A range reaching past an invalid index does not fit. */
  lemma FitsBeyond(n: nat, from: int, count: nat, c: nat)
    requires c < count && !ValidIndex(n, from + c)
    ensures !Fits(n, from, count)
  {
  }

  /** The cut-back of the second loop when it stops at length m: m is the largest multiple of 3 up
      to the first '?'. */
  lemma ShrinkStops(r1: string, m: nat)
    requires m <= |r1| && m % 3 == 0 && forall i :: 0 <= i < m ==> r1[i] != '?'
    ensures m <= (QIndex(r1) / 3) * 3
  {
    QIndexAtLeast(r1, m);
    WholeCodonsBelow(m, QIndex(r1));
  }

  lemma {:induction false} QIndexAtLeast(r: string, m: nat)
    requires m <= |r| && forall i :: 0 <= i < m ==> r[i] != '?'
    ensures m <= QIndex(r)
  {
    if m > 0 {
      assert r[0] != '?';
      QIndexAtLeast(r[1..], m - 1);
    }
  }

  lemma WholeCodonsBelow(m: nat, q: nat)
    requires m % 3 == 0 && m <= q
    ensures m <= (q / 3) * 3
  {
    assert m == (m / 3) * 3;
    assert m / 3 <= q / 3;
  }

  /** get_codon stops: the padding bases exist, or after the reset the two bases after the prefix start do. */
  predicate CodonTerminates(refDna: string, s: string, codonIndex: int, start: int)
  {
    var ns := start - codonIndex;
    var l := |Slice(s, ns, start)| + |refDna|;
    Fits(|s|, ns + l, PadLen(l)) || Fits(|s|, ns + 1, 2)
  }

  lemma CodonTerminatesSpec(refDna: string, altDna: string, s: string, codonIndex: int, start: int)
    ensures CodonTerminates(refDna, s, codonIndex, start) <==> !CodonSpec(refDna, altDna, s, codonIndex, start).Hangs?
  {
  }

  /** The state of get_codon's second loop: r1 and a1 both lost the same number of bases from the end
      (a1 stopping at none), never going below the final length m. */
  ghost predicate ShrinkState(r1: string, a1: string, r: string, a: string)
  {
    (QIndex(r1) / 3) * 3 <= |r| <= |r1| && r == r1[..|r|] &&
    a == a1[..if |a1| >= |r1| - |r| then |a1| - (|r1| - |r|) else 0]
  }

  lemma ShrinkStateStep(r1: string, a1: string, r: string, a: string)
    requires ShrinkState(r1, a1, r, a) && ('?' in r || |r| % 3 > 0)
    ensures |r| > 0 && ShrinkState(r1, a1, Take(r, -1), Take(a, -1))
  {
    QIndexSpec(r1);
  }

  lemma ShrinkStateExit(r1: string, a1: string, r: string, a: string)
    requires ShrinkState(r1, a1, r, a) && !('?' in r) && |r| % 3 == 0
    ensures (r, a) == Shrink(r1, a1)
  {
    ShrinkStops(r1, |r|);
  }

  /** The state of get_codon's first loop before any reset: both alleles carry the prefix and the
      padding bases b read so far from index `from` on. */
  ghost predicate Growing(s: string, from: int, pad: nat, r0: string, a0: string, r: string, a: string, b: string)
  {
    |b| <= pad && Fits(|s|, from, |b|) && b == PadBases(s, from, |b|) && r == r0 + b && a == a0 + b
  }

  /** The state after a reset: both alleles are "?" followed by the bases read since from index ns + 1 on. */
  ghost predicate AfterReset(s: string, ns: int, r: string, a: string, b: string)
  {
    Fits(|s|, ns + 1, 2) && 1 <= |r| <= 3 && |b| == |r| - 1 && b == PadBases(s, ns + 1, |b|) && r == "?" + b && a == r
  }

  lemma GrowingStep(s: string, from: int, pad: nat, r0: string, a0: string, r: string, a: string, b: string)
    requires Growing(s, from, pad, r0, a0, r, a, b) && (|r0| + pad) % 3 == 0 && |r| % 3 > 0
    ensures var idx := from + |b|;
      if ValidIndex(|s|, idx) then Growing(s, from, pad, r0, a0, r + [At(s, idx)], a + [At(s, idx)], b + [At(s, idx)])
      else !Fits(|s|, from, pad)
  {
    var idx := from + |b|;
    if ValidIndex(|s|, idx) {
      PadBasesSnoc(s, from, |b|);
    } else {
      assert |b| < pad;
      FitsBeyond(|s|, from, pad, |b|);
    }
  }

  lemma AfterResetStep(s: string, ns: int, r: string, a: string, b: string)
    requires AfterReset(s, ns, r, a, b) && |r| % 3 > 0
    ensures ValidIndex(|s|, ns + |r|)
    ensures AfterReset(s, ns, r + [At(s, ns + |r|)], a + [At(s, ns + |r|)], b + [At(s, ns + |r|)])
  {
    FitsInside(|s|, ns + 1, 2, |b|);
    PadBasesSnoc(s, ns + 1, |b|);
  }

  /** The state of get_codon's first loop: growing from the prefix, or restarted from "?". */
  ghost predicate PadState(s: string, ns: int, from: int, pad: nat, r0: string, a0: string,
                           r: string, a: string, reset: bool, b: string)
  {
    (!reset ==> Growing(s, from, pad, r0, a0, r, a, b)) &&
    (reset ==> !Fits(|s|, from, pad) && AfterReset(s, ns, r, a, b))
  }

  /** The first loop's variant: a restart happens at most once, and each appended base brings the
      fragment closer to whole codons. */
  function PadMeasure(reset: bool, n: nat): (r: nat)
  {
    (if reset then 0 else 3) + PadLen(n)
  }

  /** One turn of get_codon's first loop keeps its state and lowers its variant, whether the next
      base exists or the loop restarts. */
  lemma PadStep(s: string, ns: int, from: int, pad: nat, r0: string, a0: string,
                r: string, a: string, reset: bool, b: string)
    requires PadState(s, ns, from, pad, r0, a0, r, a, reset, b)
    requires from == ns + |r0| && (|r0| + pad) % 3 == 0 && |r| % 3 > 0
    requires !Fits(|s|, from, pad) ==> Fits(|s|, ns + 1, 2)
    ensures ValidIndex(|s|, ns + |r|) ==>
      PadState(s, ns, from, pad, r0, a0, r + [At(s, ns + |r|)], a + [At(s, ns + |r|)], reset, b + [At(s, ns + |r|)]) &&
      PadMeasure(reset, |r + [At(s, ns + |r|)]|) < PadMeasure(reset, |r|)
    ensures !ValidIndex(|s|, ns + |r|) ==>
      PadState(s, ns, from, pad, r0, a0, "?", "?", true, []) && PadMeasure(true, |"?"|) < PadMeasure(reset, |r|)
  {
    PadLenStep(|r|);
    if reset {
      AfterResetStep(s, ns, r, a, b);
    } else {
      GrowingStep(s, from, pad, r0, a0, r, a, b);
    }
  }

  /** When get_codon's first loop ends, the second loop has to cut back what CodonSpec cuts back. */
  lemma PaddingExit(refDna: string, altDna: string, s: string, codonIndex: int, start: int,
                    r0: string, a0: string, from: int, pad: nat, reset: bool, b: string, r: string, a: string)
    requires r0 == Slice(s, start - codonIndex, start) + refDna && a0 == Slice(s, start - codonIndex, start) + altDna
    requires from == start - codonIndex + |r0| && pad == PadLen(|r0|) && |r| % 3 == 0
    requires PadState(s, start - codonIndex, from, pad, r0, a0, r, a, reset, b)
    ensures CodonSpec(refDna, altDna, s, codonIndex, start) == Done(Shrink(r, a))
  {
    if reset {
      assert r[0] == '?';
      assert Shrink(r, a) == ("", "");
    } else {
      PadLenUnique(|r0|, |b|);
    }
  }

  /** get_codon; it is run only on inputs on which it terminates. Its first loop is PadCodons. */
  method GetCodon(refDna: string, altDna: string, s: string, codonIndex: int, start: int)
    returns (r: string, a: string)
    requires CodonTerminates(refDna, s, codonIndex, start)
    ensures CodonSpec(refDna, altDna, s, codonIndex, start) == Done((r, a))
  {
    r, a := PadCodons(refDna, altDna, s, codonIndex, start);
    ghost var r1, a1 := r, a;
    while '?' in r || |r| % 3 > 0
      invariant ShrinkState(r1, a1, r, a)
      decreases |r|
    {
      ShrinkStateStep(r1, a1, r, a);
      r := Take(r, -1);
      a := Take(a, -1);
    }
    ShrinkStateExit(r1, a1, r, a);
  }

  /** The first part of get_codon: the prefix is added and bases are appended up to whole codons,
      restarting from "?" when an index is out of range. The second loop then cuts back what
      Shrink cuts back. */
  method PadCodons(refDna: string, altDna: string, s: string, codonIndex: int, start: int)
    returns (r: string, a: string)
    requires CodonTerminates(refDna, s, codonIndex, start)
    ensures |r| % 3 == 0 && CodonSpec(refDna, altDna, s, codonIndex, start) == Done(Shrink(r, a))
  {
    var newStart := start - codonIndex;
    r := Slice(s, newStart, start) + refDna;
    a := Slice(s, newStart, start) + altDna;
    ghost var r0, a0 := r, a;
    ghost var pad, from := PadLen(|r0|), newStart + |r0|;
    ghost var reset, b;
    r, a, reset, b := PadLoop(s, newStart, from, pad, r0, a0, r, a);
    PaddingExit(refDna, altDna, s, codonIndex, start, r0, a0, from, pad, reset, b, r, a);
  }

  /** get_codon's first loop: it ends with whole codons, grown from the prefixed alleles or restarted from "?". */
  method PadLoop(s: string, newStart: int, ghost from: int, ghost pad: nat, ghost r0: string, ghost a0: string,
                 r1: string, a1: string) returns (r: string, a: string, ghost reset: bool, ghost b: string)
    requires r1 == r0 && a1 == a0 && from == newStart + |r0| && pad == PadLen(|r0|)
    requires !Fits(|s|, from, pad) ==> Fits(|s|, newStart + 1, 2)
    ensures |r| % 3 == 0 && PadState(s, newStart, from, pad, r0, a0, r, a, reset, b)
  {
    r, a := r1, a1;
    reset, b := false, [];
    while |r| % 3 > 0
      invariant PadState(s, newStart, from, pad, r0, a0, r, a, reset, b)
      decreases PadMeasure(reset, |r|)
    {
      PadStep(s, newStart, from, pad, r0, a0, r, a, reset, b);
      if ValidIndex(|s|, newStart + |r|) {
        var newBase := At(s, newStart + |r|);
        a := a + [newBase];
        r := r + [newBase];
        b := b + [newBase];
      } else {
        r := "?";
        a := "?";
        reset, b := true, [];
      }
    }
  }

  /** Alleles of equal length give codon fragments of equal length, made of whole codons. */
  lemma CodonSpecBalanced(refDna: string, altDna: string, s: string, codonIndex: int, start: int)
    requires |refDna| == |altDna|
    requires CodonSpec(refDna, altDna, s, codonIndex, start).Done?
    ensures |CodonSpec(refDna, altDna, s, codonIndex, start).value.0| % 3 == 0
    ensures |CodonSpec(refDna, altDna, s, codonIndex, start).value.1| == |CodonSpec(refDna, altDna, s, codonIndex, start).value.0|
  {
    var ns := start - codonIndex;
    var p := Slice(s, ns, start);
    var r0 := p + refDna;
    var pad := PadLen(|r0|);
    var c := CodonSpec(refDna, altDna, s, codonIndex, start).value;
    if Fits(|s|, ns + |r0|, pad) {
      var b := PadBases(s, ns + |r0|, pad);
      ShrinkBalanced(r0 + b, p + altDna + b);
      assert c == Shrink(r0 + b, p + altDna + b);
    } else {
      assert c == ("", "");
    }
  }

  lemma ShrinkBalanced(r: string, a: string)
    requires |r| == |a|
    ensures |Shrink(r, a).0| % 3 == 0 && |Shrink(r, a).1| == |Shrink(r, a).0|
  {
    var k := (QIndex(r) / 3) * 3;
    assert k % 3 == 0;
  }

  lemma {:induction false} PadBasesSlice(s: string, from: int, count: nat)
    requires 0 <= from && from + count <= |s|
    ensures Fits(|s|, from, count) && PadBases(s, from, count) == s[from..from + count]
  {
    if count > 0 {
      PadBasesSlice(s, from, count - 1);
      assert s[from..from + count] == s[from..from + count - 1] + [s[from + count - 1]];
    }
  }

  lemma {:induction false} QIndexNone(r: string)
    requires forall i :: 0 <= i < |r| ==> r[i] != '?'
    ensures QIndex(r) == |r|
  {
    if |r| > 0 {
      QIndexNone(r[1..]);
    }
  }

  /** Without a '?' and with whole codons the cut-back leaves both strings alone. */
  lemma ShrinkWhole(r: string, a: string)
    requires |r| % 3 == 0 && forall i :: 0 <= i < |r| ==> r[i] != '?'
    ensures Shrink(r, a) == (r, a)
  {
    QIndexNone(r);
    assert (|r| / 3) * 3 == |r|;
    assert r[..|r|] == r && a[..|a|] == a;
  }

  /** When the whole codons are available and the reference holds no '?', get_codon extends both
      alleles by the same codon-aligning prefix and padding taken from the reference. */
  /** The reference with its prefix and padding from a '?'-free sequence has no '?'. */
  lemma ExtendedFree(s: string, ns: nat, start: nat, refDna: string, pad: nat)
    requires ns <= start && start + |refDna| + pad <= |s|
    requires forall i :: 0 <= i < |s| ==> s[i] != '?'
    requires forall i :: 0 <= i < |refDna| ==> refDna[i] != '?'
    ensures var r := s[ns..start] + refDna + s[start + |refDna|..start + |refDna| + pad];
      forall i :: 0 <= i < |r| ==> r[i] != '?'
  {
    var p := s[ns..start];
    var e := start + |refDna|;
    var r := p + refDna + s[e..e + pad];
    forall i | 0 <= i < |r|
      ensures r[i] != '?'
    {
      if i < |p| {
        assert r[i] == s[ns + i];
      } else if i < |p| + |refDna| {
        assert r[i] == refDna[i - |p|];
      } else {
        assert r[i] == s[e + i - |p| - |refDna|];
      }
    }
  }

  lemma CodonSpecExtends(refDna: string, altDna: string, s: string, codonIndex: int, start: int)
    requires 0 <= codonIndex <= start
    requires start + |refDna| + PadLen(codonIndex + |refDna|) <= |s|
    requires forall i :: 0 <= i < |s| ==> s[i] != '?'
    requires forall i :: 0 <= i < |refDna| ==> refDna[i] != '?'
    ensures var ns := start - codonIndex;
      var pad := PadLen(codonIndex + |refDna|);
      CodonSpec(refDna, altDna, s, codonIndex, start) ==
        Done((s[ns..start] + refDna + s[start + |refDna|..start + |refDna| + pad],
              s[ns..start] + altDna + s[start + |refDna|..start + |refDna| + pad]))
  {
    var ns := start - codonIndex;
    var p := Slice(s, ns, start);
    assert p == s[ns..start];
    var r0 := p + refDna;
    var pad := PadLen(|r0|);
    var from := ns + |r0|;
    assert from == start + |refDna|;
    PadBasesSlice(s, from, pad);
    var b := PadBases(s, from, pad);
    var r := r0 + b;
    assert CodonSpec(refDna, altDna, s, codonIndex, start) == Done(Shrink(r, p + altDna + b));
    ExtendedFree(s, ns, start, refDna, pad);
    ShrinkWhole(r, p + altDna + b);
  }

  // ------------------------------------------------------------------
  // get_affected_amino_acid

  /** refAA, altAA, refDNA, altDNA and the 0-based amino-acid position (-1 when nothing is coding). */
  datatype AffectedAa = AffectedAa(refAa: string, altAa: string, refDna: string, altDna: string, aaPos: int)

  const NoCodingChange: AffectedAa := AffectedAa("", "", "", "", -1)

  /** Codons and amino acids of a span starting at newStart (an offset into the target sequence). */
  function CodingCodons(ref: Option<string>, alt: Option<string>, s: string, newStart: int,
                        unc: nat, usc: nat, usLen: nat, strand: Strand): Outcome<AffectedAa>
  {
    if ref.None? || alt.None? then Raises("TypeError")
    else
      var codonIndex := (newStart - unc - usc) % 3;
      var codons :- CodonSpec(ref.value, alt.value, s, codonIndex, newStart);
      var aaPos := if strand == F then (newStart - unc - usc) / 3 else (usLen - newStart - 1) / 3;
      Done(AffectedAa(TranslateStrand(codons.0, strand), TranslateStrand(codons.1, strand), codons.0, codons.1, aaPos))
  }

  lemma CodingCodonsDone(ref: string, alt: string, s: string, newStart: int, unc: nat, usc: nat, usLen: nat,
                         strand: Strand, ci: int, rd: string, ad: string)
    requires ci == (newStart - unc - usc) % 3 && CodonSpec(ref, alt, s, ci, newStart) == Done((rd, ad))
    ensures CodingCodons(Some(ref), Some(alt), s, newStart, unc, usc, usLen, strand) ==
      Done(AffectedAa(TranslateStrand(rd, strand), TranslateStrand(ad, strand), rd, ad,
                      if strand == F then (newStart - unc - usc) / 3 else (usLen - newStart - 1) / 3))
  {
  }

  /** What get_affected_amino_acid does with a span, by where it lies against the zones: nothing is
      coding, the alleles are kept, or `cut` bases past the coding zone are cut from their end. */
  datatype SpanCut = NoCoding | Keep | CutEnd

  /** The span is not coding exactly when it ends before the first full codon, starts past the coding
      zone, or starts in the upstream non-coding zone without running past the coding zone; the
      alleles are kept whole exactly when the span starts and ends inside the coding zone. */
  function SpanCutOf(start: int, stop: int, unc: nat, usc: nat, seqLen: nat): (c: SpanCut)
    ensures c.NoCoding? <==>
      stop < unc + usc || start >= unc + usc + seqLen || (start < unc && stop < unc + usc + seqLen)
    ensures c.Keep? <==>
      unc + usc <= stop && unc + usc <= start < unc + usc + seqLen && stop <= unc + usc + seqLen
  {
    var usLen := unc + usc + seqLen;
    if stop < unc + usc then NoCoding
    else if start >= unc + usc + seqLen then NoCoding
    else if start > usLen then
      // dna_functions.py:161-167, the branch for a span starting past the coding zone, which the
      // test just above already sends to NoCoding
      assert false; NoCoding
    else if start >= unc + usc && stop <= unc + usc + seqLen then Keep
    else if start < unc && stop < usLen then NoCoding
    else CutEnd
  }

  /** `allele[:-cut]`; slicing None raises TypeError just as the codon step does with None. */
  function CutOff(allele: Option<string>, cut: int): (r: Option<string>)
  {
    if allele.None? then None else Some(Take(allele.value, -cut))
  }

  /** The alleles passed on to the codon step, None when nothing is coding. */
  function CodingAlleles(pra: Contig, unc: nat, usc: nat, seqLen: nat): (r: Option<(Option<string>, Option<string>)>)
  {
    var usLen := unc + usc + seqLen;
    match SpanCutOf(pra.start, pra.stop, unc, usc, seqLen)
    case NoCoding => None
    case Keep => Some((pra.ref, pra.alt))
    case CutEnd => Some((CutOff(pra.ref, pra.stop - usLen), CutOff(pra.alt, pra.stop - usLen)))
  }

  /** get_affected_amino_acid: no coding change for spans wholly outside the coding zone or reaching
      into it from the upstream non-coding zone; otherwise the span's codons, with any part that runs
      past the coding zone cut from the end of both alleles. */
  function AffectedAminoAcid(pra: Contig, s: string, other: OtherSeqs, strand: Strand): (out: Outcome<AffectedAa>)
  {
    var unc := |other.upstreamNoncodingSeq|;
    var usc := |other.cdsUpSeq|;
    var seqLen := |other.referenceSeqFstrand|;
    var usLen := unc + usc + seqLen;
    match CodingAlleles(pra, unc, usc, seqLen)
    case None => Done(NoCodingChange)
    case Some(alleles) => CodingCodons(alleles.0, alleles.1, s, pra.start, unc, usc, usLen, strand)
  }

  /** The three cases in which no amino acid is affected. */
  lemma AffectedNoCoding(pra: Contig, s: string, other: OtherSeqs, strand: Strand)
    ensures var unc, usc := |other.upstreamNoncodingSeq|, |other.cdsUpSeq|;
      var usLen := unc + usc + |other.referenceSeqFstrand|;
      (pra.stop < unc + usc || pra.start >= usLen || (pra.start < unc && pra.stop < usLen)) ==>
        AffectedAminoAcid(pra, s, other, strand) == Done(NoCodingChange)
  {
  }

  /** Whenever amino acids are reported, the position counts codons from the first full codon
      (forward strand) or back from the end of the coding zone (reverse strand), and the reference
      and alternative translations are those of their codons. */
  lemma AffectedCoding(pra: Contig, s: string, other: OtherSeqs, strand: Strand)
    requires AffectedAminoAcid(pra, s, other, strand).Done?
    requires AffectedAminoAcid(pra, s, other, strand).value != NoCodingChange
    ensures var x := AffectedAminoAcid(pra, s, other, strand).value;
      var unc, usc := |other.upstreamNoncodingSeq|, |other.cdsUpSeq|;
      var usLen := unc + usc + |other.referenceSeqFstrand|;
      unc + usc <= pra.stop && pra.start < usLen &&
      (strand == F ==> 3 * x.aaPos <= pra.start - unc - usc < 3 * x.aaPos + 3) &&
      (strand == R ==> 3 * x.aaPos <= usLen - pra.start - 1 < 3 * x.aaPos + 3) &&
      x.refAa == TranslateStrand(x.refDna, strand) && x.altAa == TranslateStrand(x.altDna, strand)
  {
  }

  /** Alleles that are the reference at their place yield the reference from the codon boundary
      codonIndex bases before them on, in whole codons covering them. */
  lemma CodonsFromBoundary(ref: string, alt: string, s: string, codonIndex: nat, ns: nat, start: int)
      returns (rd: string, ad: string)
    requires codonIndex < 3 && ns == start - codonIndex && |ref| == |alt| && start + |ref| + 2 <= |s|
    requires forall i :: 0 <= i < |ref| ==> ref[i] == s[start + i]
    requires forall i :: 0 <= i < |s| ==> s[i] != '?'
    ensures CodonSpec(ref, alt, s, codonIndex, start) == Done((rd, ad))
    ensures |rd| % 3 == 0 && |ad| == |rd| && start + |ref| <= ns + |rd| <= |s|
    ensures forall i :: 0 <= i < |rd| ==> rd[i] == s[ns + i]
  {
    var e := start + |ref|;
    assert ref == s[start..e];
    SliceFree(s, start, e);
    var pad := PadLen(codonIndex + |ref|);
    CodonSpecExtends(ref, alt, s, codonIndex, start);
    var l := e + pad;
    SliceAround(s, ns, start, e, l, ref);
    rd := s[ns..l];
    ad := s[ns..start] + alt + s[e..l];
    SliceIndices(s, ns, l, rd);
  }

  lemma SliceAround(s: string, i: nat, j: nat, k: nat, l: nat, mid: string)
    requires i <= j <= k <= l <= |s| && mid == s[j..k]
    ensures s[i..j] + mid + s[k..l] == s[i..l]
  {
    assert s[i..j] + s[j..k] == s[i..k];
  }

  lemma SliceIndices(s: string, i: nat, j: nat, r: string)
    requires i <= j <= |s| && r == s[i..j]
    ensures forall k :: 0 <= k < |r| ==> r[k] == s[i + k]
  {
  }

  /** A piece of a string without '?' has none either. */
  lemma SliceFree(s: string, i: nat, j: nat)
    requires i <= j <= |s| && forall k :: 0 <= k < |s| ==> s[k] != '?'
    ensures forall k :: 0 <= k < j - i ==> s[i..j][k] != '?'
  {
    forall k | 0 <= k < j - i
      ensures s[i..j][k] != '?'
    {
      assert s[i..j][k] == s[i + k];
    }
  }

  /** A span inside the coding zone, whose reference allele is the reference at that place, is
      mapped to the reference codons rd from the codon boundary at or before its start, in whole
      codons covering the span, with their translation on the strand and the codon's 0-based
      position: counted from the first full codon on strand F, back from the end on strand R. */
  lemma AffectedCodingSpan(pra: Contig, s: string, other: OtherSeqs, strand: Strand) returns (ns: int, rd: string, ad: string)
    requires var unc, usc := |other.upstreamNoncodingSeq|, |other.cdsUpSeq|;
      unc + usc <= pra.start <= pra.stop && pra.stop < unc + usc + |other.referenceSeqFstrand|
    requires pra.ref.Some? && pra.alt.Some? && |pra.ref.value| == |pra.alt.value| == pra.stop - pra.start + 1
    requires 0 <= pra.start && pra.stop + 3 <= |s|
    requires forall i :: 0 <= i < |pra.ref.value| ==> pra.ref.value[i] == s[pra.start + i]
    requires forall i :: 0 <= i < |s| ==> s[i] != '?'
    ensures pra.start - 3 < ns <= pra.start && (ns - |other.upstreamNoncodingSeq| - |other.cdsUpSeq|) % 3 == 0
    ensures |rd| % 3 == 0 && |ad| == |rd|
    ensures 0 <= ns && pra.stop < ns + |rd| <= |s|
    ensures forall i :: 0 <= i < |rd| ==> rd[i] == s[ns + i]
    ensures var unc, usc := |other.upstreamNoncodingSeq|, |other.cdsUpSeq|;
      var usLen := unc + usc + |other.referenceSeqFstrand|;
      AffectedAminoAcid(pra, s, other, strand) ==
        Done(AffectedAa(TranslateStrand(rd, strand), TranslateStrand(ad, strand), rd, ad,
                        if strand == F then (pra.start - unc - usc) / 3 else (usLen - pra.start - 1) / 3))
  {
    var unc, usc := |other.upstreamNoncodingSeq|, |other.cdsUpSeq|;
    var ci := (pra.start - unc - usc) % 3;
    ns := pra.start - ci;
    CodonBoundary(pra.start, unc, usc, ns);
    assert (ns - |other.upstreamNoncodingSeq| - |other.cdsUpSeq|) % 3 == 0;
    rd, ad := CodonsFromBoundary(pra.ref.value, pra.alt.value, s, ci, ns, pra.start);
    KeepCodons(pra, s, other, strand, ci, rd, ad);
  }

  /** Stepping back (x - u - c) % 3 from x lands on the codon boundary at or before x, counted from u + c. */
  lemma CodonBoundary(x: int, u: int, c: int, ns: int)
    requires ns == x - (x - u - c) % 3
    ensures x - 3 < ns <= x && (ns - u - c) % 3 == 0
  {
    assert ns - u - c == 3 * ((x - u - c) / 3);
  }

  /** In the Keep case the result is that of the codons of the alleles as given, translated on the
      strand, at the strand's codon position. */
  lemma KeepCodons(pra: Contig, s: string, other: OtherSeqs, strand: Strand, ci: int, rd: string, ad: string)
    requires var unc, usc := |other.upstreamNoncodingSeq|, |other.cdsUpSeq|;
      SpanCutOf(pra.start, pra.stop, unc, usc, |other.referenceSeqFstrand|).Keep?
    requires pra.ref.Some? && pra.alt.Some?
    requires ci == (pra.start - |other.upstreamNoncodingSeq| - |other.cdsUpSeq|) % 3
    requires CodonSpec(pra.ref.value, pra.alt.value, s, ci, pra.start) == Done((rd, ad))
    ensures var unc, usc := |other.upstreamNoncodingSeq|, |other.cdsUpSeq|;
      var usLen := unc + usc + |other.referenceSeqFstrand|;
      AffectedAminoAcid(pra, s, other, strand) ==
        Done(AffectedAa(TranslateStrand(rd, strand), TranslateStrand(ad, strand), rd, ad,
                        if strand == F then (pra.start - unc - usc) / 3 else (usLen - pra.start - 1) / 3))
  {
    var unc, usc := |other.upstreamNoncodingSeq|, |other.cdsUpSeq|;
    var usLen := unc + usc + |other.referenceSeqFstrand|;
    AffectedKeep(pra, s, other, strand);
    CodingCodonsDone(pra.ref.value, pra.alt.value, s, pra.start, unc, usc, usLen, strand, ci, rd, ad);
  }

  /** In the Keep case the codon step gets the alleles as given. */
  lemma AffectedKeep(pra: Contig, s: string, other: OtherSeqs, strand: Strand)
    requires var unc, usc := |other.upstreamNoncodingSeq|, |other.cdsUpSeq|;
      SpanCutOf(pra.start, pra.stop, unc, usc, |other.referenceSeqFstrand|).Keep?
    requires pra.ref.Some? && pra.alt.Some?
    ensures var unc, usc := |other.upstreamNoncodingSeq|, |other.cdsUpSeq|;
      AffectedAminoAcid(pra, s, other, strand) ==
        CodingCodons(Some(pra.ref.value), Some(pra.alt.value), s, pra.start, unc, usc, unc + usc + |other.referenceSeqFstrand|, strand)
  {
    KeepAlleles(pra, |other.upstreamNoncodingSeq|, |other.cdsUpSeq|, |other.referenceSeqFstrand|);
  }

  lemma KeepAlleles(pra: Contig, unc: nat, usc: nat, seqLen: nat)
    requires SpanCutOf(pra.start, pra.stop, unc, usc, seqLen).Keep? && pra.ref.Some? && pra.alt.Some?
    ensures CodingAlleles(pra, unc, usc, seqLen) == Some((Some(pra.ref.value), Some(pra.alt.value)))
  {
  }

  /** Where something is coding, the result is that of the codon step on the alleles passed on. */
  lemma AffectedAlleles(pra: Contig, s: string, other: OtherSeqs, strand: Strand)
    requires CodingAlleles(pra, |other.upstreamNoncodingSeq|, |other.cdsUpSeq|, |other.referenceSeqFstrand|).Some?
    ensures var unc, usc, seqLen := |other.upstreamNoncodingSeq|, |other.cdsUpSeq|, |other.referenceSeqFstrand|;
      var alleles := CodingAlleles(pra, unc, usc, seqLen).value;
      AffectedAminoAcid(pra, s, other, strand) == CodingCodons(alleles.0, alleles.1, s, pra.start, unc, usc, unc + usc + seqLen, strand)
  {
    var alleles := CodingAlleles(pra, |other.upstreamNoncodingSeq|, |other.cdsUpSeq|, |other.referenceSeqFstrand|).value;
    assert CodingAlleles(pra, |other.upstreamNoncodingSeq|, |other.cdsUpSeq|, |other.referenceSeqFstrand|) == Some(alleles);
  }

  // ------------------------------------------------------------------
  // position_wrapper

  datatype PositionResult = PositionResult(
    posRefAlt: Contig, refAa: string, altAa: string, cons: bool, aaPos: int, refDna: string, altDna: string)

  /** position_wrapper: the unexpected changes of the read against the target, whether they are
      consecutive, their span and the amino acids it affects. */
  function PositionWrapper(read: string, target: Target, other: OtherSeqs, strand: Strand): (r: Outcome<PositionResult>)
  {
    var mmc := RemoveExpected(DnaChanges(target.bases, read), target.mmc, 0);
    var cons := Consecutive(mmc, 2);
    var pra := TrimContig(mmc, target.bases, read);
    var x :- AffectedAminoAcid(pra, target.bases, other, strand);
    Done(PositionResult(pra, x.refAa, x.altAa, cons, x.aaPos, x.refDna, x.altDna))
  }

  /** The span reported by position_wrapper runs from the first to the last unexpected change, which
      are at most two bases apart exactly when `cons` holds; reference and alternative amino-acid
      strings have the same length whenever the span is reported with equal-length alleles. */
  lemma PositionWrapperSpan(read: string, target: Target, other: OtherSeqs, strand: Strand)
    requires PositionWrapper(read, target, other, strand).Done?
    ensures var x := PositionWrapper(read, target, other, strand).value;
      var mmc := RemoveExpected(DnaChanges(target.bases, read), target.mmc, 0);
      (x.cons <==> |mmc| < 2 || mmc[|mmc| - 1].pos - mmc[0].pos <= 2) &&
      (|mmc| == 0 ==> x.posRefAlt == Contig(0, 0, None, None)) &&
      (|mmc| > 0 ==>
         x.posRefAlt.start == mmc[0].pos && x.posRefAlt.stop == mmc[|mmc| - 1].pos &&
         |x.posRefAlt.ref.value| == |x.posRefAlt.alt.value| == x.posRefAlt.stop - x.posRefAlt.start + 1 &&
         |x.refAa| == |x.altAa|)
  {
    var mmc := RemoveExpected(DnaChanges(target.bases, read), target.mmc, 0);
    PositionWrapperParts(read, target, other, strand);
    ConsecutiveSpan(mmc, 2);
    if |mmc| > 0 {
      var x := PositionWrapper(read, target, other, strand).value;
      var _ := UnexpectedChanges(read, target);
      var _ := TrimContigOfChanges(mmc, target.bases, read);
      AffectedBalanced(x.posRefAlt, target.bases, other, strand);
    }
  }

  /** What position_wrapper reports: the span and consecutiveness of the unexpected changes and the
      amino acids that span affects. */
  lemma PositionWrapperParts(read: string, target: Target, other: OtherSeqs, strand: Strand)
    requires PositionWrapper(read, target, other, strand).Done?
    ensures var x := PositionWrapper(read, target, other, strand).value;
      var mmc := RemoveExpected(DnaChanges(target.bases, read), target.mmc, 0);
      x.cons == Consecutive(mmc, 2) && x.posRefAlt == TrimContig(mmc, target.bases, read) &&
      AffectedAminoAcid(x.posRefAlt, target.bases, other, strand) ==
        Done(AffectedAa(x.refAa, x.altAa, x.refDna, x.altDna, x.aaPos))
  {
  }

  /** The unexpected changes of a read are ascending and each reports the upper-cased bases of the
      target and the read at its position. */
  lemma UnexpectedChanges(read: string, target: Target)
    returns (mmc: seq<Change>)
    ensures mmc == RemoveExpected(DnaChanges(target.bases, read), target.mmc, 0)
    ensures forall i, j :: 0 <= i < j < |mmc| ==> mmc[i].pos < mmc[j].pos
    ensures forall i :: 0 <= i < |mmc| ==>
      0 <= mmc[i].pos < |target.bases| && mmc[i].pos < |read| &&
      mmc[i].ref == Upper(target.bases[mmc[i].pos]) && mmc[i].alt == Upper(read[mmc[i].pos])
  {
    var all := DnaChanges(target.bases, read);
    mmc := RemoveExpected(all, target.mmc, 0);
    DnaChangesSpec(target.bases, read);
    DiffIndicesAscending(UpperStr(target.bases), UpperStr(read), Min(|target.bases|, |read|), 0);
    forall i, j | 0 <= i < j < |all|
      ensures all[i].pos < all[j].pos
    {
      assert Positions(all)[i] == all[i].pos && Positions(all)[j] == all[j].pos;
    }
    RemoveExpectedOrdered(all, target.mmc, 0);
    forall i | 0 <= i < |mmc|
      ensures mmc[i] in all
    {
      RemoveExpectedMember(all, target.mmc, 0, mmc[i]);
    }
  }

  lemma CodingCodonsBalanced(ref: string, alt: string, s: string, newStart: int, unc: nat, usc: nat, usLen: nat, strand: Strand)
    requires |ref| == |alt|
    requires CodingCodons(Some(ref), Some(alt), s, newStart, unc, usc, usLen, strand).Done?
    ensures var x := CodingCodons(Some(ref), Some(alt), s, newStart, unc, usc, usLen, strand).value;
      |x.refAa| == |x.altAa| && |x.refDna| == |x.altDna|
  {
    var ci := (newStart - unc - usc) % 3;
    CodonSpecBalanced(ref, alt, s, ci, newStart);
    var codons := CodonSpec(ref, alt, s, ci, newStart).value;
    CodingCodonsDone(ref, alt, s, newStart, unc, usc, usLen, strand, ci, codons.0, codons.1);
  }

  /** Equal-length alleles give equal-length amino-acid strings. */
  lemma AffectedBalanced(pra: Contig, s: string, other: OtherSeqs, strand: Strand)
    requires pra.ref.Some? && pra.alt.Some? && |pra.ref.value| == |pra.alt.value|
    requires AffectedAminoAcid(pra, s, other, strand).Done?
    ensures var x := AffectedAminoAcid(pra, s, other, strand).value; |x.refAa| == |x.altAa| && |x.refDna| == |x.altDna|
  {
    var unc, usc := |other.upstreamNoncodingSeq|, |other.cdsUpSeq|;
    var usLen := unc + usc + |other.referenceSeqFstrand|;
    var alleles := CodingAlleles(pra, unc, usc, |other.referenceSeqFstrand|);
    if alleles.Some? {
      AffectedAlleles(pra, s, other, strand);
      var ref, alt := alleles.value.0, alleles.value.1;
      assert ref.Some? && alt.Some? && |ref.value| == |alt.value|;
      CodingCodonsBalanced(ref.value, alt.value, s, pra.start, unc, usc, usLen, strand);
    }
  }

}
