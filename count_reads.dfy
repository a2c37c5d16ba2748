/**
 * The per-read engine: the five reference zones of the target, the check
 * that the required edits are present, and the ordered decision procedure
 * that gives every read one event type, plus the per-position tallies a
 * CountReads object keeps.
 */
module CountReads {
  import opened PySemantics
  import opened GeneticCode
  import opened TargetDict
  import opened DnaFunctions

  // ------------------------------------------------------------------
  // Reference zones (get_aa)

  /** The amino-acid reference, the upper-cased coding bases and the five zones. */
  datatype AaReference = AaReference(referenceAa: string, referenceDna: string, other: OtherSeqs)

  /** How get_aa cuts the target sequence for a read starting at readStart: the coding slice runs
      from `from` to `to` (both inclusive, relative to the read start), the upstream partial codon
      is the last codonDistanceUp bases before it, the downstream partial codon starts at the last
      coding base and the downstream non-coding part one base after the partial codon's end. */
  function Zones(target: Target, readStart: int): (r: OtherSeqs)
  {
    var start := target.from - readStart;
    var stop := target.to - readStart;
    var reference := target.bases;
    var upstreamSeq := Take(reference, start);
    OtherSeqs(
      Drop(reference, stop + target.codonDistanceDown + 1),
      Slice(reference, stop, stop + target.codonDistanceDown),
      Slice(reference, start, stop + 1),
      Drop(upstreamSeq, |upstreamSeq| - target.codonDistanceUp),
      Take(upstreamSeq, |upstreamSeq| - target.codonDistanceUp))
  }

  /** get_aa: the zones, and the translation of the coding slice on the target's strand; raises
      when the coding slice is not whole codons. */
  function GetAa(target: Target, readStart: int): (r: Outcome<AaReference>)
    ensures !r.Hangs?
    ensures r.Raises? <==> |Zones(target, readStart).referenceSeqFstrand| % 3 != 0
    ensures r.Done? ==> r.value.other == Zones(target, readStart)
    ensures r.Done? ==> |r.value.referenceAa| * 3 == |r.value.other.referenceSeqFstrand|
    ensures r.Done? ==> r.value.referenceAa == TranslateStrand(r.value.other.referenceSeqFstrand, target.strand)
  {
    var other := Zones(target, readStart);
    var reference := other.referenceSeqFstrand;
    if |reference| % 3 != 0 then Raises("reference is not divisible by 3")
    else Done(AaReference(TranslateStrand(reference, target.strand), UpperStr(reference), other))
  }

  /** The upstream non-coding zone followed by the upstream partial codon is exactly the reference
      before the coding start; the partial codon is its last codonDistanceUp bases whenever there are
      that many. */
  lemma ZonesUpstream(target: Target, readStart: int)
    ensures var z := Zones(target, readStart);
      var before := Take(target.bases, target.from - readStart);
      z.upstreamNoncodingSeq + z.cdsUpSeq == before &&
      (0 <= target.codonDistanceUp <= |before| ==>
         |z.cdsUpSeq| == target.codonDistanceUp && z.cdsUpSeq == before[|before| - target.codonDistanceUp..])
  {
    var before := Take(target.bases, target.from - readStart);
    TakeDrop(before, |before| - target.codonDistanceUp);
  }

  /** Downstream of the coding slice, with the offsets in range: the partial codon starts at the last
      coding base `to` itself, and the non-coding zone starts one base after the partial codon ends. */
  lemma ZonesDownstream(target: Target, readStart: int)
    requires var stop := target.to - readStart;
      0 <= stop && 0 <= target.codonDistanceDown && stop + target.codonDistanceDown + 1 <= |target.bases|
    ensures var z := Zones(target, readStart);
      var stop := target.to - readStart;
      var d := target.codonDistanceDown;
      z.cdsDownSeq == target.bases[stop..stop + d] && z.downstreamNoncodingSeq == target.bases[stop + d + 1..]
  {
  }

  /** When the offsets are in range the five zone lengths still add up to the target length, but
      with a downstream partial codon the last coding base appears twice (as the first base of the
      partial codon) and the base just after the partial codon appears in no zone. */
  lemma ZonesOverlap(target: Target, readStart: int)
    requires var start, stop := target.from - readStart, target.to - readStart;
      0 <= target.codonDistanceUp <= start <= stop && 0 <= target.codonDistanceDown &&
      stop + target.codonDistanceDown < |target.bases|
    ensures var z := Zones(target, readStart);
      var stop := target.to - readStart;
      |z.upstreamNoncodingSeq| + |z.cdsUpSeq| + |z.referenceSeqFstrand| + |z.cdsDownSeq| + |z.downstreamNoncodingSeq| ==
        |target.bases| &&
      (target.codonDistanceDown > 0 ==>
         z.cdsDownSeq[0] == z.referenceSeqFstrand[|z.referenceSeqFstrand| - 1] &&
         z.downstreamNoncodingSeq == target.bases[stop + target.codonDistanceDown + 1..])
  {
    ZonesUpstream(target, readStart);
    ZonesDownstream(target, readStart);
  }

  // ------------------------------------------------------------------
  // Small checks on one read

  /** validateSAMLine: the line is on the target's chromosome and has at least ten fields
      (reading the third field of a shorter line raises IndexError). */
  function ValidateSamLine(read: seq<string>, target: Target): (r: Outcome<bool>)
    ensures r.Done? <==> |read| >= 3
    ensures r == Done(true) <==> |read| >= 10 && read[2] == target.chrom
  {
    if |read| < 3 then Raises("IndexError")
    else Done(read[2] == target.chrom && |read| >= 10)
  }

  /** is_correct_base: the base is the one the indicator requires. */
  function IsCorrectBase(indicator: Indicator, seqBase: string): (r: bool)
    ensures r <==> |seqBase| == |indicator.requiredAlt| &&
                   forall i :: 0 <= i < |seqBase| ==> seqBase[i] == indicator.requiredAlt[i]
  {
    indicator.requiredAlt == seqBase
  }

  /** trim_to_target: the read bases between the coding start and the coding end (inclusive);
      reading the sequence field of a line with fewer than ten fields raises IndexError. */
  function TrimToTarget(read: seq<string>, target: Target, readStart: int): (r: Outcome<string>)
    ensures r.Done? <==> |read| >= 10
  {
    if |read| < 10 then Raises("IndexError")
    else
      var upstreamTrim := target.from - readStart;
      var downstreamTrim := target.to - readStart + 1;
      var tmpRead := read[9];
      if upstreamTrim == 0 then Done(Take(tmpRead, downstreamTrim))
      else Done(Slice(tmpRead, upstreamTrim, downstreamTrim))
  }

  /** Both branches of trim_to_target are the one slice; with the bounds inside the read it is the
      read's bases from `from` to `to`. */
  lemma TrimToTargetSlice(read: seq<string>, target: Target, readStart: int)
    requires |read| >= 10
    ensures var lo, hi := target.from - readStart, target.to - readStart + 1;
      TrimToTarget(read, target, readStart) == Done(Slice(read[9], lo, hi)) &&
      (0 <= lo <= hi <= |read[9]| ==> TrimToTarget(read, target, readStart) == Done(read[9][lo..hi]))
  {
  }

  /** `[str(i) for i in s]` */
  function Strs(s: seq<int>): (r: seq<string>)
    ensures |r| == |s| && forall i :: 0 <= i < |s| ==> r[i] == IntToStr(s[i])
  {
    seq(|s|, i requires 0 <= i < |s| => IntToStr(s[i]))
  }

  lemma StrsMember(s: seq<int>, x: int)
    ensures IntToStr(x) in Strs(s) <==> x in s
  {
    var r := Strs(s);
    if IntToStr(x) in r {
      var i :| 0 <= i < |r| && r[i] == IntToStr(x);
      IntToStrInjective(s[i], x);
    }
    if x in s {
      var i :| 0 <= i < |s| && s[i] == x;
      assert r[i] == IntToStr(x);
    }
  }

  /** check_validity: strict mode wants every expected offset among the mismatches, lenient mode
      at least one; so with no expected offset strict mode accepts and lenient mode rejects. */
  function CheckValidity(mmc: seq<string>, targetMmc: seq<int>, strict: bool): (valid: bool)
    ensures targetMmc == [] ==> valid == strict
  {
    if strict then forall x :: x in targetMmc ==> IntToStr(x) in mmc
    else exists x :: x in targetMmc && IntToStr(x) in mmc
  }

  /** On the mismatch list as the pipeline builds it (`str` of each offset) the check is about the
      offsets themselves. */
  lemma CheckValidityIndices(idx: seq<int>, targetMmc: seq<int>, strict: bool)
    ensures strict ==> (CheckValidity(Strs(idx), targetMmc, strict) <==> forall x :: x in targetMmc ==> x in idx)
    ensures !strict ==> (CheckValidity(Strs(idx), targetMmc, strict) <==> exists x :: x in targetMmc && x in idx)
  {
    forall x | x in targetMmc
      ensures IntToStr(x) in Strs(idx) <==> x in idx
    {
      StrsMember(idx, x);
    }
  }

  /** Strict acceptance implies lenient acceptance as soon as one edit is expected. */
  lemma StrictImpliesLenient(mmc: seq<string>, targetMmc: seq<int>)
    requires targetMmc != []
    ensures CheckValidity(mmc, targetMmc, true) ==> CheckValidity(mmc, targetMmc, false)
  {
    if CheckValidity(mmc, targetMmc, true) {
      var x := targetMmc[0];
      assert x in targetMmc && IntToStr(x) in mmc;
    }
  }

  // ------------------------------------------------------------------
  // DNA mismatches (get_mismatch_counts with aa=False, and the removal loop)

  /** The offsets below the shorter length at which the read and the target differ, compared
      case-sensitively, ascending. */
  function MismatchIndices(read: string, reference: string): (r: seq<int>)
  {
    DiffIndices(read, reference, Min(|read|, |reference|), 0)
  }

  /** The mismatch list is exactly the ascending offsets i < min(|read|, |reference|) with
      read[i] != reference[i]. */
  lemma MismatchIndicesSpec(read: string, reference: string)
    ensures var m := MismatchIndices(read, reference);
      (forall j, k :: 0 <= j < k < |m| ==> m[j] < m[k]) &&
      (forall i :: i in m <==> 0 <= i < |read| && i < |reference| && read[i] != reference[i])
  {
    DiffIndicesAscending(read, reference, Min(|read|, |reference|), 0);
    MismatchIndicesMembers(read, reference);
  }

  lemma MismatchIndicesMembers(read: string, reference: string)
    ensures var m := MismatchIndices(read, reference);
      forall i :: i in m <==> 0 <= i < |read| && i < |reference| && read[i] != reference[i]
  {
    var n := Min(|read|, |reference|);
    var m := MismatchIndices(read, reference);
    DiffIndicesSound(read, reference, n, 0);
    DiffIndicesComplete(read, reference, n, 0);
    forall i
      ensures i in m <==> 0 <= i < |read| && i < |reference| && read[i] != reference[i]
    {
      if i in m {
        var j :| 0 <= j < |m| && m[j] == i;
      }
    }
  }

  /** get_mismatch_counts with aa=False: the mismatch offsets as strings. */
  function DnaMismatches(read: string, reference: string): (r: seq<string>)
  {
    Strs(MismatchIndices(read, reference))
  }

  /** The elements of s that are not in t, in their order. */
  function Without(s: seq<int>, t: seq<int>): (r: seq<int>)
  {
    if |s| == 0 then [] else (if s[0] in t then [] else [s[0]]) + Without(s[1..], t)
  }

  predicate Distinct(s: seq<int>)
  {
    forall i, j :: 0 <= i < j < |s| ==> s[i] != s[j]
  }

  /** Python's `list.remove(x)` on a list that holds x: the first occurrence goes. */
  function RemoveFirst(s: seq<int>, x: int): (r: seq<int>)
  {
    if |s| == 0 then [] else if s[0] == x then s[1..] else [s[0]] + RemoveFirst(s[1..], x)
  }

  lemma {:induction false} WithoutMember(s: seq<int>, t: seq<int>, y: int)
    ensures y in Without(s, t) <==> y in s && y !in t
  {
    if |s| > 0 {
      WithoutMember(s[1..], t, y);
      assert s == [s[0]] + s[1..];
    }
  }

  lemma {:induction false} WithoutDistinct(s: seq<int>, t: seq<int>)
    requires Distinct(s)
    ensures Distinct(Without(s, t))
  {
    if |s| > 0 {
      WithoutDistinct(s[1..], t);
      WithoutMember(s[1..], t, s[0]);
      var w := Without(s, t);
      var rest := Without(s[1..], t);
      if s[0] !in t {
        forall i, j | 0 <= i < j < |w|
          ensures w[i] != w[j]
        {
          if i == 0 {
            assert w[j] == rest[j - 1];
            assert w[j] in rest;
          } else {
            assert w[i] == rest[i - 1] && w[j] == rest[j - 1];
          }
        }
      }
    }
  }

  lemma {:induction false} WithoutNone(s: seq<int>)
    ensures Without(s, []) == s
  {
    if |s| > 0 {
      WithoutNone(s[1..]);
      assert s == [s[0]] + s[1..];
    }
  }

  /** Removing an element that is not there leaves the list as it is. */
  lemma {:induction false} WithoutAbsent(s: seq<int>, x: int)
    requires x !in s
    ensures Without(s, [x]) == s
  {
    if |s| > 0 {
      WithoutAbsent(s[1..], x);
      assert s == [s[0]] + s[1..];
    }
  }

  /** On a list without repeats, `remove(x)` drops x wherever it is. */
  lemma {:induction false} RemoveFirstDistinct(s: seq<int>, x: int)
    requires Distinct(s)
    ensures RemoveFirst(s, x) == Without(s, [x])
  {
    if |s| > 0 {
      assert Distinct(s[1..]);
      if s[0] == x {
        assert x !in s[1..];
        WithoutAbsent(s[1..], x);
      } else {
        RemoveFirstDistinct(s[1..], x);
      }
    }
  }

  lemma {:induction false} WithoutSnoc(s: seq<int>, t: seq<int>, x: int)
    ensures Without(Without(s, t), [x]) == Without(s, t + [x])
  {
    if |s| > 0 {
      WithoutSnoc(s[1..], t, x);
      var rest := Without(s[1..], t);
      var tx := t + [x];
      assert s[0] in tx <==> s[0] in t || s[0] == x;
      assert Without(s, tx) == (if s[0] in tx then [] else [s[0]]) + Without(s[1..], tx);
      if s[0] in t {
        assert Without(s, t) == rest;
      } else {
        var w := [s[0]] + rest;
        assert Without(s, t) == w;
        assert w[0] == s[0] && w[1..] == rest;
        assert Without(w, [x]) == (if s[0] in [x] then [] else [s[0]]) + Without(rest, [x]);
      }
    }
  }

  /** The removal loop of get_mismatch_counts: every expected offset that is among the mismatches is
      removed from them. On mismatch offsets (which never repeat) this leaves exactly the mismatches
      that are not expected, in their order. */
  method RemoveExpectedIndices(dnaMismatches: seq<int>, targetMmc: seq<int>) returns (remaining: seq<int>)
    requires Distinct(dnaMismatches)
    ensures remaining == Without(dnaMismatches, targetMmc)
    ensures forall y :: y in remaining <==> y in dnaMismatches && y !in targetMmc
  {
    remaining := dnaMismatches;
    WithoutNone(dnaMismatches);
    var k := 0;
    while k < |targetMmc|
      invariant 0 <= k <= |targetMmc|
      invariant remaining == Without(dnaMismatches, targetMmc[..k])
      invariant Distinct(remaining)
    {
      var x := targetMmc[k];
      WithoutSnoc(dnaMismatches, targetMmc[..k], x);
      assert targetMmc[..k + 1] == targetMmc[..k] + [x];
      if x in remaining {
        RemoveFirstDistinct(remaining, x);
        remaining := RemoveFirst(remaining, x);
      } else {
        WithoutAbsent(remaining, x);
      }
      WithoutDistinct(Without(dnaMismatches, targetMmc[..k]), [x]);
      k := k + 1;
    }
    assert targetMmc[..k] == targetMmc;
    forall y
      ensures y in remaining <==> y in dnaMismatches && y !in targetMmc
    {
      WithoutMember(dnaMismatches, targetMmc, y);
    }
  }

  lemma MismatchIndicesDistinct(read: string, reference: string)
    ensures Distinct(MismatchIndices(read, reference))
  {
    MismatchIndicesSpec(read, reference);
  }

  // ------------------------------------------------------------------
  // Event classification (get_mismatch_counts with aa=True)

  datatype EventType =
    | NoChanges
    | UpstreamNoncoding | PartialCodingUpStream | PartialCodingAndUpstreamNoncoding
    | DownstreamNonCoding | PartialCodingDownStream | DownstreamNonCodingAndPartialCodingDownstream
    | Mixed | Frameshift | MultipleSynonymous | StopGain | Synonymous | TooMany | Missense

  /** The six labels given to changes outside the full codons. */
  predicate IsZoneLabel(e: EventType)
  {
    e.UpstreamNoncoding? || e.PartialCodingUpStream? || e.PartialCodingAndUpstreamNoncoding? ||
    e.DownstreamNonCoding? || e.PartialCodingDownStream? || e.DownstreamNonCodingAndPartialCodingDownstream?
  }

  /** The `pos` entry of a report: one position, or the list of changed amino-acid positions. */
  datatype PosField = PosInt(n: int) | PosList(items: seq<string>)

  /** The dictionary get_mismatch_counts returns: frameshift flag, event type, position and the
      reference and alternative representation. */
  datatype MismatchReport = MismatchReport(frameshift: bool, eventType: EventType, pos: PosField, ref: string, alt: string)

  /** Python's `min` and `max` of a non-empty list of integers. */
  function IntsMin(s: seq<int>): (r: int)
    requires |s| > 0
  {
    if |s| == 1 then s[0] else Min(s[0], IntsMin(s[1..]))
  }

  function IntsMax(s: seq<int>): (r: int)
    requires |s| > 0
  {
    if |s| == 1 then s[0] else Max(s[0], IntsMax(s[1..]))
  }

  lemma {:induction false} IntsMinMax(s: seq<int>)
    requires |s| > 0
    ensures IntsMin(s) in s && IntsMax(s) in s && IntsMin(s) <= IntsMax(s)
    ensures forall x :: x in s ==> IntsMin(s) <= x <= IntsMax(s)
  {
    if |s| > 1 {
      IntsMinMax(s[1..]);
      assert s == [s[0]] + s[1..];
    }
  }

  /** The zone of a change between offsets lo and hi (lo <= hi) that reaches no full codon, from
      the lengths of the upstream non-coding zone (ncu), the upstream partial codon (cdu), the coding
      zone (c) and the downstream partial codon (cdd); None when no rule applies. */
  function ZoneLabel(lo: int, hi: int, ncu: nat, cdu: nat, c: nat, cdd: nat): (r: Option<EventType>)
  {
    if hi < ncu then Some(UpstreamNoncoding)
    else if hi <= ncu + cdu then
      Some(if lo >= ncu then PartialCodingUpStream else PartialCodingAndUpstreamNoncoding)
    else if lo > ncu + cdu + c + cdd then Some(DownstreamNonCoding)
    else if hi >= ncu + cdu + c then
      Some(if hi < ncu + cdu + c + cdd then PartialCodingDownStream else DownstreamNonCodingAndPartialCodingDownstream)
    else if ncu > lo && hi > ncu then Some(Mixed)
    else None
  }

  /** The label is one of the six zone labels or Mixed, and no rule applies exactly when the change
      starts at or after the upstream partial codon and ends inside the coding zone past its first
      base. */
  lemma ZoneLabelCases(lo: int, hi: int, ncu: nat, cdu: nat, c: nat, cdd: nat)
    requires lo <= hi
    ensures var l := ZoneLabel(lo, hi, ncu, cdu, c, cdd);
      (l.Some? ==> IsZoneLabel(l.value) || l.value == Mixed) &&
      (l.None? <==> ncu <= lo && ncu + cdu < hi < ncu + cdu + c) &&
      (l == Some(UpstreamNoncoding) <==> hi < ncu) &&
      (l == Some(PartialCodingUpStream) <==> ncu <= lo && hi <= ncu + cdu) &&
      (l == Some(PartialCodingAndUpstreamNoncoding) <==> lo < ncu <= hi <= ncu + cdu) &&
      (l == Some(DownstreamNonCoding) <==> ncu + cdu < hi && ncu + cdu + c + cdd < lo) &&
      (l == Some(Mixed) <==> lo < ncu && ncu + cdu < hi < ncu + cdu + c)
  {
  }

  /** The report for changes that reach no full codon: the zone of the lowest and highest changed
      offset, the lowest offset, and the target and read bases between them. */
  function ZoneReport(dnaMm: seq<int>, fullRead: string, target: Target, other: OtherSeqs)
    : (r: Outcome<(seq<string>, MismatchReport)>)
    requires |dnaMm| > 0
  {
    var lo := IntsMin(dnaMm);
    var hi := IntsMax(dnaMm);
    var zone := ZoneLabel(lo, hi, |other.upstreamNoncodingSeq|, |other.cdsUpSeq|,
                           |other.referenceSeqFstrand|, |other.cdsDownSeq|);
    if zone.None? then Raises("This stage should never have been reached")
    else Done(([], MismatchReport(false, zone.value, PosInt(lo), Slice(target.bases, lo, hi + 1), Slice(fullRead, lo, hi + 1))))
  }

  /** The amino-acid positions (shifted by AApos) at which the alternative translation differs from
      the reference one, over the alternative's length. */
  function AaMismatches(tmp: PositionResult): (r: seq<int>)
    requires |tmp.altAa| <= |tmp.refAa|
  {
    DiffIndices(tmp.altAa, tmp.refAa, |tmp.altAa|, tmp.aaPos)
  }

  /** The decision procedure once some unexpected DNA change is left, in the order of the source:
      changes that reach no codon, a stop in the alternative translation, identical translations,
      several changed residues, one changed residue. */
  function Classify(dnaMm: seq<int>, tmp: PositionResult, fullRead: string, target: Target, other: OtherSeqs)
    : (r: Outcome<(seq<string>, MismatchReport)>)
    requires |dnaMm| > 0
  {
    if |tmp.altAa| > |tmp.refAa| then Raises("IndexError")
    else
      var aaMm := AaMismatches(tmp);
      var aaStrs := Strs(aaMm);
      if (tmp.altAa == tmp.refAa && tmp.altDna == tmp.refDna) || tmp.altAa == "" then
        ZoneReport(dnaMm, fullRead, target, other)
      else if '*' in tmp.altAa then
        if |aaMm| > 1 then Done((aaStrs, MismatchReport(true, Frameshift, PosList(aaStrs), tmp.refAa, tmp.altAa)))
        else if |aaMm| == 0 then Done((aaStrs, MismatchReport(false, MultipleSynonymous, PosInt(tmp.aaPos), tmp.refAa, tmp.refAa)))
        else Done((aaStrs, MismatchReport(false, StopGain, PosInt(tmp.aaPos), tmp.refAa, tmp.altAa)))
      // With equal translations there is no changed residue (AaMismatchesOfEqual), so the branch for
      // several synonymous residues at CountReads.py:308-318 never runs and is left out.
      else if tmp.altAa == tmp.refAa then
        if |tmp.refAa| > 1 then
          Done(([IntToStr(tmp.aaPos)], MismatchReport(false, MultipleSynonymous, PosInt(tmp.aaPos), tmp.refAa, tmp.altAa)))
        else
          Done(([IntToStr(tmp.aaPos)], MismatchReport(false, Synonymous, PosInt(tmp.aaPos), tmp.refAa, tmp.refAa)))
      else if |aaMm| > 1 then Done((aaStrs, MismatchReport(false, TooMany, PosList(aaStrs), tmp.refAa, tmp.altAa)))
      else if |aaMm| == 1 && |tmp.refAa| == 1 then
        Done((aaStrs, MismatchReport(false, Missense, PosInt(tmp.aaPos), tmp.refAa, tmp.altAa)))
      else if |aaMm| == 0 then Raises("IndexError")
      else
        // `remove` of the list's own first element cannot fail, so the ValueError handler never runs
        // and the list is left empty; the residue is read at the negative index AApos - changed.
        var changed := aaMm[0];
        var k := tmp.aaPos - changed;
        if ValidIndex(|tmp.refAa|, k) && ValidIndex(|tmp.altAa|, k) then
          Done(([], MismatchReport(false, Mixed, PosInt(changed), [At(tmp.refAa, k)], [At(tmp.altAa, k)])))
        else Raises("IndexError")
  }

  /** The unexpected DNA changes: the case-sensitive mismatch offsets minus the expected ones. */
  function Remaining(fullRead: string, target: Target): (r: seq<int>)
  {
    Without(MismatchIndices(fullRead, target.bases), target.mmc)
  }

  /** get_mismatch_counts with aa=True: the changed amino-acid positions and the report. */
  function MismatchCounts(fullRead: string, target: Target, other: OtherSeqs): (r: Outcome<(seq<string>, MismatchReport)>)
  {
    var dnaMm := Remaining(fullRead, target);
    if |dnaMm| == 0 then Done(([], MismatchReport(false, NoChanges, PosInt(0), "0", "0")))
    else
      var tmp :- PositionWrapper(fullRead, target, other, target.strand);
      Classify(dnaMm, tmp, fullRead, target, other)
  }

  lemma {:induction false} DiffIndicesSelf(a: string, n: nat, offset: int)
    requires n <= |a|
    ensures DiffIndices(a, a, n, offset) == []
  {
    if n > 0 {
      DiffIndicesSelf(a, n - 1, offset);
    }
  }

  /** Equal translations have no changed residue. */
  lemma AaMismatchesOfEqual(tmp: PositionResult)
    requires tmp.altAa == tmp.refAa
    ensures AaMismatches(tmp) == []
  {
    DiffIndicesSelf(tmp.altAa, |tmp.altAa|, tmp.aaPos);
  }

  /** Once an unexpected change is left the procedure never answers NoChanges, and it sets the
      frameshift flag exactly for Frameshift. */
  lemma ClassifyFlags(dnaMm: seq<int>, tmp: PositionResult, fullRead: string, target: Target, other: OtherSeqs)
    requires |dnaMm| > 0
    ensures var r := Classify(dnaMm, tmp, fullRead, target, other);
      !r.Hangs? &&
      (r.Done? ==> r.value.1.eventType != NoChanges && (r.value.1.frameshift <==> r.value.1.eventType == Frameshift))
  {
  }

  /** A read without unexpected changes gives no positions and NoChanges, which no other read gives;
      the frameshift flag is set exactly for Frameshift. */
  lemma MismatchCountsNoChanges(fullRead: string, target: Target, other: OtherSeqs)
    ensures var r := MismatchCounts(fullRead, target, other);
      (|Remaining(fullRead, target)| == 0 <==> r.Done? && r.value.1.eventType == NoChanges) &&
      (|Remaining(fullRead, target)| == 0 ==> r.value.0 == [] && !r.value.1.frameshift) &&
      (r.Done? ==> (r.value.1.frameshift <==> r.value.1.eventType == Frameshift))
  {
    var dnaMm := Remaining(fullRead, target);
    if |dnaMm| > 0 {
      var w := PositionWrapper(fullRead, target, other, target.strand);
      if w.Done? {
        assert MismatchCounts(fullRead, target, other) == Classify(dnaMm, w.value, fullRead, target, other);
        ClassifyFlags(dnaMm, w.value, fullRead, target, other);
      } else {
        assert MismatchCounts(fullRead, target, other).IsFailure();
      }
    }
  }

  /** Changes that reach no codon of the translation are labelled from their lowest and highest
      offsets and the zone lengths alone. */
  lemma ClassifyZone(dnaMm: seq<int>, tmp: PositionResult, fullRead: string, target: Target, other: OtherSeqs)
    requires |dnaMm| > 0 && |tmp.altAa| <= |tmp.refAa|
    requires (tmp.altAa == tmp.refAa && tmp.altDna == tmp.refDna) || tmp.altAa == ""
    ensures var zone := ZoneLabel(IntsMin(dnaMm), IntsMax(dnaMm), |other.upstreamNoncodingSeq|, |other.cdsUpSeq|,
                                   |other.referenceSeqFstrand|, |other.cdsDownSeq|);
      var r := Classify(dnaMm, tmp, fullRead, target, other);
      (zone.None? <==> r.Raises?) &&
      (r.Done? ==> r.value.0 == [] && !r.value.1.frameshift && r.value.1.eventType == zone.value &&
                   r.value.1.pos == PosInt(IntsMin(dnaMm)) && (IsZoneLabel(zone.value) || zone.value == Mixed))
  {
    IntsMinMax(dnaMm);
    ZoneLabelCases(IntsMin(dnaMm), IntsMax(dnaMm), |other.upstreamNoncodingSeq|, |other.cdsUpSeq|,
                   |other.referenceSeqFstrand|, |other.cdsDownSeq|);
  }

  /** With a stop in the alternative translation: Frameshift for several changed residues, the only
      outcome with the frameshift flag; MultipleSynonymous for none; StopGain for exactly one. */
  lemma ClassifyStop(dnaMm: seq<int>, tmp: PositionResult, fullRead: string, target: Target, other: OtherSeqs)
    requires |dnaMm| > 0 && |tmp.altAa| <= |tmp.refAa| && tmp.altAa != ""
    requires !(tmp.altAa == tmp.refAa && tmp.altDna == tmp.refDna)
    requires '*' in tmp.altAa
    ensures var r := Classify(dnaMm, tmp, fullRead, target, other);
      var n := |AaMismatches(tmp)|;
      r.Done? && r.value.0 == Strs(AaMismatches(tmp)) &&
      (r.value.1.frameshift <==> n > 1) &&
      (r.value.1.eventType == Frameshift <==> n > 1) &&
      (r.value.1.eventType == MultipleSynonymous <==> n == 0) &&
      (r.value.1.eventType == StopGain <==> n == 1)
  {
  }

  /** Without a stop, in order: equal translations give Synonymous for one residue and
      MultipleSynonymous for more; then several changed residues give TooMany; one changed residue
      over a single-residue span gives Missense; anything else gives Mixed (or an IndexError). */
  lemma ClassifyNoStop(dnaMm: seq<int>, tmp: PositionResult, fullRead: string, target: Target, other: OtherSeqs)
    requires |dnaMm| > 0 && |tmp.altAa| <= |tmp.refAa| && tmp.altAa != ""
    requires !(tmp.altAa == tmp.refAa && tmp.altDna == tmp.refDna)
    requires '*' !in tmp.altAa
    ensures var r := Classify(dnaMm, tmp, fullRead, target, other);
      var n := |AaMismatches(tmp)|;
      var same := tmp.altAa == tmp.refAa;
      !r.Hangs? &&
      (r.Done? ==> !r.value.1.frameshift) &&
      (r.Done? && r.value.1.eventType == Synonymous <==> same && |tmp.refAa| == 1) &&
      (r.Done? && r.value.1.eventType == MultipleSynonymous <==> same && |tmp.refAa| > 1) &&
      (r.Done? && r.value.1.eventType == TooMany <==> !same && n > 1) &&
      (r.Done? && r.value.1.eventType == Missense <==> !same && n == 1 && |tmp.refAa| == 1) &&
      (r.Done? && r.value.1.eventType == Mixed ==> !same && n == 1 && |tmp.refAa| != 1) &&
      (same ==> n == 0)
  {
    if tmp.altAa == tmp.refAa {
      AaMismatchesOfEqual(tmp);
    }
  }

  /** For equal-length translations (which position_wrapper always gives) one changed residue over a
      longer span is reported as Mixed at that residue, and never raises. The residues reported are
      read at the index AApos - changed, that is -i for the changed residue i of the span: residue
      0 itself when i is 0, and otherwise residue n - i counted from the start. */
  lemma ClassifyMixed(dnaMm: seq<int>, tmp: PositionResult, fullRead: string, target: Target, other: OtherSeqs)
    requires |dnaMm| > 0 && |tmp.altAa| == |tmp.refAa| && tmp.altAa != ""
    requires !(tmp.altAa == tmp.refAa && tmp.altDna == tmp.refDna)
    requires '*' !in tmp.altAa && tmp.altAa != tmp.refAa
    requires |AaMismatches(tmp)| == 1 && |tmp.refAa| != 1
    ensures var r := Classify(dnaMm, tmp, fullRead, target, other);
      var changed := AaMismatches(tmp)[0];
      var i := changed - tmp.aaPos;
      r.Done? && r.value.0 == [] && r.value.1.eventType == Mixed && r.value.1.pos == PosInt(changed) &&
      0 <= i < |tmp.refAa| && tmp.refAa[i] != tmp.altAa[i] &&
      var j := if i == 0 then 0 else |tmp.refAa| - i;
      r.value.1.ref == [tmp.refAa[j]] && r.value.1.alt == [tmp.altAa[j]]
  {
    DiffIndicesSound(tmp.altAa, tmp.refAa, |tmp.altAa|, tmp.aaPos);
  }

  /** The Mixed report can name a residue that did not change: with reference ABD, alternative ACD
      and the span at residue 0, residue 1 changed but the report reads residue 2 (D, D). */
  lemma MixedReportsMirrored(dnaMm: seq<int>, contig: Contig, fullRead: string, target: Target, other: OtherSeqs)
    requires |dnaMm| > 0
    ensures var tmp := PositionResult(contig, "ABD", "ACD", true, 0, "GCTGATGAC", "GCTTGTGAC");
      Classify(dnaMm, tmp, fullRead, target, other) ==
        Done(([], MismatchReport(false, Mixed, PosInt(1), "D", "D")))
  {
    var tmp := PositionResult(contig, "ABD", "ACD", true, 0, "GCTGATGAC", "GCTTGTGAC");
    assert DiffIndices("ACD", "ABD", 1, 0) == [];
    assert DiffIndices("ACD", "ABD", 2, 0) == [1];
    assert AaMismatches(tmp) == DiffIndices("ACD", "ABD", 3, 0) == [1];
    ClassifyMixed(dnaMm, tmp, fullRead, target, other);
  }

  // ------------------------------------------------------------------
  // Per-position tallies of a CountReads object

  /** One entry of results_dict: genomic position, reference base and a count per read base. */
  datatype BaseTally = BaseTally(pos: int, ref: char, a: nat, g: nat, t: nat, c: nat, n: nat)

  /** The bases results_dict has a counter for. */
  predicate IsTallyBase(b: char)
  {
    b == 'A' || b == 'G' || b == 'T' || b == 'C' || b == 'N'
  }

  function BaseCount(t: BaseTally, b: char): (r: nat)
  {
    match b
    case 'A' => t.a
    case 'G' => t.g
    case 'T' => t.t
    case 'C' => t.c
    case 'N' => t.n
    case _ => 0
  }

  /** The entry with the counter of base b one higher. */
  function Bumped(t: BaseTally, b: char): (u: BaseTally)
    requires IsTallyBase(b)
    ensures u.pos == t.pos && u.ref == t.ref
    ensures forall x :: BaseCount(u, x) == BaseCount(t, x) + (if x == b then 1 else 0)
  {
    match b
    case 'A' => t.(a := t.a + 1)
    case 'G' => t.(g := t.g + 1)
    case 'T' => t.(t := t.t + 1)
    case 'C' => t.(c := t.c + 1)
    case 'N' => t.(n := t.n + 1)
  }

  /** The entry of offset i, created with zero counts when absent. */
  function Entry(d: map<nat, BaseTally>, i: nat, pos: int, ref: char): (r: BaseTally)
  {
    if i in d then d[i] else BaseTally(pos, ref, 0, 0, 0, 0, 0)
  }

  predicate TallyBasesBelow(read: string, k: nat)
    requires k <= |read|
  {
    forall i :: 0 <= i < k ==> IsTallyBase(read[i])
  }

  /** results_dict after counting read bases 0 .. k-1 against the reference (offset i keyed by i;
      the source keys it by str(i), which is one-to-one). */
  function Tallied(d: map<nat, BaseTally>, read: string, ref: string, alnStart: int, k: nat): (r: map<nat, BaseTally>)
    requires k <= |read| && k <= |ref| && TallyBasesBelow(read, k)
  {
    if k == 0 then d
    else
      var prev := Tallied(d, read, ref, alnStart, k - 1);
      prev[k - 1 := Bumped(Entry(prev, k - 1, alnStart + k - 1, ref[k - 1]), read[k - 1])]
  }

  /** The first offset below n whose read base has no counter (n when there is none). */
  function FirstUntallied(read: string, n: nat): (k: nat)
    requires n <= |read|
    ensures k <= n && TallyBasesBelow(read, k) && (k < n ==> !IsTallyBase(read[k]))
  {
    if n == 0 then 0
    else if FirstUntallied(read, n - 1) < n - 1 then FirstUntallied(read, n - 1)
    else if IsTallyBase(read[n - 1]) then n else n - 1
  }

  /** After counting bases 0 .. k-1 each of those offsets has one more count for its read base and
      keeps the position and reference base it was created with; no other offset changes. */
  lemma {:induction false} TalliedEffect(d: map<nat, BaseTally>, read: string, ref: string, alnStart: int, k: nat)
    requires k <= |read| && k <= |ref| && TallyBasesBelow(read, k)
    ensures var r := Tallied(d, read, ref, alnStart, k);
      (forall i :: 0 <= i < k ==>
         (i in r &&
          r[i].pos == Entry(d, i, alnStart + i, ref[i]).pos && r[i].ref == Entry(d, i, alnStart + i, ref[i]).ref &&
          forall b :: BaseCount(r[i], b) == BaseCount(Entry(d, i, alnStart + i, ref[i]), b) + (if b == read[i] then 1 else 0))) &&
      (forall i :: i >= k ==> (i in r <==> i in d) && (i in d ==> r[i] == d[i]))
  {
    if k > 0 {
      TalliedEffect(d, read, ref, alnStart, k - 1);
    }
  }

  /** One entry of aa_list: amino-acid position, reference residue, total and a count per residue code. */
  datatype AaTally = AaTally(pos: int, ref: char, total: nat, changes: map<string, nat>)

  /** The 21 residue codes aa_list counts. */
  const AminoAcidCodes: seq<string> :=
    ["A", "C", "D", "E", "F", "G", "H", "I", "K", "L", "M", "N", "P", "Q", "R", "S", "T", "V", "W", "Y", "X"]

  function ZeroChanges(): (m: map<string, nat>)
    ensures forall code :: code in m <==> code in AminoAcidCodes
    ensures forall code :: code in m ==> m[code] == 0
  {
    map code | code in AminoAcidCodes :: 0
  }

  /** `s.replace('*', 'X')` */
  function ReplaceStop(s: string): (r: string)
    ensures |r| == |s| && '*' !in r
    ensures forall i :: 0 <= i < |s| ==> r[i] == if s[i] == '*' then 'X' else s[i]
  {
    seq(|s|, i requires 0 <= i < |s| => if s[i] == '*' then 'X' else s[i])
  }

  /** aa_list together with the exception that stopped an update, if any. */
  datatype AaState = AaState(list: seq<AaTally>, error: Option<string>)

  /** `aa_list[index]['TOTAL'] += 1; aa_list[index]['changes'][altAa] += 1`: IndexError leaves the
      list alone; a residue without a counter raises KeyError after the total was raised. */
  function CountChange(list: seq<AaTally>, index: int, altAa: string): (st: AaState)
    ensures |st.list| == |list|
  {
    if !ValidIndex(|list|, index) then AaState(list, Some("IndexError"))
    else
      var j := if index < 0 then index + |list| else index;
      var e := list[j].(total := list[j].total + 1);
      if altAa in e.changes then AaState(list[j := e.(changes := e.changes[altAa := e.changes[altAa] + 1])], None)
      else AaState(list[j := e], Some("KeyError"))
  }

  /** A change counted at a valid index raises that entry's total and its residue's counter by one
      and leaves every other entry and counter alone. */
  lemma CountChangeEffect(list: seq<AaTally>, index: int, altAa: string)
    requires 0 <= index < |list| && altAa in list[index].changes
    ensures var st := CountChange(list, index, altAa);
      st.error.None? && st.list[index].total == list[index].total + 1 &&
      st.list[index].pos == list[index].pos && st.list[index].ref == list[index].ref &&
      st.list[index].changes.Keys == list[index].changes.Keys &&
      st.list[index].changes[altAa] == list[index].changes[altAa] + 1 &&
      (forall code :: code in list[index].changes && code != altAa ==> st.list[index].changes[code] == list[index].changes[code]) &&
      (forall j :: 0 <= j < |list| && j != index ==> st.list[j] == list[j])
  {
  }

  /** The loop of add_aa_dict for MultipleSynonymous after `a` turns, stopping at the first exception:
      turn a counts residue alt[a] at position pos + a. */
  function CountMultiSyn(list: seq<AaTally>, pos: int, ref: string, alt: string, a: nat): (r: AaState)
    requires a <= |ref|
  {
    if a == 0 then AaState(list, None)
    else
      var prev := CountMultiSyn(list, pos, ref, alt, a - 1);
      if prev.error.Some? then prev
      else if a - 1 >= |alt| then AaState(prev.list, Some("IndexError"))
      else CountChange(prev.list, pos + a - 1, ReplaceStop([alt[a - 1]]))
  }

  /** add_aa_dict: MultipleSynonymous counts every residue of the span; any other report counts its
      one position, and a position outside aa_list is only logged. */
  function AddAaDictSpec(list: seq<AaTally>, aaDict: MismatchReport): (r: AaState)
  {
    if aaDict.eventType == MultipleSynonymous then
      if aaDict.pos.PosList? then
        (if |aaDict.ref| == 0 then AaState(list, None) else AaState(list, Some("TypeError")))
      else CountMultiSyn(list, aaDict.pos.n, aaDict.ref, aaDict.alt, |aaDict.ref|)
    else if aaDict.pos.PosList? then AaState(list, Some("TypeError"))
    else
      var st := CountChange(list, aaDict.pos.n, ReplaceStop(aaDict.alt));
      if st.error == Some("IndexError") then AaState(list, None) else st
  }

  /** build_aa_ref_list's entries: one per reference residue, all counters zero. */
  method BuildAaRefList(a: string) returns (res: seq<AaTally>)
    ensures |res| == |a|
    ensures forall i :: 0 <= i < |a| ==> res[i] == AaTally(i, a[i], 0, ZeroChanges())
  {
    res := [];
    for i := 0 to |a|
      invariant |res| == i
      invariant forall j :: 0 <= j < i ==> res[j] == AaTally(j, a[j], 0, ZeroChanges())
    {
      var p1 := AaTally(i, a[i], 0, map[]);
      for j := 0 to |AminoAcidCodes|
        invariant p1.pos == i && p1.ref == a[i] && p1.total == 0
        invariant p1.changes == map code | code in AminoAcidCodes[..j] :: 0
      {
        p1 := p1.(changes := p1.changes[AminoAcidCodes[j] := 0]);
      }
      res := res + [p1];
    }
  }

  /** A CountReads object: one alignment line, the target and its reference geometry, and two
      tables of counters that its methods update. */
  class CountReads {
    const read: seq<string>
    const indicators: seq<Indicator>
    const target: Target
    const readStart: int
    const referenceAa: string
    const referenceDna: string
    const other: OtherSeqs
    var resultsDict: map<nat, BaseTally>
    var aaList: seq<AaTally>

    /** The constructor runs get_aa (it raises when the coding slice is not whole codons) on the
        line's start position, which the caller has already read as an integer. */
    constructor (read: seq<string>, indicators: seq<Indicator>, target: Target)
      requires |read| > 3 && ParseInt(read[3]).Some?
      requires GetAa(target, ParseInt(read[3]).value).Done?
      ensures this.read == read && this.indicators == indicators && this.target == target
      ensures readStart == ParseInt(read[3]).value
      ensures var aa := GetAa(target, readStart).value;
        referenceAa == aa.referenceAa && referenceDna == aa.referenceDna && other == aa.other
      ensures resultsDict == map[]
      ensures |aaList| == |referenceAa|
      ensures forall i :: 0 <= i < |referenceAa| ==> aaList[i] == AaTally(i, referenceAa[i], 0, ZeroChanges())
    {
      this.read := read;
      this.indicators := indicators;
      this.target := target;
      var start := ParseInt(read[3]).value;
      readStart := start;
      var aa := GetAa(target, start).value;
      referenceAa := aa.referenceAa;
      referenceDna := aa.referenceDna;
      other := aa.other;
      resultsDict := map[];
      var list := BuildAaRefList(aa.referenceAa);
      aaList := list;
    }

    /** get_mismatch_counts with aa=True, with the in-place removal of the expected offsets. */
    method GetMismatchCounts(fullRead: string) returns (r: Outcome<(seq<string>, MismatchReport)>)
      ensures r == MismatchCounts(fullRead, target, other)
    {
      var dnaMismatches := MismatchIndices(fullRead, target.bases);
      MismatchIndicesDistinct(fullRead, target.bases);
      var remaining := RemoveExpectedIndices(dnaMismatches, target.mmc);
      if |remaining| == 0 {
        return Done(([], MismatchReport(false, NoChanges, PosInt(0), "0", "0")));
      }
      var tmp := PositionWrapper(fullRead, target, other, target.strand);
      if tmp.IsFailure() {
        return tmp.PropagateFailure();
      }
      r := Classify(remaining, tmp.value, fullRead, target, other);
    }

    /** add_to_dict: every base of the read below the shorter length is counted at its offset; an
        offset seen for the first time gets the genomic position alnStart + i and the reference
        base. A base other than A, G, T, C or N raises KeyError after its entry was created, and
        the counts made before it stay. */
    method AddToDict(read: string, alnStart: int) returns (raised: bool)
      modifies this`resultsDict
      ensures var n := Min(|target.bases|, |read|);
        var k := FirstUntallied(read, n);
        var done := Tallied(old(resultsDict), read, target.bases, alnStart, k);
        raised == (k < n) &&
        resultsDict == if k < n then done[k := Entry(done, k, alnStart + k, target.bases[k])] else done
    {
      var n := Min(|target.bases|, |read|);
      var i := 0;
      while i < n
        invariant 0 <= i <= n
        invariant FirstUntallied(read, n) >= i
        invariant resultsDict == Tallied(old(resultsDict), read, target.bases, alnStart, i)
      {
        var seqBase := read[i];
        var refBase := target.bases[i];
        if i !in resultsDict {
          resultsDict := resultsDict[i := BaseTally(alnStart + i, refBase, 0, 0, 0, 0, 0)];
        }
        if !IsTallyBase(seqBase) {
          FirstUntalliedAt(read, n, i);
          return true;
        }
        FirstUntalliedPast(read, n, i);
        resultsDict := resultsDict[i := Bumped(resultsDict[i], seqBase)];
        i := i + 1;
      }
      return false;
    }

    /** add_aa_dict, with the exception that stops it (None when it returns normally). */
    method AddAaDict(aaDict: MismatchReport) returns (error: Option<string>)
      modifies this`aaList
      ensures AaState(aaList, error) == AddAaDictSpec(old(aaList), aaDict)
    {
      if aaDict.eventType == MultipleSynonymous {
        if aaDict.pos.PosList? {
          return if |aaDict.ref| == 0 then None else Some("TypeError");
        }
        var a := 0;
        while a < |aaDict.ref|
          invariant 0 <= a <= |aaDict.ref|
          invariant CountMultiSyn(old(aaList), aaDict.pos.n, aaDict.ref, aaDict.alt, a) == AaState(aaList, None)
        {
          var index := aaDict.pos.n + a;
          if a >= |aaDict.alt| {
            MultiSynStops(old(aaList), aaDict.pos.n, aaDict.ref, aaDict.alt, a + 1, |aaDict.ref|);
            return Some("IndexError");
          }
          var altAa := ReplaceStop([aaDict.alt[a]]);
          var st := CountChange(aaList, index, altAa);
          aaList := st.list;
          if st.error.Some? {
            MultiSynStops(old(aaList), aaDict.pos.n, aaDict.ref, aaDict.alt, a + 1, |aaDict.ref|);
            return st.error;
          }
          a := a + 1;
        }
        return None;
      }
      if aaDict.pos.PosList? {
        return Some("TypeError");
      }
      var st := CountChange(aaList, aaDict.pos.n, ReplaceStop(aaDict.alt));
      if st.error == Some("IndexError") {
        return None;
      }
      aaList := st.list;
      error := st.error;
    }
  }

  lemma FirstUntalliedAt(read: string, n: nat, i: nat)
    requires n <= |read| && i < n && FirstUntallied(read, n) >= i && !IsTallyBase(read[i])
    ensures FirstUntallied(read, n) == i
  {
  }

  lemma FirstUntalliedPast(read: string, n: nat, i: nat)
    requires n <= |read| && i < n && FirstUntallied(read, n) >= i && IsTallyBase(read[i])
    ensures FirstUntallied(read, n) >= i + 1
  {
  }

  /** Once the MultipleSynonymous loop has raised, the later turns change nothing. */
  lemma {:induction false} MultiSynStops(list: seq<AaTally>, pos: int, ref: string, alt: string, a: nat, b: nat)
    requires a <= b <= |ref| && CountMultiSyn(list, pos, ref, alt, a).error.Some?
    ensures CountMultiSyn(list, pos, ref, alt, b) == CountMultiSyn(list, pos, ref, alt, a)
    decreases b - a
  {
    if a < b {
      MultiSynStops(list, pos, ref, alt, a, b - 1);
    }
  }
}
