/**
 * The locus table of deduper.py: one record per distinct change seen in the reads, keyed by
 * chromosome, relative position, reference and alternative, with a count of sightings. Every
 * sighting replaces the stored metadata with its own and raises the count by one.
 */
module Deduper {
  import opened PySemantics
  import opened GeneticCode
  import opened DnaFunctions
  import opened CountReads

  /** The AApos field: the amino-acid position of a coding change, '.' for a non-coding one. */
  datatype AaPosField = AaPosNum(n: int) | AaPosDot

  /** The metadata of one record. For a coding change ref and alt come from the trimmed contig,
      which holds None when it is empty. */
  datatype Locus = Locus(chr: string, pos: int, ref: Option<string>, alt: Option<string>,
                         refAa: string, altAa: string, refCodon: string, altCodon: string,
                         aaPos: AaPosField, eventType: EventType)

  datatype Record = Record(locus: Locus, count: nat)

  /** Python's `str` of a string that may be None. */
  function StrOpt(o: Option<string>): (r: string)
  {
    if o.None? then "None" else o.value
  }

  /** The table key `chrom:relpos:ref:alt`. */
  function Key(chrom: string, relPos: int, ref: string, alt: string): (r: string)
  {
    chrom + ":" + (IntToStr(relPos) + ":" + (ref + ":" + alt))
  }

  /** The key and the metadata one call files. A coding change (position_wrapper's result given)
      is keyed by the contig's start, ref and alt and carries the residues, codons and AApos; a
      non-coding change is keyed by the report's position, ref and alt and has '.' in those five
      fields. A report whose position is a list cannot be converted by `int` (TypeError). */
  function Sighting(mmmc: MismatchReport, dnaResults: Option<PositionResult>, chrom: string, readStart: int)
    : (r: Outcome<(string, Locus)>)
    ensures !r.Hangs?
    ensures r.Done? ==> r.value.1.chr == chrom && r.value.1.eventType == mmmc.eventType
    ensures dnaResults.Some? ==>
      (r.Done? &&
       var pra := dnaResults.value.posRefAlt;
       r.value.0 == Key(chrom, pra.start, StrOpt(pra.ref), StrOpt(pra.alt)) &&
       r.value.1.pos == readStart + pra.start && r.value.1.ref == pra.ref && r.value.1.alt == pra.alt &&
       r.value.1.aaPos == AaPosNum(dnaResults.value.aaPos))
    ensures dnaResults.None? ==> (r.Done? <==> mmmc.pos.PosInt?)
    ensures dnaResults.None? && r.Done? ==>
      r.value.0 == Key(chrom, mmmc.pos.n, mmmc.ref, mmmc.alt) &&
      r.value.1.pos == readStart + mmmc.pos.n && r.value.1.ref == Some(mmmc.ref) && r.value.1.alt == Some(mmmc.alt) &&
      r.value.1.refAa == "." && r.value.1.altAa == "." && r.value.1.refCodon == "." && r.value.1.altCodon == "." &&
      r.value.1.aaPos == AaPosDot
  {
    match dnaResults
    case Some(d) =>
      var pra := d.posRefAlt;
      Done((Key(chrom, pra.start, StrOpt(pra.ref), StrOpt(pra.alt)),
            Locus(chrom, readStart + pra.start, pra.ref, pra.alt, d.refAa, d.altAa, d.refDna, d.altDna,
                  AaPosNum(d.aaPos), mmmc.eventType)))
    case None =>
      if mmmc.pos.PosList? then Raises("TypeError")
      else Done((Key(chrom, mmmc.pos.n, mmmc.ref, mmmc.alt),
                 Locus(chrom, readStart + mmmc.pos.n, Some(mmmc.ref), Some(mmmc.alt), ".", ".", ".", ".",
                       AaPosDot, mmmc.eventType)))
  }

  /** The number of sightings a key has had so far (0 when it is absent). */
  function CountOf(d: map<string, Record>, key: string): (n: nat)
  {
    if key in d then d[key].count else 0
  }

  /** The table after one sighting of key with the given metadata. */
  function Recorded(d: map<string, Record>, key: string, locus: Locus): (r: map<string, Record>)
    ensures key in r && r[key].locus == locus && r[key].count == CountOf(d, key) + 1
    ensures forall k :: k != key ==> (k in r <==> k in d) && (k in d ==> r[k] == d[k])
  {
    d[key := Record(locus, CountOf(d, key) + 1)]
  }

  /** The table after a series of sightings, in order. */
  function RecordedAll(d: map<string, Record>, sightings: seq<(string, Locus)>): (r: map<string, Record>)
  {
    if |sightings| == 0 then d
    else
      var last := sightings[|sightings| - 1];
      Recorded(RecordedAll(d, sightings[..|sightings| - 1]), last.0, last.1)
  }

  /** How many of the sightings carry key. */
  function Occurrences(sightings: seq<(string, Locus)>, key: string): (n: nat)
  {
    if |sightings| == 0 then 0
    else Occurrences(sightings[..|sightings| - 1], key) + (if sightings[|sightings| - 1].0 == key then 1 else 0)
  }

  /** Starting from an empty table, a key's count is the number of its sightings. */
  lemma {:induction false} RecordedAllCount(sightings: seq<(string, Locus)>, key: string)
    ensures CountOf(RecordedAll(map[], sightings), key) == Occurrences(sightings, key)
  {
    if |sightings| > 0 {
      RecordedAllCount(sightings[..|sightings| - 1], key);
    }
  }

  /** Starting from an empty table, a key is present exactly when it was seen. */
  lemma {:induction false} RecordedAllKeys(sightings: seq<(string, Locus)>, key: string)
    ensures key in RecordedAll(map[], sightings) <==> exists i :: 0 <= i < |sightings| && sightings[i].0 == key
  {
    if |sightings| > 0 {
      var init := sightings[..|sightings| - 1];
      RecordedAllKeys(init, key);
      if sightings[|sightings| - 1].0 != key {
        if exists i :: 0 <= i < |sightings| && sightings[i].0 == key {
          var i :| 0 <= i < |sightings| && sightings[i].0 == key;
          assert init[i] == sightings[i];
        }
        if exists i :: 0 <= i < |init| && init[i].0 == key {
          var i :| 0 <= i < |init| && init[i].0 == key;
          assert sightings[i] == init[i];
        }
      }
    }
  }

  /** The metadata of a key is that of its latest sighting. */
  lemma {:induction false} RecordedAllLatest(sightings: seq<(string, Locus)>, key: string, i: nat)
    requires i < |sightings| && sightings[i].0 == key
    requires forall j :: i < j < |sightings| ==> sightings[j].0 != key
    ensures key in RecordedAll(map[], sightings) && RecordedAll(map[], sightings)[key].locus == sightings[i].1
  {
    var init := sightings[..|sightings| - 1];
    if i < |sightings| - 1 {
      assert init[i] == sightings[i];
      forall j | i < j < |init|
        ensures init[j].0 != key
      {
        assert init[j] == sightings[j];
      }
      RecordedAllLatest(init, key, i);
    }
  }

  /** Two sightings of one key leave the count at two and the metadata of the second. */
  lemma SeenTwice(d: map<string, Record>, key: string, first: Locus, second: Locus)
    requires key !in d
    ensures var r := Recorded(Recorded(d, key, first), key, second);
      r[key] == Record(second, 2) && r.Keys == d.Keys + {key}
  {
  }

  /** The first ':' of `x + ":" + r` is the one after x. */
  lemma FirstColon(x: string, r: string)
    requires ':' !in x
    ensures (x + ":" + r)[|x|] == ':'
    ensures forall i :: 0 <= i < |x| ==> (x + ":" + r)[i] != ':'
  {
    forall i | 0 <= i < |x|
      ensures (x + ":" + r)[i] != ':'
    {
      assert (x + ":" + r)[i] == x[i];
    }
  }

  /** Text split at its first ':' determines both halves. */
  lemma SplitAtColon(x: string, y: string, r1: string, r2: string)
    requires ':' !in x && ':' !in y
    ensures x + ":" + r1 == y + ":" + r2 <==> x == y && r1 == r2
  {
    var a := x + ":" + r1;
    var b := y + ":" + r2;
    if a == b {
      FirstColon(x, r1);
      FirstColon(y, r2);
      assert |x| == |y|;
      assert x == a[..|x|] && y == b[..|y|];
      assert r1 == a[|x| + 1..] && r2 == b[|y| + 1..];
    }
  }

  lemma IntToStrNoColon(n: int)
    ensures ':' !in IntToStr(n)
  {
    var s := IntToStr(n);
    if n < 0 {
      assert s == "-" + NatToStr(-n);
      forall i | 0 <= i < |s| ensures s[i] != ':'
      {
        if i > 0 {
          assert s[i] == NatToStr(-n)[i - 1];
        }
      }
    }
  }

  /** Texts with a common prefix are equal exactly when what follows it is. */
  lemma PrefixCancel(x: string, r1: string, r2: string)
    ensures x + r1 == x + r2 <==> r1 == r2
  {
    if x + r1 == x + r2 {
      assert r1 == (x + r1)[|x|..];
      assert r2 == (x + r2)[|x|..];
    }
  }

  /** On one chromosome, and with a reference allele free of ':', two changes share a key exactly
      when they have the same relative position, reference and alternative. */
  lemma KeyInjective(chrom: string, p1: int, ref1: string, alt1: string, p2: int, ref2: string, alt2: string)
    requires ':' !in ref1 && ':' !in ref2
    ensures Key(chrom, p1, ref1, alt1) == Key(chrom, p2, ref2, alt2) <==> p1 == p2 && ref1 == ref2 && alt1 == alt2
  {
    var tail1 := ref1 + ":" + alt1;
    var tail2 := ref2 + ":" + alt2;
    if Key(chrom, p1, ref1, alt1) == Key(chrom, p2, ref2, alt2) {
      PrefixCancel(chrom + ":", IntToStr(p1) + ":" + tail1, IntToStr(p2) + ":" + tail2);
      IntToStrNoColon(p1);
      IntToStrNoColon(p2);
      SplitAtColon(IntToStr(p1), IntToStr(p2), tail1, tail2);
      IntToStrInjective(p1, p2);
      SplitAtColon(ref1, ref2, alt1, alt2);
    }
  }

  /** The `final_dict` of one `process_sam` call: the locus table every dispatched read is filed into. */
  class LocusTable {
    var finalDict: map<string, Record>

    constructor ()
      ensures finalDict == map[]
    {
      finalDict := map[];
    }

    /** deduper.add_to_dict: files one sighting (the strand is passed but not used). An exception
        leaves the table as it was. */
    method AddToDict(strand: Strand, mmmc: MismatchReport, dnaResults: Option<PositionResult>, chrom: string, readStart: int)
      returns (error: Option<string>)
      modifies this
      ensures var s := Sighting(mmmc, dnaResults, chrom, readStart);
        (s.Raises? ==> error == Some(s.error) && finalDict == old(finalDict)) &&
        (s.Done? ==> error.None? && finalDict == Recorded(old(finalDict), s.value.0, s.value.1))
    {
      var s := Sighting(mmmc, dnaResults, chrom, readStart);
      if s.Raises? {
        return Some(s.error);
      }
      var key := s.value.0;
      if key !in finalDict {
        finalDict := finalDict[key := Record(s.value.1, 0)];
      }
      var newRecord := Record(s.value.1, finalDict[key].count);
      finalDict := finalDict[key := newRecord];
      finalDict := finalDict[key := finalDict[key].(count := finalDict[key].count + 1)];
      error := None;
    }
  }
}
