/**
 * The run driver of main.py: the target and indicator records built from the command line, the
 * argument check, and the per-line rejection and dispatch of process_sam with one counter per
 * category and the locus table that classified reads are filed into. Opening and reading the
 * alignment file is left to the caller, which hands over its lines.
 */
module SamParsing {
  import opened PySemantics
  import opened GeneticCode
  import opened TargetDict
  import opened DnaFunctions
  import opened CountReads
  import opened Deduper
  import opened ParseCigar

  // ------------------------------------------------------------------
  // Configuration

  /** The parsed command line (the alignment file is represented by whether it exists). */
  datatype Args = Args(
    samfileExists: bool,
    chrom: string,
    positions: seq<int>,
    bases: seq<string>,
    refSeq: string,
    targetFrom: int,
    targetTo: int,
    strand: Strand,
    codonDistanceUp: int,
    codonDistanceDown: int,
    readStart: int,
    strict: bool,
    cigarMin: int)

  /** build_target_dict: the target record, with the reference upper-cased and every required
      position turned into an offset from the read start. */
  function BuildTargetDict(args: Args): (t: Target)
    ensures t.chrom == args.chrom && t.from == args.targetFrom && t.to == args.targetTo && t.strand == args.strand
    ensures t.size == |args.refSeq| && t.bases == UpperStr(args.refSeq)
    ensures |t.mmc| == |args.positions| && forall i :: 0 <= i < |args.positions| ==> t.mmc[i] == args.positions[i] - args.readStart
  {
    Target(args.chrom, args.targetFrom, args.targetTo, |args.refSeq|, UpperStr(args.refSeq),
           seq(|args.positions|, i requires 0 <= i < |args.positions| => args.positions[i] - args.readStart),
           args.codonDistanceUp, args.codonDistanceDown, args.strand)
  }

  /** The indicator records: one per required position, paired with the base at the same index. */
  function Indicators(args: Args): (r: Outcome<seq<Indicator>>)
    ensures !r.Hangs?
    ensures r.Raises? <==> |args.bases| < |args.positions|
    ensures r.Done? ==>
      |r.value| == |args.positions| &&
      forall i :: 0 <= i < |args.positions| ==> r.value[i] == Indicator(args.chrom, args.positions[i], args.bases[i])
  {
    if |args.bases| < |args.positions| then Raises("IndexError")
    else Done(seq(|args.positions|, i requires 0 <= i < |args.positions| => Indicator(args.chrom, args.positions[i], args.bases[i])))
  }

  /** build_indicator_dict: appends one record per position; a base list shorter than the position
      list raises IndexError when the loop reaches its end. */
  method BuildIndicatorDict(args: Args) returns (r: Outcome<seq<Indicator>>)
    ensures r == Indicators(args)
  {
    var indicatorDict: seq<Indicator> := [];
    for x := 0 to |args.positions|
      invariant x <= |args.bases|
      invariant |indicatorDict| == x
      invariant forall i :: 0 <= i < x ==> indicatorDict[i] == Indicator(args.chrom, args.positions[i], args.bases[i])
    {
      if x >= |args.bases| {
        return Raises("IndexError");
      }
      indicatorDict := indicatorDict + [Indicator(args.chrom, args.positions[x], args.bases[x])];
    }
    assert indicatorDict == Indicators(args).value;
    return Done(indicatorDict);
  }

  /** The indicator of required edit i sits at offset mmc[i] of the target. */
  lemma IndicatorsMatchTarget(args: Args)
    requires Indicators(args).Done?
    ensures var ind := Indicators(args).value; var t := BuildTargetDict(args);
      |ind| == |t.mmc| && forall i :: 0 <= i < |ind| ==> ind[i].pos - args.readStart == t.mmc[i] && ind[i].chrom == t.chrom
  {
  }

  predicate IsAcgtBase(c: char)
  {
    c == 'A' || c == 'C' || c == 'T' || c == 'G'
  }

  /** validate_args: the alignment file exists, every required base and every reference character
      is A, C, T or G in either case; anything else fails an assertion. */
  function ValidateArgs(args: Args): (r: Outcome<bool>)
    ensures !r.Hangs? && (r.Done? ==> r.value)
  {
    if !args.samfileExists then Raises("AssertionError")
    else if exists k :: k in args.bases && !(|k| == 1 && IsAcgtBase(Upper(k[0]))) then Raises("AssertionError")
    else if exists i :: 0 <= i < |args.refSeq| && !IsAcgtBase(Upper(args.refSeq[i])) then Raises("AssertionError")
    else Done(true)
  }

  /** Arguments that pass the check give a target of upper-case A, C, G, T only, and every
      required base is one of those letters in either case. */
  lemma ValidateArgsSound(args: Args)
    requires ValidateArgs(args).Done?
    ensures args.samfileExists
    ensures forall i :: 0 <= i < |BuildTargetDict(args).bases| ==> IsAcgtBase(BuildTargetDict(args).bases[i])
    ensures forall k :: k in args.bases ==> |k| == 1 && IsAcgtBase(Upper(k[0]))
  {
  }

  /** ... and a missing alignment file, a required base that is not one letter of A, C, T, G, or a
      reference character outside them is refused. */
  lemma ValidateArgsComplete(args: Args)
    ensures !args.samfileExists ==> ValidateArgs(args).Raises?
    ensures forall k :: k in args.bases && !(|k| == 1 && IsAcgtBase(Upper(k[0]))) ==> ValidateArgs(args).Raises?
    ensures forall i :: 0 <= i < |args.refSeq| && !IsAcgtBase(Upper(args.refSeq[i])) ==> ValidateArgs(args).Raises?
  {
  }

  /** is_correct_base against the indicators of the arguments: a read base is correct for required
      edit i exactly when it is the base given for that edit, which after the argument check is a
      single A, C, T or G in either case. */
  lemma IndicatorBaseCorrect(args: Args, i: int, b: string)
    requires Setup(args).Done? && 0 <= i < |args.positions|
    ensures IsCorrectBase(Setup(args).value.1[i], b) <==> b == args.bases[i]
    ensures IsCorrectBase(Setup(args).value.1[i], b) ==> |b| == 1 && IsAcgtBase(Upper(b[0]))
  {
    ValidateArgsSound(args);
    assert args.bases[i] in args.bases;
  }

  /** SamParser's constructor: target, indicators, then the argument check. */
  function Setup(args: Args): (r: Outcome<(Target, seq<Indicator>)>)
    ensures r.Done? ==> r.value.0 == BuildTargetDict(args) && Indicators(args) == Done(r.value.1) && ValidateArgs(args).Done?
    ensures r.Raises? <==> Indicators(args).Raises? || ValidateArgs(args).Raises?
  {
    var target := BuildTargetDict(args);
    var indicators :- Indicators(args);
    var _ :- ValidateArgs(args);
    Done((target, indicators))
  }

  // ------------------------------------------------------------------
  // Reading one line

  /** The characters `str.strip()` removes, the white space of Unicode: ASCII white space, the ASCII
      separators, NEL, NBSP, the Ogham space mark, the spaces U+2000 to U+200A, the line and
      paragraph separators, the narrow NBSP, the medium mathematical space and the ideographic space. */
  predicate IsSpace(c: char)
  {
    c == ' ' || ('\t' <= c <= '\r') || ('\U{1C}' <= c <= '\U{1F}') || c == '\U{85}' || c == '\U{A0}' ||
    c == '\U{1680}' || ('\U{2000}' <= c <= '\U{200A}') || c == '\U{2028}' || c == '\U{2029}' ||
    c == '\U{202F}' || c == '\U{205F}' || c == '\U{3000}'
  }

  function StripLeft(s: string): (r: string)
    ensures |r| <= |s| && s[|s| - |r|..] == r
    ensures |r| > 0 ==> !IsSpace(r[0])
  {
    if |s| > 0 && IsSpace(s[0]) then StripLeft(s[1..]) else s
  }

  function StripRight(s: string): (r: string)
    ensures |r| <= |s| && s[..|r|] == r
    ensures |r| > 0 ==> !IsSpace(r[|r| - 1])
  {
    if |s| > 0 && IsSpace(s[|s| - 1]) then StripRight(s[..|s| - 1]) else s
  }

  /** Everything StripLeft cuts off is white space. */
  lemma {:induction false} StripLeftSpaces(s: string)
    ensures forall i :: 0 <= i < |s| - |StripLeft(s)| ==> IsSpace(s[i])
  {
    if |s| > 0 && IsSpace(s[0]) {
      StripLeftSpaces(s[1..]);
      forall i | 0 <= i < |s| - |StripLeft(s)|
        ensures IsSpace(s[i])
      {
        if i > 0 {
          assert s[i] == s[1..][i - 1];
        }
      }
    }
  }

  /** Everything StripRight cuts off is white space. */
  lemma {:induction false} StripRightSpaces(s: string)
    ensures forall i :: |StripRight(s)| <= i < |s| ==> IsSpace(s[i])
  {
    if |s| > 0 && IsSpace(s[|s| - 1]) {
      StripRightSpaces(s[..|s| - 1]);
      forall i | |StripRight(s)| <= i < |s|
        ensures IsSpace(s[i])
      {
        if i < |s| - 1 {
          assert s[i] == s[..|s| - 1][i];
        }
      }
    }
  }

  /** `str.strip()`: the text between the leading and the trailing white space. */
  function Strip(s: string): (r: string)
    ensures |r| > 0 ==> !IsSpace(r[0]) && !IsSpace(r[|r| - 1])
  {
    StripRight(StripLeft(s))
  }

  /** Stripping removes white space only: what remains is the slice s[lo..hi] of the text, and
      everything cut off on either side is white space. */
  lemma StripSlice(s: string) returns (lo: nat, hi: nat)
    ensures lo <= hi <= |s| && Strip(s) == s[lo..hi]
    ensures forall i :: 0 <= i < lo ==> IsSpace(s[i])
    ensures forall i :: hi <= i < |s| ==> IsSpace(s[i])
  {
    var l := StripLeft(s);
    var t := StripRight(l);
    assert Strip(s) == t;
    StripLeftSpaces(s);
    StripRightSpaces(l);
    lo := |s| - |l|;
    hi := lo + |t|;
    assert l == s[lo..];
    assert t == l[..|t|];
    assert s[lo..][..|t|] == s[lo..hi];
    forall i | hi <= i < |s|
      ensures IsSpace(s[i])
    {
      assert s[i] == l[i - lo];
    }
  }

  function IndexOfTab(s: string): (k: nat)
    requires '\t' in s
    ensures k < |s| && s[k] == '\t' && '\t' !in s[..k]
  {
    if s[0] == '\t' then 0 else 1 + IndexOfTab(s[1..])
  }

  /** The first tab is the only one with no tab before it. */
  lemma FirstTab(s: string, k: nat)
    requires k < |s| && s[k] == '\t' && '\t' !in s[..k]
    ensures IndexOfTab(s) == k
  {
  }

  /** `str.split('\t')`: the fields between tabs, one more than there are tabs. */
  function SplitTab(s: string): (fields: seq<string>)
    ensures |fields| >= 1
    decreases |s|
  {
    if '\t' !in s then [s]
    else
      var k := IndexOfTab(s);
      [s[..k]] + SplitTab(s[k + 1..])
  }

  /** No field of a split line holds a tab. */
  lemma {:induction false} SplitTabNoTab(s: string)
    ensures forall i :: 0 <= i < |SplitTab(s)| ==> '\t' !in SplitTab(s)[i]
    decreases |s|
  {
    if '\t' in s {
      var k := IndexOfTab(s);
      SplitTabNoTab(s[k + 1..]);
      assert SplitTab(s) == [s[..k]] + SplitTab(s[k + 1..]);
      forall i | 0 <= i < |SplitTab(s)|
        ensures '\t' !in SplitTab(s)[i]
      {
        if i > 0 {
          assert SplitTab(s)[i] == SplitTab(s[k + 1..])[i - 1];
        }
      }
    }
  }

  /** `'\t'.join(fields)` */
  function JoinTab(fields: seq<string>): (r: string)
    requires |fields| >= 1
  {
    if |fields| == 1 then fields[0] else fields[0] + "\t" + JoinTab(fields[1..])
  }

  /** Splitting a line at its tabs and joining the fields again gives the line back. */
  lemma {:induction false} JoinSplitTab(s: string)
    ensures JoinTab(SplitTab(s)) == s
    decreases |s|
  {
    if '\t' in s {
      var k := IndexOfTab(s);
      JoinSplitTab(s[k + 1..]);
      assert s == s[..k] + "\t" + s[k + 1..];
    }
  }

  /** Joining tab-free fields and splitting again gives the fields back. */
  lemma {:induction false} SplitJoinTab(fields: seq<string>)
    requires |fields| >= 1 && forall i :: 0 <= i < |fields| ==> '\t' !in fields[i]
    ensures SplitTab(JoinTab(fields)) == fields
  {
    if |fields| > 1 {
      var f0, rest := fields[0], fields[1..];
      forall i | 0 <= i < |rest|
        ensures '\t' !in rest[i]
      {
        assert rest[i] == fields[i + 1];
      }
      SplitJoinTab(rest);
      var t := JoinTab(rest);
      var s := f0 + "\t" + t;
      assert JoinTab(fields) == s;
      assert s[|f0|] == '\t' && s[..|f0|] == f0 && s[|f0| + 1..] == t;
      FirstTab(s, |f0|);
      assert SplitTab(s) == [f0] + SplitTab(t);
      assert [f0] + rest == fields;
    }
  }

  // ------------------------------------------------------------------
  // What process_sam does with one line

  /** The settings process_sam runs with. */
  datatype Config = Config(readStart: int, target: Target, indicators: seq<Indicator>, cigarMin: int, strict: bool)

  /** How a line leaves the rejection chain. ShortLine is an on-target line with fewer than ten
      fields, which no counter records. A classified read carries its report, its chromosome field
      and the outcome of position_wrapper on it, which only the coding branches consult. */
  datatype RowKind =
    | Header
    | OffTarget
    | CigarFail
    | ShortLine
    | Invalid
    | Dispatched(report: MismatchReport, chrom: string, dna: Outcome<PositionResult>)

  /** The chain of checks one line goes through, in the order of process_sam: a header is skipped,
      any other line is stripped and split at tabs. */
  function RowKindOf(row: string, cfg: Config): (r: Outcome<RowKind>)
    ensures r.Done? ==> (r.value.Header? <==> |row| > 0 && row[0] == '@')
  {
    if |row| > 0 && row[0] == '@' then Done(Header)
    else LineKind(SplitTab(Strip(row)), cfg)
  }

  /** The checks on the fields of a line: start position and chromosome, then the CIGAR filter. */
  function LineKind(line: seq<string>, cfg: Config): (r: Outcome<RowKind>)
    ensures r.Done? ==> !r.value.Header?
  {
    if |line| < 4 then Raises("IndexError")
    else if ParseInt(line[3]).None? then Raises("ValueError")
    else if ParseInt(line[3]).value != cfg.readStart || line[2] != cfg.target.chrom then Done(OffTarget)
    else if |line| < 6 then Raises("IndexError")
    else
      var cig :- FilterMatches(SplitCigar(line[5]), cfg.cigarMin);
      if !cig then Done(CigarFail)
      else ReadKind(line, cfg)
  }

  /** The checks on an on-target read: the CountReads object (get_aa at the read start), then
      the checks of its fields. */
  function ReadKind(line: seq<string>, cfg: Config): (r: Outcome<RowKind>)
    requires |line| >= 6
    ensures r.Done? ==> !r.value.Header?
  {
    var aa :- GetAa(cfg.target, cfg.readStart);
    Checked(line, cfg, aa.other)
  }

  /** The field count, the required edits, and the classification. */
  function Checked(line: seq<string>, cfg: Config, other: OtherSeqs): (r: Outcome<RowKind>)
    requires |line| >= 6
    ensures r.Done? ==> !r.value.Header?
  {
    if !ValidateSamLine(line, cfg.target).value then Done(ShortLine)
    else if !CheckValidity(DnaMismatches(line[9], cfg.target.bases), cfg.target.mmc, cfg.strict) then Done(Invalid)
    else Classified(line[9], line[2], cfg, other)
  }

  /** A read with every required edit: get_mismatch_counts's report, its chromosome field and the
      outcome of position_wrapper. */
  function Classified(bases: string, chrom: string, cfg: Config, other: OtherSeqs): (r: Outcome<RowKind>)
    ensures r.Done? ==> r.value.Dispatched?
  {
    var counted :- MismatchCounts(bases, cfg.target, other);
    Done(Dispatched(counted.1, chrom, PositionWrapper(bases, cfg.target, other, cfg.target.strand)))
  }

  /** The counter a classified read goes to, checked in the order of process_sam: the frameshift
      flag first, then the event type. NoCategory is the final raise. */
  datatype Category = FrameshiftCat | NoChangeCat | TooManyCat | MixedCat | MultiSynCat
                    | NoncodingCat | SynonymousCat | MissenseCat | StopGainCat | NoCategory

  function CategoryOf(report: MismatchReport): (r: Category)
  {
    if report.frameshift then FrameshiftCat
    else if report.eventType == NoChanges then NoChangeCat
    else if report.eventType == TooMany then TooManyCat
    else if report.eventType == Mixed then MixedCat
    else if report.eventType == MultipleSynonymous then MultiSynCat
    else if IsZoneLabel(report.eventType) then NoncodingCat
    else if report.eventType == Synonymous then SynonymousCat
    else if report.eventType == Missense then MissenseCat
    else if report.eventType == StopGain then StopGainCat
    else NoCategory
  }

  /** The counters of SamParser. */
  datatype Tally = Tally(total: nat, offTarget: nat, cigar: nat, invalid: nat, mm: nat, frameshift: nat,
                         nochange: nat, synonymous: nat, missense: nat, stop: nat, mixed: nat,
                         multiSyn: nat, noncoding: nat)

  /** The sum of the category counters. */
  function Categories(t: Tally): (r: nat)
  {
    t.offTarget + t.cigar + t.invalid + t.mm + t.frameshift + t.nochange + t.synonymous + t.missense +
    t.stop + t.mixed + t.multiSyn + t.noncoding
  }

  function Usable(t: Tally): (r: nat)
  {
    t.stop + t.missense + t.synonymous
  }

  const ZeroTally := Tally(0, 0, 0, 0, 0, 0, 0, 0, 0, 0, 0, 0, 0)

  /** The counters and the locus table between two lines. */
  datatype RunState = RunState(counts: Tally, finalDict: map<string, Record>)

  /** The counters with the given category's counter raised by one. */
  function Bump(t: Tally, cat: Category): (r: Tally)
  {
    match cat
    case FrameshiftCat => t.(frameshift := t.frameshift + 1)
    case NoChangeCat => t.(nochange := t.nochange + 1)
    case TooManyCat => t.(mm := t.mm + 1)
    case MixedCat => t.(mixed := t.mixed + 1)
    case MultiSynCat => t.(multiSyn := t.multiSyn + 1)
    case NoncodingCat => t.(noncoding := t.noncoding + 1)
    case SynonymousCat => t.(synonymous := t.synonymous + 1)
    case MissenseCat => t.(missense := t.missense + 1)
    case StopGainCat => t.(stop := t.stop + 1)
    case NoCategory => t
  }

  /** A classified read's counter, and for the reads process_sam keeps an output for, the locus
      table entry: non-coding changes are filed from the report alone, coding changes together
      with position_wrapper's result. */
  function Dispatch(st: RunState, report: MismatchReport, chrom: string, dna: Outcome<PositionResult>, cfg: Config)
    : (r: Outcome<RunState>)
  {
    var cat := CategoryOf(report);
    var t := Bump(st.counts, cat);
    match cat
    case NoCategory => Raises("This should never be reached")
    case NoncodingCat =>
      var s :- Sighting(report, None, chrom, cfg.readStart);
      Done(RunState(t, Recorded(st.finalDict, s.0, s.1)))
    case SynonymousCat | MissenseCat | StopGainCat =>
      var d :- dna;
      var s := Sighting(report, Some(d), chrom, cfg.readStart).value;
      Done(RunState(t, Recorded(st.finalDict, s.0, s.1)))
    case _ => Done(st.(counts := t))
  }

  /** A read that only has a counter leaves the table as it was. */
  lemma DispatchCounter(st: RunState, report: MismatchReport, chrom: string, dna: Outcome<PositionResult>, cfg: Config)
    requires CategoryOf(report) in {FrameshiftCat, NoChangeCat, TooManyCat, MixedCat, MultiSynCat}
    ensures Dispatch(st, report, chrom, dna, cfg) == Done(st.(counts := Bump(st.counts, CategoryOf(report))))
  {
  }

  /** A coding change is filed with position_wrapper's result, whose exception passes through. */
  lemma DispatchCoding(st: RunState, report: MismatchReport, chrom: string, dna: Outcome<PositionResult>, cfg: Config)
    requires CategoryOf(report) in {SynonymousCat, MissenseCat, StopGainCat}
    ensures Dispatch(st, report, chrom, dna, cfg) ==
      if dna.Done? then
        var s := Sighting(report, Some(dna.value), chrom, cfg.readStart).value;
        Done(RunState(Bump(st.counts, CategoryOf(report)), Recorded(st.finalDict, s.0, s.1)))
      else dna.PropagateFailure()
  {
  }

  /** A non-coding change is filed from its report alone. */
  lemma DispatchNoncoding(st: RunState, report: MismatchReport, chrom: string, dna: Outcome<PositionResult>, cfg: Config)
    requires CategoryOf(report) == NoncodingCat
    ensures var s := Sighting(report, None, chrom, cfg.readStart);
      Dispatch(st, report, chrom, dna, cfg) ==
        if s.Done? then Done(RunState(Bump(st.counts, NoncodingCat), Recorded(st.finalDict, s.value.0, s.value.1)))
        else s.PropagateFailure()
  {
  }

  /** A line that is not a header raises total_count by one. */
  function Counted(st: RunState): (r: RunState)
  {
    st.(counts := st.counts.(total := st.counts.total + 1))
  }

  /** The category counter and table entry of a counted line (a header has none). */
  function File(st: RunState, kind: RowKind, cfg: Config): (r: Outcome<RunState>)
  {
    var t := st.counts;
    match kind
    case Header => Done(st)
    case OffTarget => Done(st.(counts := t.(offTarget := t.offTarget + 1)))
    case CigarFail => Done(st.(counts := t.(cigar := t.cigar + 1)))
    case ShortLine => Done(st)
    case Invalid => Done(st.(counts := t.(invalid := t.invalid + 1)))
    case Dispatched(report, chrom, dna) => Dispatch(st, report, chrom, dna, cfg)
  }

  /** Filing the outcome of a chain of checks: an exception passes through. */
  function FileOutcome(st: RunState, kind: Outcome<RowKind>, cfg: Config): (r: Outcome<RunState>)
  {
    var k :- kind;
    File(st, k, cfg)
  }

  /** The counters and table after a line of the given kind: a header changes nothing, every other
      line is counted once in total_count and at most once in a category. */
  function Apply(st: RunState, kind: RowKind, cfg: Config): (r: Outcome<RunState>)
  {
    if kind.Header? then Done(st) else File(Counted(st), kind, cfg)
  }

  /** One line of the run. An exception ends the run. */
  function RowStep(st: RunState, row: string, cfg: Config): (r: Outcome<RunState>)
  {
    var kind :- RowKindOf(row, cfg);
    Apply(st, kind, cfg)
  }

  /** The state after a series of lines, stopping at the first line that raises or never ends. */
  function RunRows(st: RunState, rows: seq<string>, cfg: Config): (r: Outcome<RunState>)
  {
    if |rows| == 0 then Done(st)
    else
      var prev :- RunRows(st, rows[..|rows| - 1], cfg);
      RowStep(prev, rows[|rows| - 1], cfg)
  }

  /** The summary line after the last line: every counter is divided by total_count, so a run that
      counted no line raises ZeroDivisionError. */
  function Summary(st: RunState): (r: Outcome<RunState>)
    ensures r.Raises? <==> st.counts.total == 0
    ensures r.Done? ==> r.value == st
    ensures r.Raises? ==> r.error == "ZeroDivisionError"
  {
    if st.counts.total == 0 then Raises("ZeroDivisionError") else Done(st)
  }

  /** process_sam: the placeholder CountReads object, built with start position 0, runs get_aa
      first; then every line in turn, then the summary. */
  function RunSam(st: RunState, rows: seq<string>, cfg: Config): (r: Outcome<RunState>)
  {
    if GetAa(cfg.target, 0).Raises? then Raises(GetAa(cfg.target, 0).error)
    else
      var end :- RunRows(st, rows, cfg);
      Summary(end)
  }

  // ------------------------------------------------------------------
  // Properties of the dispatch

  /** Lines starting with '@' are skipped without being counted. */
  lemma HeaderSkipped(st: RunState, row: string, cfg: Config)
    requires |row| > 0 && row[0] == '@'
    ensures RowStep(st, row, cfg) == Done(st)
  {
  }

  /** A line whose start position or chromosome is wrong is off target, whatever its CIGAR
      string and its bases: it is counted in total_count and off_target only. */
  lemma OffTargetFirst(st: RunState, row: string, cfg: Config)
    requires !(|row| > 0 && row[0] == '@')
    requires var line := SplitTab(Strip(row));
      |line| >= 4 && ParseInt(line[3]).Some? && (ParseInt(line[3]).value != cfg.readStart || line[2] != cfg.target.chrom)
    ensures RowStep(st, row, cfg) ==
      Done(st.(counts := st.counts.(total := st.counts.total + 1, offTarget := st.counts.offTarget + 1)))
  {
    OffTargetKind(row, cfg);
    ApplyOffTarget(st, cfg);
  }

  lemma ApplyOffTarget(st: RunState, cfg: Config)
    ensures Apply(st, OffTarget, cfg) ==
      Done(st.(counts := st.counts.(total := st.counts.total + 1, offTarget := st.counts.offTarget + 1)))
  {
  }


  /** Any line that is not a header is counted, then filed by the field checks. */
  lemma LineStep(st: RunState, row: string, cfg: Config)
    requires !(|row| > 0 && row[0] == '@')
    ensures RowStep(st, row, cfg) == FileOutcome(Counted(st), LineKind(SplitTab(Strip(row)), cfg), cfg)
  {
  }

  /** An on-target line that passes the CIGAR filter is filed by the read checks. */
  lemma ReadStep(line: seq<string>, cfg: Config)
    requires |line| >= 6 && ParseInt(line[3]) == Some(cfg.readStart) && line[2] == cfg.target.chrom
    requires FilterMatches(SplitCigar(line[5]), cfg.cigarMin) == Done(true)
    ensures LineKind(line, cfg) == ReadKind(line, cfg)
  {
  }

  lemma OffTargetKind(row: string, cfg: Config)
    requires !(|row| > 0 && row[0] == '@')
    requires var line := SplitTab(Strip(row));
      |line| >= 4 && ParseInt(line[3]).Some? && (ParseInt(line[3]).value != cfg.readStart || line[2] != cfg.target.chrom)
    ensures RowKindOf(row, cfg) == Done(OffTarget)
  {
  }

  /** A classified read always has a counter: the frameshift flag goes with the Frameshift event
      only, so the final raise of process_sam is never reached. */
  lemma DispatchComplete(row: string, cfg: Config)
    requires RowKindOf(row, cfg).Done? && RowKindOf(row, cfg).value.Dispatched?
    ensures CategoryOf(RowKindOf(row, cfg).value.report) != NoCategory
  {
    var line := SplitTab(Strip(row));
    DispatchedKind(row, cfg);
    var aa := GetAa(cfg.target, cfg.readStart).value;
    MismatchCountsNoChanges(line[9], cfg.target, aa.other);
    FrameshiftCategory(MismatchCounts(line[9], cfg.target, aa.other).value.1);
  }

  /** A classified line passed every check: it has at least ten fields, starts at the read start,
      get_aa succeeded there, and its report is get_mismatch_counts's. */
  lemma DispatchedKind(row: string, cfg: Config)
    requires RowKindOf(row, cfg).Done? && RowKindOf(row, cfg).value.Dispatched?
    ensures var line := SplitTab(Strip(row));
      |line| >= 10 && ParseInt(line[3]) == Some(cfg.readStart) && GetAa(cfg.target, cfg.readStart).Done? &&
      var other := GetAa(cfg.target, cfg.readStart).value.other;
      MismatchCounts(line[9], cfg.target, other).Done? &&
      RowKindOf(row, cfg).value ==
        Dispatched(MismatchCounts(line[9], cfg.target, other).value.1, line[2],
                   PositionWrapper(line[9], cfg.target, other, cfg.target.strand))
  {
    var line := SplitTab(Strip(row));
    LineKindDispatched(line, cfg);
    ReadKindDispatched(line, cfg);
  }

  lemma FileDispatched(st: RunState, kind: RowKind, cfg: Config)
    requires kind.Dispatched?
    ensures FileOutcome(st, Done(kind), cfg) == Dispatch(st, kind.report, kind.chrom, kind.dna, cfg)
  {
  }

  /** A line classified by the field checks passed them and went on to the read checks. */
  lemma LineKindDispatched(line: seq<string>, cfg: Config)
    requires LineKind(line, cfg).Done? && LineKind(line, cfg).value.Dispatched?
    ensures |line| >= 6 && ParseInt(line[3]) == Some(cfg.readStart) && line[2] == cfg.target.chrom
    ensures LineKind(line, cfg) == ReadKind(line, cfg)
  {
  }

  /** A read classified by the read checks has ten fields, get_aa succeeded on it, and its kind
      is that of its bases. */
  lemma ReadKindDispatched(line: seq<string>, cfg: Config)
    requires |line| >= 6 && ReadKind(line, cfg).Done? && ReadKind(line, cfg).value.Dispatched?
    ensures |line| >= 10 && GetAa(cfg.target, cfg.readStart).Done?
    ensures var other := GetAa(cfg.target, cfg.readStart).value.other;
      MismatchCounts(line[9], cfg.target, other).Done? &&
      ReadKind(line, cfg).value ==
        Dispatched(MismatchCounts(line[9], cfg.target, other).value.1, line[2],
                   PositionWrapper(line[9], cfg.target, other, cfg.target.strand))
  {
  }

  /** With the frameshift flag set exactly for the Frameshift event, every report has a category. */
  lemma FrameshiftCategory(report: MismatchReport)
    requires report.frameshift <==> report.eventType == Frameshift
    ensures CategoryOf(report) != NoCategory
  {
  }

  lemma ApplyCounts(st: RunState, kind: RowKind, cfg: Config)
    requires Apply(st, kind, cfg).Done?
    ensures var t := Apply(st, kind, cfg).value.counts;
      t.total == st.counts.total + (if kind.Header? then 0 else 1) &&
      Categories(st.counts) <= Categories(t) <= Categories(st.counts) + (if kind.Header? then 0 else 1)
  {
  }

  /** Each counted line raises total_count by one and at most one category counter by one. */
  lemma RowStepCounts(st: RunState, row: string, cfg: Config)
    requires RowStep(st, row, cfg).Done?
    ensures var t := RowStep(st, row, cfg).value.counts;
      var header := |row| > 0 && row[0] == '@';
      t.total == st.counts.total + (if header then 0 else 1) &&
      Categories(st.counts) <= Categories(t) <= Categories(st.counts) + (if header then 0 else 1)
  {
    ApplyCounts(st, RowKindOf(row, cfg).value, cfg);
  }

  lemma ApplyFiled(st: RunState, kind: RowKind, cfg: Config)
    requires Apply(st, kind, cfg).Done? && Apply(st, kind, cfg).value.finalDict != st.finalDict
    ensures kind.Dispatched? && CategoryOf(kind.report) in {NoncodingCat, SynonymousCat, MissenseCat, StopGainCat}
  {
  }

  /** Only the six zone labels, Synonymous, Missense and StopGain reach the locus table, and only
      without the frameshift flag; every other line leaves the table as it was. */
  lemma OnlyEventsFiled(st: RunState, row: string, cfg: Config)
    requires RowStep(st, row, cfg).Done?
    ensures RowStep(st, row, cfg).value.finalDict != st.finalDict ==>
      var kind := RowKindOf(row, cfg).value;
      kind.Dispatched? && !kind.report.frameshift &&
      (IsZoneLabel(kind.report.eventType) || kind.report.eventType in {Synonymous, Missense, StopGain})
  {
    if RowStep(st, row, cfg).value.finalDict != st.finalDict {
      var kind := RowKindOf(row, cfg).value;
      ApplyFiled(st, kind, cfg);
      CategoryFiled(kind.report);
    }
  }

  lemma CategoryFiled(report: MismatchReport)
    requires CategoryOf(report) in {NoncodingCat, SynonymousCat, MissenseCat, StopGainCat}
    ensures !report.frameshift && (IsZoneLabel(report.eventType) || report.eventType in {Synonymous, Missense, StopGain})
  {
  }

  /** The category counters never add up to more than total_count. */
  lemma {:induction false} RunRowsConsistent(st: RunState, rows: seq<string>, cfg: Config)
    requires Categories(st.counts) <= st.counts.total
    requires RunRows(st, rows, cfg).Done?
    ensures Categories(RunRows(st, rows, cfg).value.counts) <= RunRows(st, rows, cfg).value.counts.total
  {
    if |rows| > 0 {
      RunRowsConsistent(st, rows[..|rows| - 1], cfg);
      RowStepCounts(RunRows(st, rows[..|rows| - 1], cfg).value, rows[|rows| - 1], cfg);
    }
  }

  /** total_count is the number of lines that are not headers. */
  function NonHeaders(rows: seq<string>): (r: nat)
  {
    if |rows| == 0 then 0
    else NonHeaders(rows[..|rows| - 1]) + (if |rows[|rows| - 1]| > 0 && rows[|rows| - 1][0] == '@' then 0 else 1)
  }

  lemma {:induction false} RunRowsTotal(st: RunState, rows: seq<string>, cfg: Config)
    requires RunRows(st, rows, cfg).Done?
    ensures RunRows(st, rows, cfg).value.counts.total == st.counts.total + NonHeaders(rows)
  {
    if |rows| > 0 {
      RunRowsTotal(st, rows[..|rows| - 1], cfg);
      RowStepCounts(RunRows(st, rows[..|rows| - 1], cfg).value, rows[|rows| - 1], cfg);
    }
  }

  /** A run of header lines only changes nothing. */
  lemma {:induction false} RunRowsHeaders(st: RunState, rows: seq<string>, cfg: Config)
    requires forall i :: 0 <= i < |rows| ==> |rows[i]| > 0 && rows[i][0] == '@'
    ensures RunRows(st, rows, cfg) == Done(st)
  {
    if |rows| > 0 {
      RunRowsHeaders(st, rows[..|rows| - 1], cfg);
      HeaderSkipped(st, rows[|rows| - 1], cfg);
    }
  }

  /** A run whose lines all pass ends with the summary, which raises ZeroDivisionError exactly when
      no line was counted: so a file of header lines only, from zero counters, raises it. */
  lemma RunSamSummary(st: RunState, rows: seq<string>, cfg: Config)
    requires GetAa(cfg.target, 0).Done? && RunRows(st, rows, cfg).Done?
    ensures RunSam(st, rows, cfg).Raises? <==> st.counts.total + NonHeaders(rows) == 0
    ensures RunSam(st, rows, cfg).Raises? ==> RunSam(st, rows, cfg).error == "ZeroDivisionError"
    ensures RunSam(st, rows, cfg).Done? ==> RunSam(st, rows, cfg) == RunRows(st, rows, cfg)
  {
    RunRowsTotal(st, rows, cfg);
  }

  /** With zero counters, an alignment file with no line but headers raises ZeroDivisionError. */
  lemma RunSamNoReads(st: RunState, rows: seq<string>, cfg: Config)
    requires GetAa(cfg.target, 0).Done? && st.counts.total == 0
    requires forall i :: 0 <= i < |rows| ==> |rows[i]| > 0 && rows[i][0] == '@'
    ensures RunSam(st, rows, cfg) == Raises("ZeroDivisionError")
  {
    RunRowsHeaders(st, rows, cfg);
  }

  /** Once a line has raised or never ended, the run has too. */
  lemma {:induction false} RunRowsFailure(st: RunState, rows: seq<string>, k: nat, cfg: Config)
    requires k <= |rows| && RunRows(st, rows[..k], cfg).IsFailure()
    ensures RunRows(st, rows, cfg) == RunRows(st, rows[..k], cfg)
    decreases |rows| - k
  {
    if k < |rows| {
      assert rows[..k + 1][..k] == rows[..k];
      RunRowsFailure(st, rows, k + 1, cfg);
    } else {
      assert rows[..k] == rows;
    }
  }

  // ------------------------------------------------------------------
  // The parser object

  /** A method call's outcome as the model's functions state it: on success no error and the
      given new state; on an exception that exception's message. */
  predicate Reports(r: Outcome<RunState>, error: Option<string>, st: RunState)
  {
    (r.Done? ==> error.None? && st == r.value) && (r.Raises? ==> error == Some(r.error))
  }

  class SamParser {
    const readStart: int
    const targetDict: Target
    const indicatorDict: seq<Indicator>
    const strict: bool
    const cigarMin: int
    const finalDict: LocusTable
    var totalCount: nat
    var offTarget: nat
    var cigarCount: nat
    var invalidCount: nat
    var mmCount: nat
    var frameshiftCount: nat
    var nochangeCount: nat
    var synonymousCount: nat
    var missenseCount: nat
    var stopCount: nat
    var mixedCount: nat
    var multiSynonymousCount: nat
    var noncodingCount: nat
    var usableCount: nat

    function Cfg(): (r: Config)
    {
      Config(readStart, targetDict, indicatorDict, cigarMin, strict)
    }

    function Counts(): (r: Tally)
      reads this
    {
      Tally(totalCount, offTarget, cigarCount, invalidCount, mmCount, frameshiftCount, nochangeCount,
            synonymousCount, missenseCount, stopCount, mixedCount, multiSynonymousCount, noncodingCount)
    }

    function State(): (r: RunState)
      reads this, finalDict
    {
      RunState(Counts(), finalDict.finalDict)
    }

    /** The constructor builds the target and the indicators and checks the arguments; it
        requires the two checks that raise to pass. */
    constructor (args: Args)
      requires Setup(args).Done?
      ensures Cfg() == Config(args.readStart, BuildTargetDict(args), Indicators(args).value, args.cigarMin, args.strict)
      ensures State() == RunState(ZeroTally, map[]) && usableCount == 0
      ensures fresh(finalDict)
    {
      readStart := args.readStart;
      targetDict := BuildTargetDict(args);
      var indicators := BuildIndicatorDict(args);
      indicatorDict := indicators.value;
      strict := args.strict;
      cigarMin := args.cigarMin;
      finalDict := new LocusTable();
      totalCount, offTarget, cigarCount, invalidCount, mmCount, frameshiftCount := 0, 0, 0, 0, 0, 0;
      nochangeCount, synonymousCount, missenseCount, stopCount, mixedCount := 0, 0, 0, 0, 0;
      multiSynonymousCount, noncodingCount, usableCount := 0, 0, 0;
    }

    /** One classified read: its counter, and for the reads with an output, the locus table. */
    method DispatchRead(report: MismatchReport, line: seq<string>, other: OtherSeqs) returns (error: Option<string>)
      requires |line| >= 10
      requires !Dispatch(State(), report, line[2], PositionWrapper(line[9], targetDict, other, targetDict.strand), Cfg()).Hangs?
      modifies this, finalDict
      ensures Reports(Dispatch(old(State()), report, line[2], PositionWrapper(line[9], targetDict, other, targetDict.strand), Cfg()), error, State())
    {
      var cat := CategoryOf(report);
      if cat == NoCategory {
        return Some("This should never be reached");
      }
      CountEvent(report);
      if cat == NoncodingCat {
        DispatchNoncoding(old(State()), report, line[2], PositionWrapper(line[9], targetDict, other, targetDict.strand), Cfg());
        error := finalDict.AddToDict(targetDict.strand, report, None, line[2], readStart);
      } else if cat in {SynonymousCat, MissenseCat, StopGainCat} {
        var dnaResults := PositionWrapper(line[9], targetDict, other, targetDict.strand);
        DispatchCoding(old(State()), report, line[2], dnaResults, Cfg());
        if dnaResults.Raises? {
          return Some(dnaResults.error);
        }
        error := finalDict.AddToDict(targetDict.strand, report, Some(dnaResults.value), line[2], readStart);
      } else {
        DispatchCounter(old(State()), report, line[2], PositionWrapper(line[9], targetDict, other, targetDict.strand), Cfg());
        error := None;
      }
    }

    /** The counter process_sam raises for a classified read, chosen by its tests in its order:
        the frameshift flag first, then the event type. */
    method CountEvent(report: MismatchReport)
      requires CategoryOf(report) != NoCategory
      modifies this
      ensures Counts() == Bump(old(Counts()), CategoryOf(report)) && usableCount == old(usableCount)
    {
      if report.frameshift {
        assert CategoryOf(report) == FrameshiftCat;
        frameshiftCount := frameshiftCount + 1;
      } else if report.eventType == NoChanges {
        assert CategoryOf(report) == NoChangeCat;
        nochangeCount := nochangeCount + 1;
      } else if report.eventType == TooMany {
        assert CategoryOf(report) == TooManyCat;
        mmCount := mmCount + 1;
      } else if report.eventType == Mixed {
        assert CategoryOf(report) == MixedCat;
        mixedCount := mixedCount + 1;
      } else if report.eventType == MultipleSynonymous {
        assert CategoryOf(report) == MultiSynCat;
        multiSynonymousCount := multiSynonymousCount + 1;
      } else if IsZoneLabel(report.eventType) {
        assert CategoryOf(report) == NoncodingCat;
        noncodingCount := noncodingCount + 1;
      } else if report.eventType == Synonymous {
        assert CategoryOf(report) == SynonymousCat;
        synonymousCount := synonymousCount + 1;
      } else if report.eventType == Missense {
        assert CategoryOf(report) == MissenseCat;
        missenseCount := missenseCount + 1;
      } else {
        assert CategoryOf(report) == StopGainCat;
        stopCount := stopCount + 1;
      }
    }

    /** One line of the alignment file: a header is skipped, any other line stripped and split at
        tabs. */
    method ProcessRow(row: string) returns (error: Option<string>)
      requires !RowStep(State(), row, Cfg()).Hangs?
      modifies this, finalDict
      ensures Reports(RowStep(old(State()), row, Cfg()), error, State())
    {
      if |row| > 0 && row[0] == '@' {
        HeaderSkipped(State(), row, Cfg());
        return None;
      }
      var line := SplitTab(Strip(row));
      LineStep(State(), row, Cfg());
      error := ProcessLine(line);
    }

    /** The fields of a line that is not a header: it is counted, then checked for its start
        position, chromosome and CIGAR string. */
    method ProcessLine(line: seq<string>) returns (error: Option<string>)
      requires !FileOutcome(Counted(State()), LineKind(line, Cfg()), Cfg()).Hangs?
      modifies this, finalDict
      ensures Reports(FileOutcome(Counted(old(State())), LineKind(line, Cfg()), Cfg()), error, State())
    {
      if |line| < 4 {
        return Some("IndexError");
      }
      var start := ParseInt(line[3]);
      if start.None? {
        return Some("ValueError");
      }
      totalCount := totalCount + 1;
      if start.value != readStart || line[2] != targetDict.chrom {
        offTarget := offTarget + 1;
        return None;
      }
      if |line| < 6 {
        return Some("IndexError");
      }
      var cig := FilterMatches(SplitCigar(line[5]), cigarMin);
      if cig.Raises? {
        return Some(cig.error);
      }
      if !cig.value {
        cigarCount := cigarCount + 1;
        return None;
      }
      ReadStep(line, Cfg());
      assert State() == Counted(old(State()));
      error := ProcessRead(line);
    }

    /** The part of one line's processing that builds the CountReads object: an on-target read
        that passed the CIGAR filter, already counted in total_count. */
    method ProcessRead(line: seq<string>) returns (error: Option<string>)
      requires |line| >= 6 && ParseInt(line[3]) == Some(readStart)
      requires !FileOutcome(State(), ReadKind(line, Cfg()), Cfg()).Hangs?
      modifies this, finalDict
      ensures Reports(FileOutcome(old(State()), ReadKind(line, Cfg()), Cfg()), error, State())
    {
      var aa := GetAa(targetDict, readStart);
      if aa.Raises? {
        return Some(aa.error);
      }
      var cr := new CountReads(line, indicatorDict, targetDict);
      assert cr.other == aa.value.other;
      assert State() == old(State());
      error := CheckRead(line, cr);
    }

    /** The checks of process_sam on a read with its CountReads object: the field count, then
        the required edits. */
    method CheckRead(line: seq<string>, cr: CountReads) returns (error: Option<string>)
      requires |line| >= 6 && cr.target == targetDict
      requires !FileOutcome(State(), Checked(line, Cfg(), cr.other), Cfg()).Hangs?
      modifies this, finalDict
      ensures Reports(FileOutcome(old(State()), Checked(line, Cfg(), cr.other), Cfg()), error, State())
    {
      var valid := ValidateSamLine(line, targetDict);
      if !valid.value {
        return None;
      }
      var mmc := DnaMismatches(line[9], targetDict.bases);
      if !CheckValidity(mmc, targetDict.mmc, strict) {
        invalidCount := invalidCount + 1;
        return None;
      }
      assert Checked(line, Cfg(), cr.other) == Classified(line[9], line[2], Cfg(), cr.other);
      error := ClassifyRead(line, cr);
    }

    /** A read with every required edit: get_mismatch_counts's report, then its counter and
        locus table entry. */
    method ClassifyRead(line: seq<string>, cr: CountReads) returns (error: Option<string>)
      requires |line| >= 10 && cr.target == targetDict
      requires !FileOutcome(State(), Classified(line[9], line[2], Cfg(), cr.other), Cfg()).Hangs?
      modifies this, finalDict
      ensures Reports(FileOutcome(old(State()), Classified(line[9], line[2], Cfg(), cr.other), Cfg()), error, State())
    {
      var counted := cr.GetMismatchCounts(line[9]);
      if counted.Raises? {
        return Some(counted.error);
      }
      ghost var kind := Dispatched(counted.value.1, line[2], PositionWrapper(line[9], targetDict, cr.other, targetDict.strand));
      assert Classified(line[9], line[2], Cfg(), cr.other) == Done(kind);
      FileDispatched(State(), kind, Cfg());
      error := DispatchRead(counted.value.1, line, cr.other);
    }

    /** process_sam over the lines of the alignment file. The locus table is local to each call
        and starts empty; the counters are fields and carry over. usable_count is set at the end. */
    method ProcessSam(rows: seq<string>) returns (error: Option<string>)
      requires !RunSam(State().(finalDict := map[]), rows, Cfg()).Hangs?
      modifies this, finalDict
      ensures var r := RunSam(old(State()).(finalDict := map[]), rows, Cfg());
        (r.Done? ==> error.None? && State() == r.value && usableCount == Usable(r.value.counts)) &&
        (r.Raises? ==> error == Some(r.error))
    {
      finalDict.finalDict := map[];
      var placeholder := GetAa(targetDict, 0);
      if placeholder.Raises? {
        return Some(placeholder.error);
      }
      ghost var st0 := State();
      for k := 0 to |rows|
        invariant RunRows(st0, rows[..k], Cfg()) == Done(State())
        invariant GetAa(targetDict, 0).Done?
      {
        assert rows[..k + 1][..k] == rows[..k];
        if RunRows(st0, rows[..k + 1], Cfg()).Hangs? {
          RunRowsFailure(st0, rows, k + 1, Cfg());
        }
        var e := ProcessRow(rows[k]);
        if e.Some? {
          RunRowsFailure(st0, rows, k + 1, Cfg());
          return e;
        }
      }
      assert rows[..|rows|] == rows;
      usableCount := stopCount + missenseCount + synonymousCount;
      if totalCount == 0 {
        return Some("ZeroDivisionError");
      }
      return None;
    }
  }
}
