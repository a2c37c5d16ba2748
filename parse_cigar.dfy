/**
 * The CIGAR filter of parse_cigar.py: an alignment descriptor such as "120H31M" is split into
 * its operation letters and its run lengths, paired into a map from operation to length, and a
 * read passes when its M (match) run is long enough.
 */
module ParseCigar {
  import opened PySemantics

  /** Length of the longest prefix of s whose characters are all digits (digit) or all
      non-digits (!digit). */
  function RunLen(s: string, digit: bool): (k: nat)
    ensures k <= |s|
    ensures |s| > 0 && IsDigit(s[0]) == digit ==> k >= 1
    ensures forall i :: 0 <= i < k ==> IsDigit(s[i]) == digit
    ensures k < |s| ==> IsDigit(s[k]) != digit
  {
    if |s| == 0 || IsDigit(s[0]) != digit then 0 else 1 + RunLen(s[1..], digit)
  }

  /** The maximal runs of digits (digit) or of non-digits (!digit) in s, left to right: what
      `filter(None, re.split(...))` keeps when splitting at the other kind of run. */
  function Runs(s: string, digit: bool): (rs: seq<string>)
    ensures forall j :: 0 <= j < |rs| ==> |rs[j]| > 0 && forall i :: 0 <= i < |rs[j]| ==> IsDigit(rs[j][i]) == digit
    decreases |s|
  {
    if |s| == 0 then []
    else if IsDigit(s[0]) != digit then Runs(s[1..], digit)
    else
      var k := RunLen(s, digit);
      [s[..k]] + Runs(s[k..], digit)
  }

  /** `dict(zip(keys, values))` over the first n pairs: later pairs overwrite earlier ones. */
  function ZipMap(keys: seq<string>, values: seq<string>, n: nat): (r: map<string, string>)
    requires n <= |keys| && n <= |values|
  {
    if n == 0 then map[]
    else ZipMap(keys, values, n - 1)[keys[n - 1] := values[n - 1]]
  }

  function Min(a: nat, b: nat): (r: nat) { if a <= b then a else b }

  /** split_cigar: each operation letter run mapped to the digit run in the same place. */
  function SplitCigar(cigar: string): (r: map<string, string>)
  {
    var keys := Runs(cigar, false);
    var values := Runs(cigar, true);
    ZipMap(keys, values, Min(|keys|, |values|))
  }

  /** A key of the zipped map is one of the first n keys, and its value is the one paired with
      its last occurrence among them. */
  lemma {:induction false} ZipMapLastWins(keys: seq<string>, values: seq<string>, n: nat, k: string)
    requires n <= |keys| && n <= |values|
    ensures k in ZipMap(keys, values, n) <==> exists j :: 0 <= j < n && keys[j] == k
    ensures forall j :: 0 <= j < n && keys[j] == k && (forall l :: j < l < n ==> keys[l] != k) ==>
      k in ZipMap(keys, values, n) && ZipMap(keys, values, n)[k] == values[j]
  {
    if n > 0 {
      ZipMapLastWins(keys, values, n - 1, k);
      if keys[n - 1] != k {
        forall j | 0 <= j < n && keys[j] == k
          ensures j < n - 1
        {
        }
      }
    }
  }

  /** One operation of a CIGAR string: a length and a letter. */
  datatype CigarOp = CigarOp(len: nat, op: char)

  predicate WellFormed(ops: seq<CigarOp>)
  {
    forall i :: 0 <= i < |ops| ==> !IsDigit(ops[i].op)
  }

  /** The CIGAR text of a list of operations, e.g. [(120, 'H'), (31, 'M')] gives "120H31M". */
  function Render(ops: seq<CigarOp>): (r: string)
  {
    if |ops| == 0 then "" else NatToStr(ops[0].len) + [ops[0].op] + Render(ops[1..])
  }

  function Letters(ops: seq<CigarOp>): (ks: seq<string>)
    ensures |ks| == |ops| && forall i :: 0 <= i < |ops| ==> ks[i] == [ops[i].op]
  {
    if |ops| == 0 then [] else [[ops[0].op]] + Letters(ops[1..])
  }

  function Lengths(ops: seq<CigarOp>): (vs: seq<string>)
    ensures |vs| == |ops| && forall i :: 0 <= i < |ops| ==> vs[i] == NatToStr(ops[i].len)
  {
    if |ops| == 0 then [] else [NatToStr(ops[0].len)] + Lengths(ops[1..])
  }

  /** Characters of the wrong kind at the front are skipped. */
  lemma {:induction false} RunsSkip(d: string, t: string, digit: bool)
    requires forall i :: 0 <= i < |d| ==> IsDigit(d[i]) != digit
    ensures Runs(d + t, digit) == Runs(t, digit)
  {
    if |d| > 0 {
      assert (d + t)[0] == d[0];
      assert (d + t)[1..] == d[1..] + t;
      RunsSkip(d[1..], t, digit);
    } else {
      assert d + t == t;
    }
  }

  /** A run followed by a character of the other kind (or by nothing) is taken whole. */
  lemma {:induction false} RunLenPrefix(d: string, t: string, digit: bool)
    requires forall i :: 0 <= i < |d| ==> IsDigit(d[i]) == digit
    requires |t| > 0 ==> IsDigit(t[0]) != digit
    ensures RunLen(d + t, digit) == |d|
  {
    if |d| > 0 {
      assert (d + t)[1..] == d[1..] + t;
      RunLenPrefix(d[1..], t, digit);
    }
  }

  lemma RenderStartsWithDigit(ops: seq<CigarOp>)
    ensures |Render(ops)| > 0 ==> IsDigit(Render(ops)[0])
  {
    if |ops| > 0 {
      assert Render(ops)[0] == NatToStr(ops[0].len)[0];
    }
  }

  /** The letter runs of a rendered CIGAR are its operation letters, and its digit runs are its
      lengths in decimal. */
  lemma {:induction false} RunsOfRender(ops: seq<CigarOp>)
    requires WellFormed(ops)
    ensures Runs(Render(ops), false) == Letters(ops)
    ensures Runs(Render(ops), true) == Lengths(ops)
  {
    if |ops| > 0 {
      var d := NatToStr(ops[0].len);
      var c := ops[0].op;
      var rest := Render(ops[1..]);
      assert Render(ops) == d + ([c] + rest);
      RunsOfRender(ops[1..]);
      RenderStartsWithDigit(ops[1..]);
      // letters: the digits are skipped, then the letter is a run of its own
      RunsSkip(d, [c] + rest, false);
      RunLenPrefix([c], rest, false);
      assert ([c] + rest)[1..] == rest;
      // digits: the length is a run of its own, then the letter is skipped
      RunLenPrefix(d, [c] + rest, true);
      assert (d + ([c] + rest))[..|d|] == d;
      assert (d + ([c] + rest))[|d|..] == [c] + rest;
      RunsSkip([c], rest, true);
    }
  }

  /** split_cigar of a well-formed CIGAR maps every operation letter to the length of its last
      occurrence, and holds no other key. */
  lemma SplitCigarRender(ops: seq<CigarOp>, j: nat)
    requires WellFormed(ops) && j < |ops|
    requires forall l :: j < l < |ops| ==> ops[l].op != ops[j].op
    ensures [ops[j].op] in SplitCigar(Render(ops))
    ensures SplitCigar(Render(ops))[[ops[j].op]] == NatToStr(ops[j].len)
  {
    RunsOfRender(ops);
    var ks := Letters(ops);
    ZipMapLastWins(ks, Lengths(ops), |ops|, [ops[j].op]);
  }

  lemma SplitCigarKeys(ops: seq<CigarOp>, k: string)
    requires WellFormed(ops)
    ensures k in SplitCigar(Render(ops)) <==> exists j :: 0 <= j < |ops| && k == [ops[j].op]
  {
    RunsOfRender(ops);
    ZipMapLastWins(Letters(ops), Lengths(ops), |ops|, k);
  }

  /** trim_soft: (0, M length) when the CIGAR opens with M, or with S or H followed by M, and
      (None, None) otherwise. Reading a missing key or value raises IndexError, a length `int`
      cannot read raises ValueError. */
  function TrimSoft(keys: seq<string>, values: seq<string>): (r: Outcome<(Option<int>, Option<int>)>)
    ensures !r.Hangs?
    ensures |keys| == 0 ==> r.Raises?
    ensures r.Done? && r.value.0.Some? ==> r.value.0.value == 0
    ensures r.Done? && r.value.0.None? <==>
      |keys| > 0 && keys[0] != "M" && (keys[0] == "S" || keys[0] == "H" ==> |keys| > 1 && keys[1] != "M")
  {
    if |keys| == 0 then Raises("IndexError")
    else if keys[0] == "M" then
      if |values| == 0 then Raises("IndexError")
      else if ParseInt(values[0]).None? then Raises("ValueError")
      else Done((Some(0), Some(ParseInt(values[0]).value)))
    else if keys[0] == "S" || keys[0] == "H" then
      if |keys| < 2 then Raises("IndexError")
      else if keys[1] == "M" then
        if |values| < 2 then Raises("IndexError")
        else if ParseInt(values[1]).None? then Raises("ValueError")
        else Done((Some(0), Some(ParseInt(values[1]).value)))
      else Done((None, None))
    else Done((None, None))
  }

  /** trim_soft on a split well-formed CIGAR: the M length for M..., S M... and H M..., (None,
      None) for any other first operation, IndexError for an empty CIGAR or a lone S or H. */
  lemma TrimSoftRender(ops: seq<CigarOp>)
    requires WellFormed(ops)
    ensures var r := TrimSoft(Runs(Render(ops), false), Runs(Render(ops), true));
      (|ops| == 0 ==> r.Raises?) &&
      (|ops| > 0 && ops[0].op == 'M' ==> r == Done((Some(0), Some(ops[0].len)))) &&
      (|ops| > 1 && (ops[0].op == 'S' || ops[0].op == 'H') && ops[1].op == 'M' ==> r == Done((Some(0), Some(ops[1].len)))) &&
      (|ops| > 1 && (ops[0].op == 'S' || ops[0].op == 'H') && ops[1].op != 'M' ==> r == Done((None, None))) &&
      (|ops| == 1 && (ops[0].op == 'S' || ops[0].op == 'H') ==> r.Raises?) &&
      (|ops| > 0 && ops[0].op != 'M' && ops[0].op != 'S' && ops[0].op != 'H' ==> r == Done((None, None)))
  {
    RunsOfRender(ops);
    var ks := Letters(ops);
    if |ops| > 0 {
      DigitsNatToStr(ops[0].len);
      assert ks[0] == "M" <==> ops[0].op == 'M';
      assert ks[0] == "S" <==> ops[0].op == 'S';
      assert ks[0] == "H" <==> ops[0].op == 'H';
    }
    if |ops| > 1 {
      DigitsNatToStr(ops[1].len);
      assert ks[1] == "M" <==> ops[1].op == 'M';
    }
  }

  /** filter_matches: passes exactly when there is an M entry whose length is at least
      minMatches; an M entry `int` cannot read raises ValueError. */
  function FilterMatches(cigarDict: map<string, string>, minMatches: int): (r: Outcome<bool>)
    ensures !r.Hangs?
    ensures "M" !in cigarDict ==> r == Done(false)
    ensures "M" in cigarDict ==> (r.Raises? <==> ParseInt(cigarDict["M"]).None?)
    ensures r == Done(true) <==> "M" in cigarDict && ParseInt(cigarDict["M"]).Some? && ParseInt(cigarDict["M"]).value >= minMatches
  {
    if "M" in cigarDict then
      var m := ParseInt(cigarDict["M"]);
      if m.None? then Raises("ValueError")
      else Done(m.value >= minMatches)
    else Done(false)
  }

  /** A read that passes at one minimum passes at every smaller one. */
  lemma FilterMatchesMonotone(cigarDict: map<string, string>, m1: int, m2: int)
    requires m2 <= m1 && FilterMatches(cigarDict, m1) == Done(true)
    ensures FilterMatches(cigarDict, m2) == Done(true)
  {
  }

  /** On a split CIGAR string the filter never raises: every length is a run of ASCII digits. */
  lemma FilterMatchesSplit(cigar: string, minMatches: int)
    ensures FilterMatches(SplitCigar(cigar), minMatches).Done?
  {
    var keys := Runs(cigar, false);
    var values := Runs(cigar, true);
    var n := Min(|keys|, |values|);
    if "M" in SplitCigar(cigar) {
      ZipMapValues(keys, values, n);
    }
  }

  lemma {:induction false} ZipMapValues(keys: seq<string>, values: seq<string>, n: nat)
    requires n <= |keys| && n <= |values|
    ensures forall k :: k in ZipMap(keys, values, n) ==> exists j :: 0 <= j < n && ZipMap(keys, values, n)[k] == values[j]
  {
    if n > 0 {
      ZipMapValues(keys, values, n - 1);
      var m := ZipMap(keys, values, n);
      forall k | k in m
        ensures exists j :: 0 <= j < n && m[k] == values[j]
      {
        if k != keys[n - 1] {
          assert k in ZipMap(keys, values, n - 1);
          var j :| 0 <= j < n - 1 && ZipMap(keys, values, n - 1)[k] == values[j];
          assert m[k] == values[j];
        } else {
          assert m[k] == values[n - 1];
        }
      }
    }
  }

  /** A read whose CIGAR is a well-formed operation list passes exactly when its last M run is at
      least minMatches long. */
  lemma FilterMatchesRender(ops: seq<CigarOp>, j: nat, minMatches: int)
    requires WellFormed(ops) && j < |ops| && ops[j].op == 'M'
    requires forall l :: j < l < |ops| ==> ops[l].op != 'M'
    ensures FilterMatches(SplitCigar(Render(ops)), minMatches) == Done(ops[j].len >= minMatches)
  {
    SplitCigarRender(ops, j);
    assert [ops[j].op] == "M";
    DigitsNatToStr(ops[j].len);
  }
}
