/**
 * The data handling behind the batch summary sheet: the trays are put in alphabetical order
 * through an index array, the plot is split into batches (the part of a tray name before its
 * first '-'), the manufacturer's nominal breakdown voltages are matched to the trays by name,
 * and each tray's results are laid out on a grid of 15 test sets by 32 cassette positions.
 * Drawing, fonts and file output are not modelled.
 */
module BatchSummary {
  import opened Config
  import opened Numeric
  import opened Text
  import opened Records
  import opened Reader
  import opened Statistics

  // ---------------------------------------------------------------------------------------
  // Alphabetical order of the trays
  // ---------------------------------------------------------------------------------------

  /** order lists every position 0..n-1 exactly once. */
  predicate IsPermutation(order: seq<int>, n: nat) {
    |order| == n
    && (forall k :: 0 <= k < n ==> 0 <= order[k] < n)
    && (forall a, b :: 0 <= a < b < n ==> order[a] != order[b])
  }

  /** Every position order names is a tray. */
  predicate Names(trays: seq<string>, order: seq<int>) {
    forall k :: 0 <= k < |order| ==> 0 <= order[k] < |trays|
  }

  /** The trays order names come in ascending std::string::compare order. */
  predicate AscendingBy(trays: seq<string>, order: seq<int>)
    requires Names(trays, order)
  {
    forall a, b :: 0 <= a < b < |order| ==> Compare(trays[order[a]], trays[order[b]]) <= 0
  }

  /** The tray names in the order given. */
  function Arranged(trays: seq<string>, order: seq<int>): (sorted: seq<string>)
    requires Names(trays, order)
    ensures |sorted| == |order|
    ensures forall k :: 0 <= k < |order| ==> sorted[k] == trays[order[k]]
  {
    seq(|order|, k requires 0 <= k < |order| => trays[order[k]])
  }

  /** Positions before i hold their final trays: each is no later than any tray after it. */
  predicate Settled(trays: seq<string>, order: seq<int>, i: int) {
    Names(trays, order)
    && forall a, b :: 0 <= a < i && a < b < |order| ==> Compare(trays[order[a]], trays[order[b]]) <= 0
  }

  /**
   * The tray reshuffle index: a selection sort of the positions 0..n-1 by tray name, where n
   * is the number of IV records. Naming a tray beyond the tray list throws std::out_of_range.
   */
  method ReshuffleIndex(trays: seq<string>, n: nat) returns (res: Result<seq<int>>)
    ensures res.Err? <==> n > |trays|
    ensures res.Err? ==> res.error == OutOfRange
    ensures res.Ok? ==> IsPermutation(res.value, n) && Names(trays, res.value)
    ensures res.Ok? ==> AscendingBy(trays, res.value)
  {
    if n > |trays| {
      return Err(OutOfRange);
    }
    var idx := new int[n](k => k);
    for i := 0 to n
      invariant IsPermutation(idx[..], n)
      invariant Settled(trays, idx[..], i)
    {
      PlaceSmallest(trays, idx, i);
    }
    return Ok(idx[..]);
  }

  /**
   * One pass of the outer loop: position i keeps the smallest name seen so far among the
   * later positions and trades places with each smaller one it meets.
   */
  method PlaceSmallest(trays: seq<string>, idx: array<int>, i: nat)
    requires i < idx.Length <= |trays|
    requires IsPermutation(idx[..], idx.Length) && Settled(trays, idx[..], i)
    modifies idx
    ensures IsPermutation(idx[..], idx.Length) && Settled(trays, idx[..], i + 1)
  {
    var n := idx.Length;
    var ref := trays[idx[i]];
    for j := i + 1 to n
      invariant IsPermutation(idx[..], n) && Settled(trays, idx[..], i)
      invariant ref == trays[idx[i]]
      invariant forall k :: i < k < j ==> Compare(ref, trays[idx[k]]) <= 0
    {
      if Compare(ref, trays[idx[j]]) > 0 {
        var smaller := trays[idx[j]];
        CompareFlip(ref, smaller);
        forall k | i < k < j
          ensures Compare(smaller, trays[idx[k]]) <= 0
        {
          CompareTransitive(smaller, ref, trays[idx[k]]);
        }
        ref := smaller;
        SwapKeepsOrder(idx[..], i, j, trays);
        idx[i], idx[j] := idx[j], idx[i];
      }
    }
    assert Settled(trays, idx[..], i + 1) by {
      var s := idx[..];
      forall a, b | 0 <= a < i + 1 && a < b < n
        ensures Compare(trays[s[a]], trays[s[b]]) <= 0
      {
        if a == i {
          assert trays[s[a]] == ref;
        }
      }
    }
  }

  /** Trading two positions at or after i keeps a permutation and the settled prefix before i. */
  lemma SwapKeepsOrder(s: seq<int>, i: int, j: int, trays: seq<string>)
    requires 0 <= i < j < |s| <= |trays|
    requires IsPermutation(s, |s|) && Settled(trays, s, i)
    ensures IsPermutation(s[i := s[j]][j := s[i]], |s|) && Settled(trays, s[i := s[j]][j := s[i]], i)
  {
    var n := |s|;
    var swapped := s[i := s[j]][j := s[i]];
    forall a, b | 0 <= a < b < n
      ensures swapped[a] != swapped[b]
    {
      assert swapped[a] == s[if a == i then j else if a == j then i else a];
      assert swapped[b] == s[if b == i then j else if b == j then i else b];
    }
    forall a, b | 0 <= a < i && a < b < n
      ensures Compare(trays[swapped[a]], trays[swapped[b]]) <= 0
    {
      var b' := if b == i then j else if b == j then i else b;
      assert swapped[b] == s[b'] && swapped[a] == s[a];
    }
  }

  // ---------------------------------------------------------------------------------------
  // Batches
  // ---------------------------------------------------------------------------------------

  /** The batch of a tray: what std::getline(stream, batch, '-') reads, the text before the first '-'. */
  function BatchKey(tray: string): (key: string)
    ensures StartsWith(tray, key)
    ensures '-' !in key
    ensures |key| < |tray| ==> tray[|key|] == '-'
  {
    tray[..IndexOf(tray, '-')]
  }

  /** A tray named <batch>-<number> belongs to <batch>. */
  lemma BatchKeyOfName(batch: string, rest: string)
    requires '-' !in batch
    ensures BatchKey(batch + "-" + rest) == batch
  {
    IndexOfAppend(batch, "-" + rest, '-');
    assert batch + "-" + rest == batch + ("-" + rest);
    assert IndexOf(batch, '-') == |batch|;
    assert (batch + ("-" + rest))[..|batch|] == batch;
  }

  /** The positions 1 <= i < |sorted| where the batch differs from the tray before: where a delimiter line is drawn. */
  function Delimiters(sorted: seq<string>): seq<int> {
    if |sorted| <= 1 then []
    else
      Delimiters(sorted[..|sorted| - 1])
      + (if BatchKey(sorted[|sorted| - 1]) != BatchKey(sorted[|sorted| - 2]) then [|sorted| - 1] else [])
  }

  /** A delimiter stands at i exactly when the batch changes there. */
  lemma {:induction false} DelimiterAt(sorted: seq<string>, i: int)
    ensures i in Delimiters(sorted) <==> 1 <= i < |sorted| && BatchKey(sorted[i]) != BatchKey(sorted[i - 1])
  {
    if |sorted| > 1 {
      var last := |sorted| - 1;
      var front := sorted[..last];
      DelimiterAt(front, i);
      var tail := if BatchKey(sorted[last]) != BatchKey(sorted[last - 1]) then [last] else [];
      assert Delimiters(sorted) == Delimiters(front) + tail;
      if 1 <= i < last {
        assert front[i] == sorted[i] && front[i - 1] == sorted[i - 1];
      }
    }
  }

  /** The delimiters are exactly the batch changes, in increasing order. */
  lemma {:induction false} DelimitersMembers(sorted: seq<string>)
    ensures forall i :: i in Delimiters(sorted) <==> 1 <= i < |sorted| && BatchKey(sorted[i]) != BatchKey(sorted[i - 1])
    ensures forall a, b :: 0 <= a < b < |Delimiters(sorted)| ==> Delimiters(sorted)[a] < Delimiters(sorted)[b]
  {
    forall i
      ensures i in Delimiters(sorted) <==> 1 <= i < |sorted| && BatchKey(sorted[i]) != BatchKey(sorted[i - 1])
    {
      DelimiterAt(sorted, i);
    }
    if |sorted| > 1 {
      var last := |sorted| - 1;
      var front := sorted[..last];
      DelimitersMembers(front);
      var ds := Delimiters(front);
      var all := Delimiters(sorted);
      assert all == ds + (if BatchKey(sorted[last]) != BatchKey(sorted[last - 1]) then [last] else []);
      forall a, b | 0 <= a < b < |all|
        ensures all[a] < all[b]
      {
        if b >= |ds| {
          DelimiterAt(front, ds[a]);
          assert all[a] == ds[a] && ds[a] in ds;
        }
      }
    }
  }

  lemma DelimitersStep(sorted: seq<string>, i: nat)
    requires 1 <= i < |sorted|
    ensures Delimiters(sorted[..i + 1])
            == Delimiters(sorted[..i]) + (if BatchKey(sorted[i]) != BatchKey(sorted[i - 1]) then [i] else [])
  {
    assert sorted[..i + 1][..i] == sorted[..i];
  }

  /** A batch label on the plot: the batch name and the bin where it is written. */
  datatype BatchLabel = BatchLabel(batch: string, start: real)

  /** The first sorted position of the k-th batch, given the delimiters ds. */
  function BatchStart(ds: seq<int>, k: nat): int
    requires k <= |ds|
  {
    if k == 0 then 0 else ds[k - 1]
  }

  /** The label of the k-th batch: its name at its first position (half a bin in for the first batch). */
  function LabelOf(sorted: seq<string>, ds: seq<int>, k: nat): BatchLabel
    requires k <= |ds| && 0 <= BatchStart(ds, k) < |sorted|
  {
    BatchLabel(BatchKey(sorted[BatchStart(ds, k)]), if k == 0 then 0.5 else ds[k - 1] as real)
  }

  /** The last two trays share a batch, so the final batch is labelled when the last tray is reached. */
  predicate LastBatchShared(sorted: seq<string>) {
    |sorted| >= 2 && BatchKey(sorted[|sorted| - 1]) == BatchKey(sorted[|sorted| - 2])
  }

  /** labels are the labels of the first |labels| batches the delimiters ds mark. */
  predicate LabelsMatch(sorted: seq<string>, ds: seq<int>, labels: seq<BatchLabel>) {
    |labels| <= |ds| + 1
    && forall k :: 0 <= k < |labels| ==> 0 <= BatchStart(ds, k) < |sorted| && labels[k] == LabelOf(sorted, ds, k)
  }

  /** Labelling the batch that starts at the last delimiter. */
  lemma LabelsAppend(sorted: seq<string>, ds: seq<int>, labels: seq<BatchLabel>, batch: string, start: real)
    requires LabelsMatch(sorted, ds, labels) && |labels| == |ds|
    requires 0 <= BatchStart(ds, |ds|) < |sorted| && batch == BatchKey(sorted[BatchStart(ds, |ds|)])
    requires start == if |ds| == 0 then 0.5 else ds[|ds| - 1] as real
    ensures LabelsMatch(sorted, ds, labels + [BatchLabel(batch, start)])
  {
  }

  /** A new delimiter leaves the labels of the batches before it as they are. */
  lemma LabelsKept(sorted: seq<string>, ds: seq<int>, labels: seq<BatchLabel>, d: int)
    requires LabelsMatch(sorted, ds, labels) && |labels| <= |ds| + 1
    ensures LabelsMatch(sorted, ds + [d], labels)
  {
    forall k | 0 <= k < |labels|
      ensures BatchStart(ds + [d], k) == BatchStart(ds, k)
    {
    }
  }

  /**
   * The batch delimiter loop: a line at every batch change; each batch is labelled when the
   * next one begins, and the final batch only when the last tray shares its batch with the
   * one before.
   */
  method BatchDelimiters(sorted: seq<string>) returns (lines: seq<int>, labels: seq<BatchLabel>)
    ensures lines == Delimiters(sorted)
    ensures forall k :: 0 <= k < |lines| ==> 1 <= lines[k] < |sorted|
    ensures |labels| == |lines| + (if LastBatchShared(sorted) then 1 else 0)
    ensures LabelsMatch(sorted, lines, labels)
  {
    lines, labels := [], [];
    if |sorted| == 0 {
      return;
    }
    var last := BatchKey(sorted[0]);
    var start: real := 0.5;
    var n := |sorted|;
    for i := 1 to n
      invariant lines == Delimiters(sorted[..i])
      invariant last == BatchKey(sorted[i - 1])
      invariant 0 <= BatchStart(lines, |lines|) < i && last == BatchKey(sorted[BatchStart(lines, |lines|)])
      invariant i < n ==> start == if |lines| == 0 then 0.5 else lines[|lines| - 1] as real
      invariant |labels| == |lines| + (if i == n && LastBatchShared(sorted) then 1 else 0)
      invariant LabelsMatch(sorted, lines, labels)
    {
      DelimitersStep(sorted, i);
      var next := BatchKey(sorted[i]);
      if last != next || i == n - 1 {
        LabelsAppend(sorted, lines, labels, last, start);
        labels := labels + [BatchLabel(last, start)];
        if last != next {
          LabelsKept(sorted, lines, labels, i);
          lines := lines + [i];
        }
        last := next;
        start := i as real;
      }
    }
    assert sorted[..n] == sorted;
    forall k | 0 <= k < |lines|
      ensures 1 <= lines[k] < |sorted|
    {
      DelimiterAt(sorted, lines[k]);
    }
  }

  // ---------------------------------------------------------------------------------------
  // Nominal breakdown voltages
  // ---------------------------------------------------------------------------------------

  /** A token of a nominal-data line that is read: not empty and not starting with '#'. */
  predicate Kept(entry: string) {
    |entry| > 0 && entry[0] != '#'
  }

  /** The read tokens, in order. */
  function KeptTokens(ts: seq<string>): (ks: seq<string>)
    ensures forall k :: 0 <= k < |ks| ==> Kept(ks[k])
  {
    if |ts| == 0 then []
    else KeptTokens(ts[..|ts| - 1]) + (if Kept(ts[|ts| - 1]) then [ts[|ts| - 1]] else [])
  }

  lemma KeptStep(ts: seq<string>, i: nat)
    requires i < |ts|
    ensures KeptTokens(ts[..i + 1]) == KeptTokens(ts[..i]) + (if Kept(ts[i]) then [ts[i]] else [])
  {
    assert ts[..i + 1][..i] == ts[..i];
  }

  /** Reading fewer tokens reads a prefix of the kept ones. */
  lemma {:induction false} KeptPrefix(ts: seq<string>, i: nat)
    requires i <= |ts|
    ensures KeptTokens(ts[..i]) <= KeptTokens(ts)
    decreases |ts|
  {
    if i < |ts| {
      var front := ts[..|ts| - 1];
      assert front[..i] == ts[..i];
      KeptPrefix(front, i);
    } else {
      assert ts[..i] == ts;
    }
  }

  /** The tray name and nominal value of a line: its first two read tokens, "" where there are fewer. */
  function NominalPair(line: string): (string, string) {
    var ks := KeptTokens(Tokens(line, ' '));
    (if |ks| > 0 then ks[0] else "", if |ks| > 1 then ks[1] else "")
  }

  /**
   * Splits a line of the nominal-data file on single spaces: empty tokens (repeated spaces)
   * and tokens starting with '#' are passed over, the first two others are kept, and the
   * reading stops at the third.
   */
  method NominalFields(line: string) returns (name: string, value: string)
    ensures (name, value) == NominalPair(line)
  {
    var entries := Tokens(line, ' ');
    name, value := "", "";
    var i := 0;
    while i < |entries|
      invariant 0 <= i <= |entries|
      invariant |KeptTokens(entries[..i])| <= 2
      invariant name == if |KeptTokens(entries[..i])| > 0 then KeptTokens(entries[..i])[0] else ""
      invariant value == if |KeptTokens(entries[..i])| > 1 then KeptTokens(entries[..i])[1] else ""
    {
      var entry := entries[i];
      KeptStep(entries, i);
      if |entry| == 0 || entry[0] == '#' {
        i := i + 1;
      } else if name == "" {
        name := entry;
        i := i + 1;
      } else if value == "" {
        value := entry;
        i := i + 1;
      } else {
        KeptPrefix(entries, i);
        return;
      }
    }
    assert entries[..i] == entries;
  }

  /** std::getline on ' ' reads a space-free word and then carries on after the space. */
  lemma TokensAfterWord(a: string, rest: string)
    requires ' ' !in a && |rest| > 0
    ensures Tokens(a + " " + rest, ' ') == [a] + Tokens(rest, ' ')
  {
    var s := a + " " + rest;
    assert s == a + (" " + rest);
    IndexOfAppend(a, " " + rest, ' ');
    assert IndexOf(a, ' ') == |a|;
    assert s[..|a|] == a && s[|a| + 1..] == rest;
  }

  /** A space-free word is a single token. */
  lemma TokensOfWord(a: string)
    requires ' ' !in a && |a| > 0
    ensures Tokens(a, ' ') == [a]
  {
    assert IndexOf(a, ' ') == |a|;
  }

  /** "<tray> <voltage>" gives the tray and the voltage. */
  lemma NominalPairOfLine(tray: string, voltage: string)
    requires ' ' !in tray && ' ' !in voltage && Kept(tray) && Kept(voltage)
    ensures NominalPair(tray + " " + voltage) == (tray, voltage)
  {
    TokensAfterWord(tray, voltage);
    TokensOfWord(voltage);
    var ts := [tray, voltage];
    assert Tokens(tray + " " + voltage, ' ') == ts;
    assert ts[..1] == [tray];
    assert [tray][..0] == [];
    assert KeptTokens([tray]) == [tray];
    assert KeptTokens(ts) == ts;
  }

  /** A '#' token is passed over but does not end the line: the token after it is still read. */
  lemma NominalPairReadsPastHash(tray: string, note: string, voltage: string)
    requires ' ' !in tray && ' ' !in note && ' ' !in voltage
    requires Kept(tray) && Kept(voltage) && |note| > 0 && note[0] == '#'
    ensures NominalPair(tray + " " + note + " " + voltage) == (tray, voltage)
  {
    assert Tokens(tray + " " + note + " " + voltage, ' ') == [tray, note, voltage] by {
      assert tray + " " + note + " " + voltage == tray + " " + (note + " " + voltage);
      TokensAfterWord(tray, note + " " + voltage);
      TokensAfterWord(note, voltage);
      TokensOfWord(voltage);
    }
    assert KeptTokens([tray, note, voltage]) == [tray, voltage] by {
      var ts := [tray, note, voltage];
      assert ts[..2] == [tray, note];
      assert [tray, note][..1] == [tray];
      assert [tray][..0] == [];
      assert KeptTokens([tray]) == [tray];
      assert KeptTokens([tray, note]) == [tray];
    }
  }

  /** What the three nominal histograms hold for one sorted position. */
  datatype NominalBin =
    | NoNominal
    | Nominal(voltage: real, diffVpeak: Double, diffVbd: Double)

  /**
   * The bins of a tray whose nominal line gives v: the nominal bin v - 4 and the tray's
   * averages less v, plus 4.
   */
  function NominalFor(v: real, avgVpeak: Double, avgVbd: Double): NominalBin {
    Nominal(v - 4.0, Plus(avgVpeak, Finite(4.0 - v)), Plus(avgVbd, Finite(4.0 - v)))
  }

  /** Each difference histogram shows the tray's average less what the nominal histogram shows. */
  lemma NominalDifference(v: real, vp: real, vb: real)
    ensures var bin := NominalFor(v, Finite(vp), Finite(vb));
            bin.diffVpeak == Finite(vp - bin.voltage) && bin.diffVbd == Finite(vb - bin.voltage)
  {
  }

  /**
   * What a nominal line naming name with value parsed does to the bins: every position of that
   * tray is set, and a value std::stof could not read throws when the first one is found.
   */
  function ApplyNamed(bins: seq<NominalBin>, name: string, parsed: Result<real>, sorted: seq<string>, vp: seq<Double>, vb: seq<Double>)
    : (r: Result<seq<NominalBin>>)
    requires |bins| == |sorted| == |vp| == |vb|
    ensures r.Ok? ==> |r.value| == |bins|
  {
    if name !in sorted then Ok(bins)
    else
      match parsed
      case Err(e) => Err(e)
      case Ok(v) =>
        Ok(seq(|bins|, i requires 0 <= i < |bins| => if sorted[i] == name then NominalFor(v, vp[i], vb[i]) else bins[i]))
  }

  /** What one line of the nominal file does to the bins. */
  function ApplyNominalLine(bins: seq<NominalBin>, line: string, sorted: seq<string>, vp: seq<Double>, vb: seq<Double>)
    : (r: Result<seq<NominalBin>>)
    requires |bins| == |sorted| == |vp| == |vb|
  {
    ApplyNamed(bins, NominalPair(line).0, Stof(NominalPair(line).1), sorted, vp, vb)
  }

  /** The bins after the nominal file's lines have been read in order; std::stof failing ends it. */
  function NominalTable(lines: seq<string>, sorted: seq<string>, vp: seq<Double>, vb: seq<Double>)
    : (r: Result<seq<NominalBin>>)
    requires |sorted| == |vp| == |vb|
    ensures r.Ok? ==> |r.value| == |sorted|
  {
    if |lines| == 0 then Ok(seq(|sorted|, _ => NoNominal))
    else
      match NominalTable(lines[..|lines| - 1], sorted, vp, vb)
      case Err(e) => Err(e)
      case Ok(bins) => ApplyNominalLine(bins, lines[|lines| - 1], sorted, vp, vb)
  }

  /** The last line that names tray, or -1. */
  function LastNaming(lines: seq<string>, tray: string): (j: int)
    ensures -1 <= j < |lines|
    ensures j >= 0 ==> NominalPair(lines[j]).0 == tray
    ensures forall k :: j < k < |lines| ==> NominalPair(lines[k]).0 != tray
  {
    if |lines| == 0 then -1
    else if NominalPair(lines[|lines| - 1]).0 == tray then |lines| - 1
    else LastNaming(lines[..|lines| - 1], tray)
  }

  /**
   * Without an error, each position holds what the last line naming its tray gives, and no
   * nominal value when no line names it.
   */
  lemma {:induction false} NominalTableBins(lines: seq<string>, sorted: seq<string>, vp: seq<Double>, vb: seq<Double>, i: nat)
    requires |sorted| == |vp| == |vb| && i < |sorted|
    requires NominalTable(lines, sorted, vp, vb).Ok?
    ensures var j := LastNaming(lines, sorted[i]);
            var bin := NominalTable(lines, sorted, vp, vb).value[i];
            if j < 0 then bin == NoNominal
            else Stof(NominalPair(lines[j]).1).Ok? && bin == NominalFor(Stof(NominalPair(lines[j]).1).value, vp[i], vb[i])
  {
    if |lines| > 0 {
      var front := lines[..|lines| - 1];
      NominalTableBins(front, sorted, vp, vb, i);
      if LastNaming(lines, sorted[i]) < |lines| - 1 {
        assert LastNaming(lines, sorted[i]) == LastNaming(front, sorted[i]);
        var j := LastNaming(front, sorted[i]);
        assert j >= 0 ==> lines[j] == front[j];
      }
    }
  }

  /** A line that names a tray but whose value std::stof cannot read. */
  predicate BadLine(line: string, sorted: seq<string>) {
    NominalPair(line).0 in sorted && Stof(NominalPair(line).1).Err?
  }

  /** A bad line makes reading fail. */
  lemma {:induction false} NominalTableFailsAt(lines: seq<string>, j: nat, sorted: seq<string>, vp: seq<Double>, vb: seq<Double>)
    requires |sorted| == |vp| == |vb| && j < |lines|
    requires BadLine(lines[j], sorted)
    ensures NominalTable(lines, sorted, vp, vb).Err?
  {
    var front := lines[..|lines| - 1];
    if j < |front| {
      assert front[j] == lines[j];
      NominalTableFailsAt(front, j, sorted, vp, vb);
    } else {
      assert j == |lines| - 1;
    }
    assert NominalTable(front, sorted, vp, vb).Err? || BadLine(lines[|lines| - 1], sorted);
    NominalLineFails(NominalTable(front, sorted, vp, vb), lines[|lines| - 1], sorted, vp, vb);
  }

  /** Reading fails only because of a bad line: the lemma names the first one. */
  lemma {:induction false} NominalTableFailure(lines: seq<string>, sorted: seq<string>, vp: seq<Double>, vb: seq<Double>)
    returns (j: nat)
    requires |sorted| == |vp| == |vb|
    requires NominalTable(lines, sorted, vp, vb).Err?
    ensures j < |lines| && BadLine(lines[j], sorted)
    ensures NominalTable(lines, sorted, vp, vb).error == Stof(NominalPair(lines[j]).1).error
  {
    var front := lines[..|lines| - 1];
    NominalLineFails(NominalTable(front, sorted, vp, vb), lines[|lines| - 1], sorted, vp, vb);
    if NominalTable(front, sorted, vp, vb).Err? {
      j := NominalTableFailure(front, sorted, vp, vb);
      assert front[j] == lines[j];
    } else {
      j := |lines| - 1;
    }
  }

  /** One more line fails the table exactly when the table had failed or the line is bad. */
  lemma NominalLineFails(before: Result<seq<NominalBin>>, line: string, sorted: seq<string>, vp: seq<Double>, vb: seq<Double>)
    requires |sorted| == |vp| == |vb|
    requires before.Ok? ==> |before.value| == |sorted|
    ensures var after := match before
                         case Err(e) => Err(e)
                         case Ok(bins) => ApplyNominalLine(bins, line, sorted, vp, vb);
            (after.Err? <==> before.Err? || BadLine(line, sorted))
            && (before.Err? ==> after == before)
            && (before.Ok? && after.Err? ==> after.error == Stof(NominalPair(line).1).error)
  {
  }

  lemma NominalTableStep(lines: seq<string>, l: nat, sorted: seq<string>, vp: seq<Double>, vb: seq<Double>)
    requires |sorted| == |vp| == |vb| && l < |lines|
    requires NominalTable(lines[..l], sorted, vp, vb).Ok?
    ensures NominalTable(lines[..l + 1], sorted, vp, vb)
            == ApplyNominalLine(NominalTable(lines[..l], sorted, vp, vb).value, lines[l], sorted, vp, vb)
  {
    assert lines[..l + 1][..l] == lines[..l];
  }

  /** Once a line has failed, the rest of the file does not matter. */
  lemma {:induction false} NominalTableStops(lines: seq<string>, l: nat, sorted: seq<string>, vp: seq<Double>, vb: seq<Double>)
    requires |sorted| == |vp| == |vb| && l <= |lines|
    requires NominalTable(lines[..l], sorted, vp, vb).Err?
    ensures NominalTable(lines, sorted, vp, vb) == NominalTable(lines[..l], sorted, vp, vb)
    decreases |lines|
  {
    if l < |lines| {
      var front := lines[..|lines| - 1];
      assert front[..l] == lines[..l];
      NominalTableStops(front, l, sorted, vp, vb);
    } else {
      assert lines[..l] == lines;
    }
  }

  /**
   * The nominal-data pass: for each line of the file, in order, every sorted position whose
   * tray name equals the line's first token gets the nominal bin and the two differences.
   */
  method NominalBins(lines: seq<string>, sorted: seq<string>, vp: seq<Double>, vb: seq<Double>)
    returns (res: Result<seq<NominalBin>>)
    requires |sorted| == |vp| == |vb|
    ensures res == NominalTable(lines, sorted, vp, vb)
  {
    var bins := new NominalBin[|sorted|](_ => NoNominal);
    assert lines[..0] == [];
    assert bins[..] == seq(|sorted|, _ => NoNominal);
    for l := 0 to |lines|
      invariant NominalTable(lines[..l], sorted, vp, vb) == Ok(bins[..])
    {
      NominalTableStep(lines, l, sorted, vp, vb);
      var name, value := NominalFields(lines[l]);
      var failed := SetNamedBins(bins, name, Stof(value), sorted, vp, vb);
      if failed.Some? {
        NominalTableStops(lines, l + 1, sorted, vp, vb);
        return Err(failed.value);
      }
    }
    assert lines[..|lines|] == lines;
    return Ok(bins[..]);
  }

  /** The loop over the sorted positions for one nominal line. */
  method SetNamedBins(bins: array<NominalBin>, name: string, parsed: Result<real>, sorted: seq<string>, vp: seq<Double>, vb: seq<Double>)
    returns (failed: Option<Failure>)
    requires bins.Length == |sorted| == |vp| == |vb|
    modifies bins
    ensures failed.Some? <==> ApplyNamed(old(bins[..]), name, parsed, sorted, vp, vb).Err?
    ensures failed.Some? ==> ApplyNamed(old(bins[..]), name, parsed, sorted, vp, vb).error == failed.value
    ensures failed.None? ==> Ok(bins[..]) == ApplyNamed(old(bins[..]), name, parsed, sorted, vp, vb)
  {
    var n := bins.Length;
    failed := None;
    for i := 0 to n
      invariant forall k :: 0 <= k < n ==>
                  if k < i && sorted[k] == name then parsed.Ok? && bins[k] == NominalFor(parsed.value, vp[k], vb[k])
                  else bins[k] == old(bins[k])
    {
      if name == sorted[i] {
        if parsed.Err? {
          return Some(parsed.error);
        }
        bins[i] := NominalFor(parsed.value, vp[i], vb[i]);
      }
    }
    if name in sorted {
      var k :| 0 <= k < n && sorted[k] == name;
      assert parsed.Ok?;
      assert bins[..] == ApplyNamed(old(bins[..]), name, parsed, sorted, vp, vb).value;
    } else {
      assert bins[..] == old(bins[..]);
    }
  }

  // ---------------------------------------------------------------------------------------
  // The indexed tray plot
  // ---------------------------------------------------------------------------------------

  /** Average of one tray as getAvgVpeak returns it: -1 for an index with no IV record. */
  function TrayVpeak(reader: SiPMDataReader, t: int, at25C: bool): Double
    reads reader
  {
    if 0 <= t < |reader.ivData| then TrayMean(VpeakColumn(reader.ivData[t], at25C)) else Finite(-1.0)
  }

  /** Average of one tray as getAvgVbreakdown returns it: -1 for an index with no SPS record. */
  function TrayVbd(reader: SiPMDataReader, t: int, at25C: bool): Double
    reads reader
  {
    if 0 <= t < |reader.spsData| then TrayMean(VbdColumn(reader.spsData[t], at25C)) else Finite(-1.0)
  }

  /** The histogram filling loop: the tray averages in sorted order. */
  method SortedAverages(reader: SiPMDataReader, order: seq<int>, at25C: bool) returns (vp: seq<Double>, vb: seq<Double>)
    ensures |vp| == |order| && |vb| == |order|
    ensures forall i :: 0 <= i < |order| ==> vp[i] == TrayVpeak(reader, order[i], at25C) && vb[i] == TrayVbd(reader, order[i], at25C)
  {
    vp, vb := [], [];
    for i := 0 to |order|
      invariant |vp| == i && |vb| == i
      invariant forall k :: 0 <= k < i ==> vp[k] == TrayVpeak(reader, order[k], at25C) && vb[k] == TrayVbd(reader, order[k], at25C)
    {
      var p := GetAvgVpeak(reader, order[i], at25C);
      var b := GetAvgVbreakdown(reader, order[i], at25C);
      vp, vb := vp + [p], vb + [b];
    }
  }

  /** What the indexed tray plot shows, position by position in alphabetical order. */
  datatype IndexedTray = IndexedTray(
    order: seq<int>,
    sorted: seq<string>,
    avgVpeak: seq<Double>,
    avgVbd: seq<Double>,
    nominal: seq<NominalBin>,
    delimiters: seq<int>,
    labels: seq<BatchLabel>)

  /**
   * The data of the indexed tray plot: one bin per IV record, the trays in alphabetical order,
   * their averages, the nominal values read from the lines of the nominal-data file, and the
   * batch delimiters and labels.
   */
  method MakeIndexedTray(reader: SiPMDataReader, at25C: bool, nominalLines: seq<string>) returns (res: Result<IndexedTray>)
    ensures |reader.ivData| > |reader.trayStrings| ==> res == Err(OutOfRange)
    ensures res.Ok? ==>
              var r := res.value;
              IsPermutation(r.order, |reader.ivData|) && Names(reader.trayStrings, r.order)
              && AscendingBy(reader.trayStrings, r.order)
              && r.sorted == Arranged(reader.trayStrings, r.order)
              && |r.avgVpeak| == |r.order| && |r.avgVbd| == |r.order|
              && (forall i :: 0 <= i < |r.order| ==>
                    r.avgVpeak[i] == TrayVpeak(reader, r.order[i], at25C) && r.avgVbd[i] == TrayVbd(reader, r.order[i], at25C))
              && NominalTable(nominalLines, r.sorted, r.avgVpeak, r.avgVbd) == Ok(r.nominal)
              && r.delimiters == Delimiters(r.sorted)
              && |r.labels| == |r.delimiters| + (if LastBatchShared(r.sorted) then 1 else 0)
              && LabelsMatch(r.sorted, r.delimiters, r.labels)
  {
    var order :- ReshuffleIndex(reader.trayStrings, |reader.ivData|);
    var sorted := Arranged(reader.trayStrings, order);
    var vp, vb := SortedAverages(reader, order, at25C);
    var nominal :- NominalBins(nominalLines, sorted, vp, vb);
    var lines, labels := BatchDelimiters(sorted);
    return Ok(IndexedTray(order, sorted, vp, vb, nominal, lines, labels));
  }

  // ---------------------------------------------------------------------------------------
  // Test maps
  // ---------------------------------------------------------------------------------------

  /**
   * Cell (testSet, slot) of a tray's test map: that SiPM's value less the tray average, or -1
   * where the tray has no SiPM.
   */
  function TestMapCell(xs: seq<real>, avg: Double, testSet: nat, slot: nat): Double {
    var i := SET_WIDTH * testSet + slot;
    if i < |xs| then Minus(xs[i], avg) else Finite(-1.0)
  }

  /** A map cell shows the reader's value at that test index less the average, or -1 where there is none. */
  lemma TestMapMatchesReader(reader: SiPMDataReader, t: nat, avg: Double, testSet: nat, slot: nat)
    requires t < |reader.ivData|
    ensures var r := reader.GetVbdTestIndexIV(t, testSet, slot, false);
            TestMapCell(reader.ivData[t].vpeak, avg, testSet, slot) == if r.Ok? then Minus(r.value, avg) else Finite(-1.0)
  {
  }

  /**
   * Fills a 15 x 32 map: value i goes to test set i / 32 and slot i % 32 (values from the
   * 481st on fall outside the grid), then every cell from the number of values up to 480 is
   * set to -1.
   */
  method FillTestMap(xs: seq<real>, avg: Double) returns (m: array2<Double>)
    ensures fresh(m)
    ensures m.Length0 == TEST_SETS && m.Length1 == SET_WIDTH
    ensures forall s, c :: 0 <= s < TEST_SETS && 0 <= c < SET_WIDTH ==> m[s, c] == TestMapCell(xs, avg, s, c)
  {
    m := new Double[TEST_SETS, SET_WIDTH]((_, _) => Finite(0.0));
    for i := 0 to |xs|
      invariant forall s, c :: 0 <= s < TEST_SETS && 0 <= c < SET_WIDTH ==>
                  m[s, c] == if SET_WIDTH * s + c < i then Minus(xs[SET_WIDTH * s + c], avg) else Finite(0.0)
    {
      if i / SET_WIDTH < TEST_SETS {
        m[i / SET_WIDTH, i % SET_WIDTH] := Minus(xs[i], avg);
      }
    }
    var j := |xs|;
    while j < SET_WIDTH * TEST_SETS
      invariant |xs| <= j
      invariant forall s, c :: 0 <= s < TEST_SETS && 0 <= c < SET_WIDTH ==>
                  m[s, c] == if SET_WIDTH * s + c < |xs| then Minus(xs[SET_WIDTH * s + c], avg)
                             else if SET_WIDTH * s + c < j then Finite(-1.0) else Finite(0.0)
    {
      m[j / SET_WIDTH, j % SET_WIDTH] := Finite(-1.0);
      j := j + 1;
    }
  }

  /** The IV test map of tray t: raw IV peak voltages against the tray average the flag selects. */
  method TestMapVpeak(reader: SiPMDataReader, t: nat, at25C: bool) returns (res: Result<array2<Double>>)
    ensures res.Err? <==> t >= |reader.ivData|
    ensures res.Ok? ==> fresh(res.value) && res.value.Length0 == TEST_SETS && res.value.Length1 == SET_WIDTH
    ensures res.Ok? ==> forall s, c :: 0 <= s < TEST_SETS && 0 <= c < SET_WIDTH ==>
              res.value[s, c] == TestMapCell(reader.ivData[t].vpeak, TrayMean(VpeakColumn(reader.ivData[t], at25C)), s, c)
  {
    var avg := GetAvgVpeak(reader, t, at25C);
    if t >= |reader.ivData| {
      return Err(OutOfRange);
    }
    var m := FillTestMap(reader.ivData[t].vpeak, avg);
    return Ok(m);
  }

  /** The SPS test map of tray t: raw SPS breakdown voltages against the tray average the flag selects. */
  method TestMapVbreakdown(reader: SiPMDataReader, t: nat, at25C: bool) returns (res: Result<array2<Double>>)
    ensures res.Err? <==> t >= |reader.spsData|
    ensures res.Ok? ==> fresh(res.value) && res.value.Length0 == TEST_SETS && res.value.Length1 == SET_WIDTH
    ensures res.Ok? ==> forall s, c :: 0 <= s < TEST_SETS && 0 <= c < SET_WIDTH ==>
              res.value[s, c] == TestMapCell(reader.spsData[t].vbd, TrayMean(VbdColumn(reader.spsData[t], at25C)), s, c)
  {
    var avg := GetAvgVbreakdown(reader, t, at25C);
    if t >= |reader.spsData| {
      return Err(OutOfRange);
    }
    var m := FillTestMap(reader.spsData[t].vbd, avg);
    return Ok(m);
  }
}
