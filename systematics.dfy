/**
 * The systematic studies: the reproducibility analysis, which gathers the repeated
 * measurements of one tray (every tray string starting with the base tray's name), decides
 * from the first repetition which test sets were repeated, and compares the repetitions SiPM
 * by SiPM; and the operating-voltage scan, which picks the "vopscan" trays and reads their
 * operating voltage from the last two characters of the tray name.
 */
module Systematics {
  import opened Config
  import opened Numeric
  import opened Text
  import opened Reader

  // ---------------------------------------------------------------------------------------
  // Gathering the repeated measurements
  // ---------------------------------------------------------------------------------------

  /** Position of the first tray string equal to base, or |trays| when there is none. */
  function FirstExact(trays: seq<string>, base: string): (k: nat)
    ensures k <= |trays|
    ensures k < |trays| ==> trays[k] == base
    ensures forall j :: 0 <= j < k ==> trays[j] != base
  {
    if |trays| == 0 then 0
    else if trays[0] == base then 0
    else 1 + FirstExact(trays[1..], base)
  }

  /** The search for the base tray: the iterator loop that stops at the first exact match. */
  method FindBase(trays: seq<string>, base: string) returns (k: nat)
    ensures k == FirstExact(trays, base)
  {
    k := 0;
    while k < |trays| && Compare(trays[k], base) != 0
      invariant k <= |trays|
      invariant forall j :: 0 <= j < k ==> trays[j] != base
    {
      CompareZero(trays[k], base);
      k := k + 1;
    }
    if k < |trays| {
      CompareZero(trays[k], base);
    }
    FirstExactIsFirst(trays, base, k);
  }

  /** The first match is the only position with the properties FirstExact promises. */
  lemma FirstExactIsFirst(trays: seq<string>, base: string, k: nat)
    requires k <= |trays|
    requires k < |trays| ==> trays[k] == base
    requires forall j :: 0 <= j < k ==> trays[j] != base
    ensures k == FirstExact(trays, base)
  {
  }

  /** The tray string starts with base: substr(0, |base|) compares equal to base. */
  predicate Repeats(tray: string, base: string) {
    PrefixEquals(tray, |base|, base)
  }

  /** The positions in [k, p) of the trays that repeat base, in increasing order. */
  function Matching(trays: seq<string>, base: string, k: nat, p: nat): (ms: seq<int>)
    requires k <= p <= |trays|
    ensures |ms| <= p - k
    decreases p
  {
    if p == k then []
    else Matching(trays, base, k, p - 1) + (if Repeats(trays[p - 1], base) then [p - 1] else [])
  }

  /** Matching holds exactly the repeating positions in [k, p), in increasing order. */
  lemma {:induction false} MatchingMembers(trays: seq<string>, base: string, k: nat, p: nat)
    requires k <= p <= |trays|
    ensures forall q :: q in Matching(trays, base, k, p) <==> k <= q < p && Repeats(trays[q], base)
    ensures forall a, b :: 0 <= a < b < |Matching(trays, base, k, p)| ==>
              Matching(trays, base, k, p)[a] < Matching(trays, base, k, p)[b]
    decreases p
  {
    if p > k {
      MatchingMembers(trays, base, k, p - 1);
      var ms := Matching(trays, base, k, p - 1);
      var all := Matching(trays, base, k, p);
      assert all == ms + (if Repeats(trays[p - 1], base) then [p - 1] else []);
      forall a, b | 0 <= a < b < |all|
        ensures all[a] < all[b]
      {
        if b >= |ms| {
          assert all[a] == ms[a] && ms[a] in ms;
        }
      }
    }
  }

  /** Every set the mask marks as repeated is present on tray t. */
  predicate HasRepeatedSets(reader: SiPMDataReader, repeated: seq<bool>, t: int)
    reads reader
  {
    forall i :: 0 <= i < |repeated| && repeated[i] ==> reader.HasSet(t, i) == Ok(true)
  }

  /**
   * The counter after checking the sets i.. of a later repetition whose counter is c: each
   * repeated set missing at the counter's tray moves the counter on by one, so the sets after
   * it are looked up on the next tray. A lookup beyond the IV records throws, and so does the
   * console message naming a mismatched tray when the counter is past the tray list.
   */
  function Recheck(reader: SiPMDataReader, repeated: seq<bool>, c: int, i: nat): (r: Result<int>)
    reads reader
    requires i <= |repeated|
    ensures r.Err? ==> r.error == OutOfRange
    decreases |repeated| - i
  {
    if i == |repeated| then Ok(c)
    else if !repeated[i] then Recheck(reader, repeated, c, i + 1)
    else
      match reader.HasSet(c, i)
      case Err(e) => Err(e)
      case Ok(true) => Recheck(reader, repeated, c, i + 1)
      case Ok(false) =>
        if VectorAt(reader.trayStrings, c).Err? then Err(OutOfRange)
        else Recheck(reader, repeated, c + 1, i + 1)
  }

  /** The counter only moves forward, and stays put exactly when every repeated set from i on is present. */
  lemma {:induction false} RecheckShift(reader: SiPMDataReader, repeated: seq<bool>, c: int, i: nat)
    requires i <= |repeated|
    requires Recheck(reader, repeated, c, i).Ok?
    ensures Recheck(reader, repeated, c, i).value >= c
    ensures Recheck(reader, repeated, c, i).value == c <==>
              forall j :: i <= j < |repeated| && repeated[j] ==> reader.HasSet(c, j) == Ok(true)
    decreases |repeated| - i
  {
    if i < |repeated| {
      if !repeated[i] || reader.HasSet(c, i) == Ok(true) {
        RecheckShift(reader, repeated, c, i + 1);
      } else {
        RecheckShift(reader, repeated, c + 1, i + 1);
      }
    }
  }

  /** The check of a later repetition against the mask. */
  method RecheckSets(reader: SiPMDataReader, repeated: seq<bool>, count: int) returns (res: Result<int>)
    ensures res == Recheck(reader, repeated, count, 0)
  {
    var c := count;
    for i := 0 to |repeated|
      invariant Recheck(reader, repeated, count, 0) == Recheck(reader, repeated, c, i)
    {
      if repeated[i] {
        var has := reader.HasSet(c, i);
        if has.Err? {
          return Err(has.error);
        }
        if !has.value {
          if VectorAt(reader.trayStrings, c).Err? {
            return Err(OutOfRange);
          }
          c := c + 1;
        }
      }
    }
    return Ok(c);
  }

  /** The mask of tray t over the first n test sets; a lookup outside the records throws. */
  function MaskOf(reader: SiPMDataReader, t: int, n: nat): (r: Result<seq<bool>>)
    reads reader
    ensures r.Err? <==> exists i :: 0 <= i < n && reader.HasSet(t, i).Err?
    ensures r.Err? ==> r.error == OutOfRange
    ensures r.Ok? ==> |r.value| == n && forall i :: 0 <= i < n ==> reader.HasSet(t, i) == Ok(r.value[i])
  {
    if n == 0 then Ok([])
    else
      var mask :- MaskOf(reader, t, n - 1);
      var has :- reader.HasSet(t, n - 1);
      Ok(mask + [has])
  }

  /** The repeated-set mask: which of the test sets tray t has. */
  method SetMask(reader: SiPMDataReader, t: int) returns (res: Result<seq<bool>>)
    ensures res == MaskOf(reader, t, TEST_SETS)
    ensures res.Err? <==> exists i :: 0 <= i < TEST_SETS && reader.HasSet(t, i).Err?
    ensures res.Err? ==> res.error == OutOfRange
    ensures res.Ok? ==> |res.value| == TEST_SETS
    ensures res.Ok? ==> forall i :: 0 <= i < TEST_SETS ==> reader.HasSet(t, i) == Ok(res.value[i])
  {
    var mask: seq<bool> := [];
    for i := 0 to TEST_SETS
      invariant MaskOf(reader, t, i) == Ok(mask)
    {
      var has := reader.HasSet(t, i);
      if has.Err? {
        assert MaskOf(reader, t, TEST_SETS).Err?;
        return Err(has.error);
      }
      mask := mask + [has.value];
    }
    return Ok(mask);
  }

  /** The mask, the counter and whether the repetition just collected was marked bad. */
  datatype Step = Step(repeated: seq<bool>, count: int, marked: bool)

  /** What the gathering knows about a step taken with n repetitions collected before it. */
  predicate StepFacts(reader: SiPMDataReader, repeated: seq<bool>, count: int, n: nat, step: Step)
    reads reader
  {
    (n == 0 ==> step == Step(repeated, count, false))
    && (n == 1 ==>
          step.count == count && !step.marked && |step.repeated| == TEST_SETS
          && forall i :: 0 <= i < TEST_SETS ==> reader.HasSet(count, i) == Ok(step.repeated[i]))
    && (n >= 2 ==>
          step.repeated == repeated && step.count >= count
          && (step.marked <==> step.count != count)
          && (!step.marked ==> HasRepeatedSets(reader, repeated, count)))
  }

  /**
   * What collecting one more repetition does, given how many were collected before it: the
   * first changes nothing; while there is no mask the repetition builds it; otherwise the
   * repetition is checked against the mask and marked when the counter moved.
   */
  function Next(reader: SiPMDataReader, repeated: seq<bool>, count: int, n: nat): (res: Result<Step>)
    reads reader
    ensures res.Err? ==> res.error == OutOfRange && n >= 1
    ensures (n < 2 ==> repeated == []) && (n >= 2 ==> |repeated| == TEST_SETS) && res.Ok? ==>
              StepFacts(reader, repeated, count, n, res.value)
  {
    if n == 0 then Ok(Step(repeated, count, false))
    else if |repeated| == 0 then
      var mask :- MaskOf(reader, count, TEST_SETS);
      Ok(Step(mask, count, false))
    else
      var after :- Recheck(reader, repeated, count, 0);
      RecheckShift(reader, repeated, count, 0);
      Ok(Step(repeated, after, after != count))
  }

  /** The step of the gathering loop for one repetition. */
  method NextRepetition(reader: SiPMDataReader, repeated: seq<bool>, count: int, n: nat) returns (res: Result<Step>)
    requires n < 2 ==> repeated == []
    requires n >= 2 ==> |repeated| == TEST_SETS
    ensures res == Next(reader, repeated, count, n)
    ensures res.Err? ==> res.error == OutOfRange && n >= 1
    ensures res.Ok? ==> StepFacts(reader, repeated, count, n, res.value)
  {
    if n == 0 {
      return Ok(Step(repeated, count, false));
    } else if |repeated| == 0 {
      var mask :- SetMask(reader, count);
      return Ok(Step(mask, count, false));
    } else {
      var after :- RecheckSets(reader, repeated, count);
      return Ok(Step(repeated, after, after != count));
    }
  }

  /** What the gathering finds: nothing, or the collected tray indices and the repeated-set mask. */
  datatype Gathered = NotFound | Gathered(indices: seq<int>, repeated: seq<bool>)

  /** The loop state of the gathering: the entries collected, the mask and the counter. */
  datatype Gathering = Gathering(indices: seq<int>, repeated: seq<bool>, count: int)

  /**
   * One round of the gathering loop, at the tray in position p: a tray that repeats base is
   * pushed under the counter (and overwritten with -1 when it lacks a repeated set), and the
   * counter moves on by one more.
   */
  function Advance(reader: SiPMDataReader, base: string, p: nat, g: Gathering): (res: Result<Gathering>)
    reads reader
    requires p < |reader.trayStrings|
    ensures res.Err? ==> res.error == OutOfRange
    ensures res.Ok? ==> res.value.count > g.count
    ensures res.Ok? ==> |res.value.indices| == |g.indices| + (if Repeats(reader.trayStrings[p], base) then 1 else 0)
  {
    if Repeats(reader.trayStrings[p], base) then
      var step :- Next(reader, g.repeated, g.count, |g.indices|);
      assert step.count >= g.count by {
        if |g.indices| >= 1 && |g.repeated| > 0 {
          RecheckShift(reader, g.repeated, g.count, 0);
        }
      }
      Ok(Gathering(g.indices + [if step.marked then -1 else g.count], step.repeated, step.count + 1))
    else
      Ok(Gathering(g.indices, g.repeated, g.count + 1))
  }

  /** The gathering loop from the tray in position p to the end of the list. */
  function GatherFrom(reader: SiPMDataReader, base: string, p: nat, g: Gathering): (res: Result<Gathering>)
    reads reader
    requires p <= |reader.trayStrings|
    ensures res.Err? ==> res.error == OutOfRange
    ensures res.Ok? ==> |res.value.indices| >= |g.indices|
    decreases |reader.trayStrings| - p
  {
    if p == |reader.trayStrings| then Ok(g)
    else
      var g' :- Advance(reader, base, p, g);
      GatherFrom(reader, base, p + 1, g')
  }

  /**
   * The gathering of the repetitions of base: nothing when no tray equals base, otherwise the
   * loop run from the first tray equal to base with the counter at that tray.
   */
  function Gather(reader: SiPMDataReader, base: string): (res: Result<Gathered>)
    reads reader
    ensures res == Ok(NotFound) <==> base !in reader.trayStrings
    ensures res.Err? ==> res.error == OutOfRange
  {
    var k := FirstExact(reader.trayStrings, base);
    if k == |reader.trayStrings| then Ok(NotFound)
    else
      assert reader.trayStrings[k] in reader.trayStrings;
      var g :- GatherFrom(reader, base, k, Gathering([], [], k));
      Ok(Gathered(g.indices, g.repeated))
  }

  /** No collected entry was marked bad. */
  predicate NoneMarked(indices: seq<int>) {
    forall j :: 0 <= j < |indices| ==> indices[j] != -1
  }

  /** The unmarked entries strictly increase. */
  predicate LiveIncreasing(indices: seq<int>) {
    forall a, b :: 0 <= a < b < |indices| && indices[a] != -1 && indices[b] != -1 ==> indices[a] < indices[b]
  }

  /**
   * Where the entries stand against ms, the positions of their trays, while the counter is at
   * count and the loop at p; mark is the first marked entry, or |indices| when there is none.
   * Up to the mark every entry is its tray's position and the counter is the loop position;
   * after it the counter is ahead, and each unmarked entry lies past its tray.
   */
  predicate Positions(ms: seq<int>, indices: seq<int>, count: int, p: nat, mark: nat) {
    |indices| == |ms|
    && (forall j :: 0 <= j < |indices| ==> indices[j] == -1 || ms[j] <= indices[j])
    && (forall j :: 0 <= j < |indices| ==> indices[j] < count)
    && LiveIncreasing(indices)
    && count >= p
    && mark <= |indices|
    && (forall j :: 0 <= j < mark ==> indices[j] == ms[j] && indices[j] != -1)
    && (mark < |indices| ==> indices[mark] == -1 && count > p)
    && (mark == |indices| ==> count == p && indices == ms)
    && (forall b :: mark < b < |indices| && indices[b] != -1 ==> ms[b] < indices[b])
    && (forall j :: 0 <= j < |indices| && j < 2 ==> indices[j] != -1)
  }

  /** Moving past a tray that does not repeat base moves the counter and the loop together. */
  lemma PositionsSkip(ms: seq<int>, indices: seq<int>, count: int, p: nat, mark: nat)
    requires Positions(ms, indices, count, p, mark)
    ensures Positions(ms, indices, count + 1, p + 1, mark)
  {
  }

  /**
   * Pushing the counter for the tray at p, marked exactly when the step moved the counter from
   * count to count', keeps the positions; the first two pushes are never marked.
   */
  lemma PositionsPush(ms: seq<int>, indices: seq<int>, count: int, p: nat, mark: nat, count': int, marked: bool)
    requires Positions(ms, indices, count, p, mark)
    requires count' >= count && (marked <==> count' != count) && (|indices| < 2 ==> !marked)
    ensures Positions(ms + [p], indices + [if marked then -1 else count], count' + 1, p + 1,
                      if mark == |indices| && !marked then mark + 1 else mark)
  {
    var indices' := indices + [if marked then -1 else count];
    var ms' := ms + [p];
    assert forall j :: 0 <= j < |indices| ==> indices'[j] == indices[j] && ms'[j] == ms[j];
    assert indices'[|indices|] == (if marked then -1 else count) && ms'[|indices|] == p;
    if mark == |indices| && !marked {
      assert indices' == ms';
    }
    assert LiveIncreasing(indices') by {
      forall a, b | 0 <= a < b < |indices'| && indices'[a] != -1 && indices'[b] != -1
        ensures indices'[a] < indices'[b]
      {
        if b < |indices| {
          assert indices'[a] == indices[a] && indices'[b] == indices[b];
        }
      }
    }
  }

  /** The mask comes from the second entry and every unmarked later entry has the repeated sets. */
  predicate MaskAgrees(reader: SiPMDataReader, indices: seq<int>, repeated: seq<bool>)
    reads reader
  {
    (|indices| < 2 ==> repeated == [])
    && (|indices| >= 2 ==> (|repeated| == TEST_SETS
          && forall i :: 0 <= i < TEST_SETS ==> reader.HasSet(indices[1], i) == Ok(repeated[i])))
    && (forall j :: 2 <= j < |indices| && indices[j] != -1 ==> HasRepeatedSets(reader, repeated, indices[j]))
  }

  /** Pushing the entry a step produces keeps the mask in agreement. */
  lemma MaskPush(reader: SiPMDataReader, indices: seq<int>, repeated: seq<bool>, count: int, step: Step)
    requires MaskAgrees(reader, indices, repeated)
    requires StepFacts(reader, repeated, count, |indices|, step)
    ensures MaskAgrees(reader, indices + [if step.marked then -1 else count], step.repeated)
  {
  }

  /** The state of the gathering loop after the trays before p have been looked at. */
  predicate GatherInv(reader: SiPMDataReader, base: string, k: nat, p: nat, indices: seq<int>, repeated: seq<bool>, count: int, mark: nat)
    reads reader
  {
    k <= p <= |reader.trayStrings| && (k < |reader.trayStrings| ==> reader.trayStrings[k] == base)
    && (k < p ==> |indices| > 0 && indices[0] == k)
    && Positions(Matching(reader.trayStrings, base, k, p), indices, count, p, mark)
    && MaskAgrees(reader, indices, repeated)
  }

  /** Before the loop nothing is collected and the counter is at the base tray. */
  lemma GatherStart(reader: SiPMDataReader, base: string, k: nat)
    requires k == FirstExact(reader.trayStrings, base) < |reader.trayStrings|
    ensures GatherInv(reader, base, k, k, [], [], k, 0)
  {
  }

  /** Passing over a tray that does not repeat base keeps the loop state. */
  lemma GatherSkips(reader: SiPMDataReader, base: string, k: nat, p: nat, indices: seq<int>, repeated: seq<bool>, count: int, mark: nat)
    requires GatherInv(reader, base, k, p, indices, repeated, count, mark)
    requires p < |reader.trayStrings| && !Repeats(reader.trayStrings[p], base)
    ensures GatherInv(reader, base, k, p + 1, indices, repeated, count + 1, mark)
  {
    assert Matching(reader.trayStrings, base, k, p + 1) == Matching(reader.trayStrings, base, k, p);
    PositionsSkip(Matching(reader.trayStrings, base, k, p), indices, count, p, mark);
  }

  /** Collecting a tray that repeats base keeps the loop state. */
  lemma GatherCollects(reader: SiPMDataReader, base: string, k: nat, p: nat, indices: seq<int>, repeated: seq<bool>, count: int,
                       mark: nat, step: Step)
    requires GatherInv(reader, base, k, p, indices, repeated, count, mark)
    requires p < |reader.trayStrings| && Repeats(reader.trayStrings[p], base)
    requires StepFacts(reader, repeated, count, |indices|, step)
    ensures GatherInv(reader, base, k, p + 1, indices + [if step.marked then -1 else count],
                      step.repeated, step.count + 1, if mark == |indices| && !step.marked then mark + 1 else mark)
  {
    var ms := Matching(reader.trayStrings, base, k, p);
    assert Matching(reader.trayStrings, base, k, p + 1) == ms + [p];
    PositionsPush(ms, indices, count, p, mark, step.count, step.marked);
    MaskPush(reader, indices, repeated, count, step);
    if k == p {
      assert reader.trayStrings[k] == base;
    }
  }

  /** The gathering step stays within the loop state. */
  lemma AdvanceKeeps(reader: SiPMDataReader, base: string, k: nat, p: nat, g: Gathering, mark: nat) returns (mark': nat)
    requires GatherInv(reader, base, k, p, g.indices, g.repeated, g.count, mark)
    requires p < |reader.trayStrings| && Advance(reader, base, p, g).Ok?
    ensures var g' := Advance(reader, base, p, g).value;
            GatherInv(reader, base, k, p + 1, g'.indices, g'.repeated, g'.count, mark')
  {
    if Repeats(reader.trayStrings[p], base) {
      var step := Next(reader, g.repeated, g.count, |g.indices|).value;
      assert StepFacts(reader, g.repeated, g.count, |g.indices|, step);
      assert Advance(reader, base, p, g).value
          == Gathering(g.indices + [if step.marked then -1 else g.count], step.repeated, step.count + 1);
      GatherCollects(reader, base, k, p, g.indices, g.repeated, g.count, mark, step);
      mark' := if mark == |g.indices| && !step.marked then mark + 1 else mark;
    } else {
      assert Advance(reader, base, p, g).value == Gathering(g.indices, g.repeated, g.count + 1);
      GatherSkips(reader, base, k, p, g.indices, g.repeated, g.count, mark);
      mark' := mark;
    }
  }

  /** One round of the gathering loop, at the tray in position p. */
  method GatherStep(reader: SiPMDataReader, base: string, k: nat, p: nat, indices: seq<int>, repeated: seq<bool>, count: int,
                    ghost mark: nat)
    returns (res: Result<Gathering>, ghost mark': nat)
    requires GatherInv(reader, base, k, p, indices, repeated, count, mark)
    requires p < |reader.trayStrings|
    ensures res == Advance(reader, base, p, Gathering(indices, repeated, count))
    ensures res.Ok? ==> GatherInv(reader, base, k, p + 1, res.value.indices, res.value.repeated, res.value.count, mark')
  {
    mark' := mark;
    if Repeats(reader.trayStrings[p], base) {
      var step :- NextRepetition(reader, repeated, count, |indices|);
      // the entry is pushed, then overwritten with -1 when the repetition lacks a set
      res := Ok(Gathering(indices + [if step.marked then -1 else count], step.repeated, step.count + 1));
    } else {
      res := Ok(Gathering(indices, repeated, count + 1));
    }
    mark' := AdvanceKeeps(reader, base, k, p, Gathering(indices, repeated, count), mark);
  }

  /**
   * What the gathering promises about a base tray that is present: one entry per tray from the
   * base on that repeats it, the first being the base itself; every entry up to the first
   * marked one is exactly the position of its tray, so the mask comes from the second matching
   * tray; a later unmarked entry lies past its tray (the counter has moved on); the unmarked
   * entries strictly increase; the first two are never marked, and every unmarked later entry
   * has all the repeated sets.
   */
  predicate Collected(reader: SiPMDataReader, base: string, indices: seq<int>, repeated: seq<bool>)
    reads reader
  {
    var k := FirstExact(reader.trayStrings, base);
    var ms := Matching(reader.trayStrings, base, k, |reader.trayStrings|);
    |indices| == |ms| && |indices| > 0 && indices[0] == k
    && (forall j :: 0 <= j < |indices| ==> indices[j] == -1 || ms[j] <= indices[j])
    && (forall j :: 0 <= j < |indices| && NoneMarked(indices[..j + 1]) ==> indices[j] == ms[j])
    && (NoneMarked(indices) ==> indices == ms)
    && (forall b :: 0 <= b < |indices| && indices[b] != -1 && !NoneMarked(indices[..b]) ==> ms[b] < indices[b])
    && LiveIncreasing(indices)
    && (forall j :: 0 <= j < |indices| && j < 2 ==> indices[j] != -1)
    && (|indices| >= 2 ==> indices[1] == ms[1])
    && (|indices| < 2 ==> repeated == [])
    && (|indices| >= 2 ==> (|repeated| == TEST_SETS
          && forall i :: 0 <= i < TEST_SETS ==> reader.HasSet(indices[1], i) == Ok(repeated[i])))
    && (forall j :: 2 <= j < |indices| && indices[j] != -1 ==> HasRepeatedSets(reader, repeated, indices[j]))
  }

  /** At the end of the list the loop state is what the gathering promises. */
  lemma GatherDone(reader: SiPMDataReader, base: string, k: nat, indices: seq<int>, repeated: seq<bool>, count: int, mark: nat)
    requires k == FirstExact(reader.trayStrings, base) < |reader.trayStrings|
    requires GatherInv(reader, base, k, |reader.trayStrings|, indices, repeated, count, mark)
    ensures Collected(reader, base, indices, repeated)
  {
    var ms := Matching(reader.trayStrings, base, k, |reader.trayStrings|);
    forall b | 0 <= b < |indices| && indices[b] != -1 && !NoneMarked(indices[..b])
      ensures ms[b] < indices[b]
    {
      var a :| 0 <= a < b && indices[..b][a] == -1;
      assert indices[a] == -1;
    }
    forall j | 0 <= j < |indices| && NoneMarked(indices[..j + 1])
      ensures indices[j] == ms[j]
    {
    }
  }

  /** Whatever the gathering function collects has the properties the gathering promises. */
  lemma {:induction false} GatherFromCollects(reader: SiPMDataReader, base: string, k: nat, p: nat, g: Gathering, mark: nat)
    requires k == FirstExact(reader.trayStrings, base) < |reader.trayStrings|
    requires GatherInv(reader, base, k, p, g.indices, g.repeated, g.count, mark)
    requires GatherFrom(reader, base, p, g).Ok?
    ensures Collected(reader, base, GatherFrom(reader, base, p, g).value.indices, GatherFrom(reader, base, p, g).value.repeated)
    decreases |reader.trayStrings| - p
  {
    if p == |reader.trayStrings| {
      GatherDone(reader, base, k, g.indices, g.repeated, g.count, mark);
    } else {
      var mark' := AdvanceKeeps(reader, base, k, p, g, mark);
      GatherFromCollects(reader, base, k, p + 1, Advance(reader, base, p, g).value, mark');
    }
  }

  /** The gathering of a listed base tray has the properties Collected states. */
  lemma GatherCollected(reader: SiPMDataReader, base: string)
    requires Gather(reader, base).Ok? && Gather(reader, base).value.Gathered?
    ensures Collected(reader, base, Gather(reader, base).value.indices, Gather(reader, base).value.repeated)
  {
    var k := FirstExact(reader.trayStrings, base);
    GatherStart(reader, base, k);
    GatherFromCollects(reader, base, k, k, Gathering([], [], k), 0);
  }

  /**
   * The gathering loop of the reproducibility analysis. From the first tray equal to base to
   * the end of the list, every tray starting with base is collected by the running counter;
   * the second one sets the mask, and each later one whose repeated sets are not all present is
   * marked -1. A missing set also moves the counter on, so later entries name the tray after
   * the one matched.
   */
  method GatherRepeated(reader: SiPMDataReader, base: string) returns (res: Result<Gathered>)
    ensures res == Gather(reader, base)
    ensures base !in reader.trayStrings ==> res == Ok(NotFound)
    ensures res == Ok(NotFound) ==> base !in reader.trayStrings
    ensures res.Err? ==> res.error == OutOfRange
    ensures res.Ok? && res.value.Gathered? ==> Collected(reader, base, res.value.indices, res.value.repeated)
  {
    var trays := reader.trayStrings;
    var k := FindBase(trays, base);
    if k == |trays| {
      return Ok(NotFound);
    }
    var indices: seq<int> := [];
    var repeated: seq<bool> := [];
    var count: int := k;
    ghost var mark: nat := 0;  // the first marked entry, or |indices| when there is none
    GatherStart(reader, base, k);
    for p := k to |trays|
      invariant GatherInv(reader, base, k, p, indices, repeated, count, mark)
      invariant GatherFrom(reader, base, k, Gathering([], [], k)) == GatherFrom(reader, base, p, Gathering(indices, repeated, count))
    {
      var next;
      next, mark := GatherStep(reader, base, k, p, indices, repeated, count, mark);
      if next.Err? {
        return Err(next.error);
      }
      indices, repeated, count := next.value.indices, next.value.repeated, next.value.count;
    }
    GatherDone(reader, base, k, indices, repeated, count, mark);
    return Ok(Gathered(indices, repeated));
  }

  // ---------------------------------------------------------------------------------------
  // Comparing the repetitions slot by slot
  // ---------------------------------------------------------------------------------------

  /** What one collected repetition contributes to a slot. */
  datatype Reading =
    | Excluded                            // entry marked -1
    | FailedIV                           // IV value is the sentinel; the SPS value is not read
    | FailedSPS(iv: real)                // IV value counted, SPS value is the sentinel
    | Measured(iv: real, sps: real)

  /**
   * The reading of slot s of test set r on tray t; a lookup outside the records throws, and so
   * does the console message naming a tray with a failed SPS value when t is past the tray list.
   */
  function ReadingOf(reader: SiPMDataReader, t: int, r: int, s: int, at25C: bool): (res: Result<Reading>)
    reads reader
    ensures res == Ok(Excluded) <==> t == -1
    ensures res.Err? ==> res.error == OutOfRange
    ensures t != -1 && reader.GetVbdTestIndexIV(t, r, s, at25C) == Ok(SENTINEL) ==> res == Ok(FailedIV)
  {
    if t == -1 then Ok(Excluded)
    else
      var iv :- reader.GetVbdTestIndexIV(t, r, s, at25C);
      if iv == SENTINEL then Ok(FailedIV)
      else
        var sps :- reader.GetVbdTestIndexSPS(t, r, s, at25C);
        if sps == SENTINEL then
          if VectorAt(reader.trayStrings, t).Err? then Err(OutOfRange) else Ok(FailedSPS(iv))
        else Ok(Measured(iv, sps))
  }

  /** The running sums and flags of one slot. */
  datatype Tally = Tally(sumIV: real, sumSPS: real, failedIV: bool, failedSPS: bool, passed: nat)

  /** One reading added to the tally. */
  function Add(t: Tally, x: Reading): Tally {
    match x
    case Excluded => t
    case FailedIV => t.(failedIV := true)
    case FailedSPS(iv) => t.(sumIV := t.sumIV + iv, failedSPS := true)
    case Measured(iv, sps) => t.(sumIV := t.sumIV + iv, sumSPS := t.sumSPS + sps, passed := t.passed + 1)
  }

  /** The tally over the first n collected entries; the first reading that throws ends it. */
  function TallyOf(reader: SiPMDataReader, indices: seq<int>, r: int, s: int, at25C: bool, n: nat): (res: Result<Tally>)
    reads reader
    requires n <= |indices|
    ensures res.Err? ==> res.error == OutOfRange
  {
    if n == 0 then Ok(Tally(0.0, 0.0, false, false, 0))
    else
      var t :- TallyOf(reader, indices, r, s, at25C, n - 1);
      var x :- ReadingOf(reader, indices[n - 1], r, s, at25C);
      Ok(Add(t, x))
  }

  /** Once a reading has thrown, later entries change nothing. */
  lemma {:induction false} TallyStops(reader: SiPMDataReader, indices: seq<int>, r: int, s: int, at25C: bool, n: nat)
    requires n <= |indices| && TallyOf(reader, indices, r, s, at25C, n).Err?
    ensures TallyOf(reader, indices, r, s, at25C, |indices|) == TallyOf(reader, indices, r, s, at25C, n)
    decreases |indices| - n
  {
    if n < |indices| {
      TallyStops(reader, indices, r, s, at25C, n + 1);
    }
  }

  /** How many entries of xs are not marked -1. */
  function LiveCount(xs: seq<int>): (c: nat)
    ensures c <= |xs|
  {
    if |xs| == 0 then 0 else LiveCount(xs[..|xs| - 1]) + (if xs[|xs| - 1] != -1 then 1 else 0)
  }

  /** Every unmarked entry has both values of the slot, neither the sentinel. */
  predicate AllMeasured(reader: SiPMDataReader, indices: seq<int>, r: int, s: int, at25C: bool, n: nat)
    reads reader
    requires n <= |indices|
  {
    forall j :: 0 <= j < n && indices[j] != -1 ==>
      ReadingOf(reader, indices[j], r, s, at25C).Ok? && ReadingOf(reader, indices[j], r, s, at25C).value.Measured?
  }

  /** The tally succeeds exactly when no reading throws. */
  lemma {:induction false} TallyOk(reader: SiPMDataReader, indices: seq<int>, r: int, s: int, at25C: bool, n: nat)
    requires n <= |indices|
    ensures TallyOf(reader, indices, r, s, at25C, n).Ok? <==>
              forall j :: 0 <= j < n ==> ReadingOf(reader, indices[j], r, s, at25C).Ok?
  {
    if n > 0 {
      TallyOk(reader, indices, r, s, at25C, n - 1);
    }
  }

  /**
   * The failure flags: the IV flag is set exactly when some repetition has the IV sentinel, the
   * SPS flag exactly when some repetition passes IV and has the SPS sentinel.
   */
  lemma {:induction false} TallyFlags(reader: SiPMDataReader, indices: seq<int>, r: int, s: int, at25C: bool, n: nat)
    requires n <= |indices| && TallyOf(reader, indices, r, s, at25C, n).Ok?
    ensures TallyOf(reader, indices, r, s, at25C, n).value.failedIV <==>
              exists j :: 0 <= j < n && ReadingOf(reader, indices[j], r, s, at25C) == Ok(FailedIV)
    ensures TallyOf(reader, indices, r, s, at25C, n).value.failedSPS <==>
              exists j :: 0 <= j < n && ReadingOf(reader, indices[j], r, s, at25C).Ok?
                          && ReadingOf(reader, indices[j], r, s, at25C).value.FailedSPS?
  {
    if n > 0 {
      TallyFlags(reader, indices, r, s, at25C, n - 1);
      var x := ReadingOf(reader, indices[n - 1], r, s, at25C);
      var t := TallyOf(reader, indices, r, s, at25C, n).value;
      var t0 := TallyOf(reader, indices, r, s, at25C, n - 1).value;
      assert t == Add(t0, x.value);
    }
  }

  /**
   * The count of fully measured repetitions is at most the number of unmarked entries, and
   * equals it, with every unmarked entry measured, when neither flag is set.
   */
  lemma {:induction false} TallyCount(reader: SiPMDataReader, indices: seq<int>, r: int, s: int, at25C: bool, n: nat)
    requires n <= |indices| && TallyOf(reader, indices, r, s, at25C, n).Ok?
    ensures TallyOf(reader, indices, r, s, at25C, n).value.passed <= LiveCount(indices[..n])
    ensures !TallyOf(reader, indices, r, s, at25C, n).value.failedIV && !TallyOf(reader, indices, r, s, at25C, n).value.failedSPS ==>
              TallyOf(reader, indices, r, s, at25C, n).value.passed == LiveCount(indices[..n])
              && AllMeasured(reader, indices, r, s, at25C, n)
  {
    if n > 0 {
      TallyCount(reader, indices, r, s, at25C, n - 1);
      assert indices[..n][..n - 1] == indices[..n - 1];
      var x := ReadingOf(reader, indices[n - 1], r, s, at25C);
      var t := TallyOf(reader, indices, r, s, at25C, n).value;
      var t0 := TallyOf(reader, indices, r, s, at25C, n - 1).value;
      assert t == Add(t0, x.value);
    }
  }

  /**
   * The histogram fill reads both values of every unmarked repetition, so it throws at the first
   * lookup outside the records, the SPS lookup included even where the IV value was the sentinel.
   */
  function FillCheck(reader: SiPMDataReader, indices: seq<int>, r: int, s: int, at25C: bool, n: nat): (res: Option<Failure>)
    reads reader
    requires n <= |indices|
    ensures res.Some? ==> res.value == OutOfRange
  {
    if n == 0 then None
    else
      var before := FillCheck(reader, indices, r, s, at25C, n - 1);
      var t := indices[n - 1];
      if before.Some? || t == -1 then before
      else if reader.GetVbdTestIndexIV(t, r, s, at25C).Err? then Some(OutOfRange)
      else if reader.GetVbdTestIndexSPS(t, r, s, at25C).Err? then Some(OutOfRange)
      else None
  }

  /** After a tally that went through, the fill can only throw on a repetition whose IV value failed. */
  lemma {:induction false} FillAfterTally(reader: SiPMDataReader, indices: seq<int>, r: int, s: int, at25C: bool, n: nat)
    requires n <= |indices|
    requires TallyOf(reader, indices, r, s, at25C, n).Ok?
    requires !TallyOf(reader, indices, r, s, at25C, n).value.failedIV
    ensures FillCheck(reader, indices, r, s, at25C, n).None?
  {
    if n > 0 {
      var t0 := TallyOf(reader, indices, r, s, at25C, n - 1).value;
      var x := ReadingOf(reader, indices[n - 1], r, s, at25C).value;
      assert TallyOf(reader, indices, r, s, at25C, n).value == Add(t0, x);
      FillAfterTally(reader, indices, r, s, at25C, n - 1);
    }
  }

  /** The sums of squared deviations of the first n unmarked repetitions from the slot averages. */
  function SpreadOf(reader: SiPMDataReader, indices: seq<int>, r: int, s: int, at25C: bool,
                    avgIV: Double, avgSPS: Double, n: nat): (Double, Double)
    reads reader
    requires n <= |indices| && AllMeasured(reader, indices, r, s, at25C, n)
  {
    if n == 0 then (Finite(0.0), Finite(0.0))
    else
      var before := SpreadOf(reader, indices, r, s, at25C, avgIV, avgSPS, n - 1);
      if indices[n - 1] == -1 then before
      else
        var x := ReadingOf(reader, indices[n - 1], r, s, at25C).value;
        (Plus(before.0, Square(Minus(x.iv, avgIV))), Plus(before.1, Square(Minus(x.sps, avgSPS))))
  }

  /** With finite averages the sums of squares are finite and never negative. */
  lemma {:induction false} SpreadNonNegative(reader: SiPMDataReader, indices: seq<int>, r: int, s: int, at25C: bool,
                                             avgIV: Double, avgSPS: Double, n: nat)
    requires n <= |indices| && AllMeasured(reader, indices, r, s, at25C, n)
    requires avgIV.Finite? && avgSPS.Finite?
    ensures SpreadOf(reader, indices, r, s, at25C, avgIV, avgSPS, n).0.Finite?
    ensures SpreadOf(reader, indices, r, s, at25C, avgIV, avgSPS, n).0.value >= 0.0
    ensures SpreadOf(reader, indices, r, s, at25C, avgIV, avgSPS, n).1.Finite?
    ensures SpreadOf(reader, indices, r, s, at25C, avgIV, avgSPS, n).1.value >= 0.0
  {
    if n > 0 {
      SpreadNonNegative(reader, indices, r, s, at25C, avgIV, avgSPS, n - 1);
      if indices[n - 1] != -1 {
        var x := ReadingOf(reader, indices[n - 1], r, s, at25C).value;
        var d := x.iv - avgIV.value;
        var e := x.sps - avgSPS.value;
        assert d * d >= 0.0 && e * e >= 0.0;
      }
    }
  }

  /** Lookups that cannot leave the records always give a reading. */
  lemma ReadingInRange(reader: SiPMDataReader, t: int, r: int, s: int, at25C: bool)
    requires reader.Valid()
    requires t == -1 || (0 <= t < |reader.ivData| && t < |reader.spsData| && t < |reader.trayStrings|)
    requires 0 <= SET_WIDTH * r + s < CELLS
    ensures ReadingOf(reader, t, r, s, at25C).Ok?
  {
    if t != -1 {
      assert reader.ivData[t].WellFormed() && reader.spsData[t].WellFormed();
    }
  }

  /** With every lookup inside the records the histogram fill never throws. */
  lemma {:induction false} FillInRange(reader: SiPMDataReader, indices: seq<int>, r: int, s: int, at25C: bool, n: nat)
    requires n <= |indices| && reader.Valid()
    requires forall j :: 0 <= j < |indices| ==> indices[j] == -1 || (0 <= indices[j] < |reader.ivData| && indices[j] < |reader.spsData|)
    requires 0 <= SET_WIDTH * r + s < CELLS
    ensures FillCheck(reader, indices, r, s, at25C, n).None?
  {
    if n > 0 {
      FillInRange(reader, indices, r, s, at25C, n - 1);
      var t := indices[n - 1];
      if t != -1 {
        assert reader.ivData[t].WellFormed() && reader.spsData[t].WellFormed();
      }
    }
  }

  /** The outcome for one slot: failure flags, averages, and the spreads when nothing failed. */
  datatype SlotResult = SlotResult(slot: int, failedIV: bool, failedSPS: bool, avgIV: Double, avgSPS: Double,
                                   spread: Option<(Double, Double)>)

  /**
   * Slot s of test set r. The averages divide by total, the count of fully measured repetitions
   * of slot 0 of the set, whatever this slot's count is. The spreads are kept only when no
   * repetition failed.
   */
  function SlotOf(reader: SiPMDataReader, indices: seq<int>, r: int, s: int, at25C: bool, total: int): (res: Result<SlotResult>)
    reads reader
    ensures res.Err? ==> res.error == OutOfRange
    ensures res.Ok? ==> (res.value.spread.Some? <==> !res.value.failedIV && !res.value.failedSPS)
  {
    var t :- TallyOf(reader, indices, r, s, at25C, |indices|);
    var avgIV := Divide(t.sumIV, total);
    var avgSPS := Divide(t.sumSPS, total);
    var fill := FillCheck(reader, indices, r, s, at25C, |indices|);
    if fill.Some? then Err(fill.value)
    else if t.failedIV || t.failedSPS then Ok(SlotResult(s, t.failedIV, t.failedSPS, avgIV, avgSPS, None))
    else
      TallyCount(reader, indices, r, s, at25C, |indices|);
      Ok(SlotResult(s, false, false, avgIV, avgSPS, Some(SpreadOf(reader, indices, r, s, at25C, avgIV, avgSPS, |indices|))))
  }

  /** The divisor of every slot of a set: the fully measured repetitions of its slot 0. */
  function SlotZeroCount(reader: SiPMDataReader, indices: seq<int>, r: int, at25C: bool): nat
    reads reader
  {
    match TallyOf(reader, indices, r, 0, at25C, |indices|)
    case Ok(t) => t.passed
    case Err(_) => 0
  }

  /** The slots 0 .. w-1 of test set r, in order; the first slot that throws ends the set. */
  function SetResults(reader: SiPMDataReader, indices: seq<int>, r: int, at25C: bool, w: nat): (res: Result<seq<SlotResult>>)
    reads reader
    ensures res.Ok? ==> |res.value| == w
    ensures res.Ok? ==> forall s :: 0 <= s < w ==> res.value[s].slot == s
    ensures res.Err? ==> res.error == OutOfRange
  {
    if w == 0 then Ok([])
    else
      var before :- SetResults(reader, indices, r, at25C, w - 1);
      var slot :- SlotOf(reader, indices, r, w - 1, at25C, SlotZeroCount(reader, indices, r, at25C));
      Ok(before + [slot])
  }

  /** Once a slot has thrown, the later slots change nothing. */
  lemma {:induction false} SetStops(reader: SiPMDataReader, indices: seq<int>, r: int, at25C: bool, n: nat, w: nat)
    requires n <= w && SetResults(reader, indices, r, at25C, n).Err?
    ensures SetResults(reader, indices, r, at25C, w) == SetResults(reader, indices, r, at25C, n)
    decreases w - n
  {
    if n < w {
      SetStops(reader, indices, r, at25C, n, w - 1);
    }
  }

  /**
   * Every slot of a set divides by the count of slot 0: a repetition failing only in a later
   * slot still counts in that slot's divisor, one failing only in slot 0 is missing from all.
   */
  lemma {:induction false} SlotDivisor(reader: SiPMDataReader, indices: seq<int>, r: int, at25C: bool, w: nat, s: nat)
    requires SetResults(reader, indices, r, at25C, w).Ok? && s < w
    ensures TallyOf(reader, indices, r, s, at25C, |indices|).Ok?
    ensures SetResults(reader, indices, r, at25C, w).value[s].avgIV ==
              Divide(TallyOf(reader, indices, r, s, at25C, |indices|).value.sumIV, SlotZeroCount(reader, indices, r, at25C))
    ensures SetResults(reader, indices, r, at25C, w).value[s].avgSPS ==
              Divide(TallyOf(reader, indices, r, s, at25C, |indices|).value.sumSPS, SlotZeroCount(reader, indices, r, at25C))
    decreases w
  {
    if s < w - 1 {
      SlotDivisor(reader, indices, r, at25C, w - 1, s);
    }
  }

  /** A slot with no fully measured repetition in slot 0 has no finite average. */
  lemma NoPassedNoAverage(reader: SiPMDataReader, indices: seq<int>, r: int, at25C: bool, w: nat, s: nat)
    requires SetResults(reader, indices, r, at25C, w).Ok? && s < w
    requires SlotZeroCount(reader, indices, r, at25C) == 0
    ensures !SetResults(reader, indices, r, at25C, w).value[s].avgIV.Finite?
    ensures !SetResults(reader, indices, r, at25C, w).value[s].avgSPS.Finite?
  {
    SlotDivisor(reader, indices, r, at25C, w, s);
  }

  /** The tray loop of one slot: one pass over the collected entries. */
  method TallySlot(reader: SiPMDataReader, indices: seq<int>, r: int, s: int, at25C: bool) returns (res: Result<Tally>)
    ensures res == TallyOf(reader, indices, r, s, at25C, |indices|)
  {
    var sumIV, sumSPS, failedIV, failedSPS, passed := 0.0, 0.0, false, false, 0;
    for i := 0 to |indices|
      invariant TallyOf(reader, indices, r, s, at25C, i) == Ok(Tally(sumIV, sumSPS, failedIV, failedSPS, passed))
    {
      if indices[i] != -1 {
        var iv := reader.GetVbdTestIndexIV(indices[i], r, s, at25C);
        if iv.Err? {
          TallyStops(reader, indices, r, s, at25C, i + 1);
          return Err(iv.error);
        }
        if iv.value == SENTINEL {
          failedIV := true;
        } else {
          sumIV := sumIV + iv.value;
          var sps := reader.GetVbdTestIndexSPS(indices[i], r, s, at25C);
          if sps.Err? {
            TallyStops(reader, indices, r, s, at25C, i + 1);
            return Err(sps.error);
          }
          if sps.value == SENTINEL {
            if VectorAt(reader.trayStrings, indices[i]).Err? {
              TallyStops(reader, indices, r, s, at25C, i + 1);
              return Err(OutOfRange);
            }
            failedSPS := true;
          } else {
            sumSPS := sumSPS + sps.value;
            passed := passed + 1;
          }
        }
      }
    }
    return Ok(Tally(sumIV, sumSPS, failedIV, failedSPS, passed));
  }

  /** The histogram fill of one slot, reduced to the lookups it makes. */
  method FillSlot(reader: SiPMDataReader, indices: seq<int>, r: int, s: int, at25C: bool) returns (failure: Option<Failure>)
    ensures failure == FillCheck(reader, indices, r, s, at25C, |indices|)
  {
    failure := None;
    for i := 0 to |indices|
      invariant failure == FillCheck(reader, indices, r, s, at25C, i)
      invariant failure.None?
    {
      if indices[i] != -1 {
        if reader.GetVbdTestIndexIV(indices[i], r, s, at25C).Err? || reader.GetVbdTestIndexSPS(indices[i], r, s, at25C).Err? {
          failure := Some(OutOfRange);
          FillCheckStops(reader, indices, r, s, at25C, i + 1);
          return;
        }
      }
    }
  }

  /** Once the fill has thrown, later entries change nothing. */
  lemma {:induction false} FillCheckStops(reader: SiPMDataReader, indices: seq<int>, r: int, s: int, at25C: bool, n: nat)
    requires n <= |indices| && FillCheck(reader, indices, r, s, at25C, n).Some?
    ensures FillCheck(reader, indices, r, s, at25C, |indices|) == FillCheck(reader, indices, r, s, at25C, n)
    decreases |indices| - n
  {
    if n < |indices| {
      assert FillCheck(reader, indices, r, s, at25C, n + 1) == FillCheck(reader, indices, r, s, at25C, n);
      FillCheckStops(reader, indices, r, s, at25C, n + 1);
    }
  }

  /** The residual loop of one slot. */
  method SpreadSlot(reader: SiPMDataReader, indices: seq<int>, r: int, s: int, at25C: bool, avgIV: Double, avgSPS: Double)
    returns (spread: (Double, Double))
    requires AllMeasured(reader, indices, r, s, at25C, |indices|)
    ensures spread == SpreadOf(reader, indices, r, s, at25C, avgIV, avgSPS, |indices|)
  {
    var sqIV, sqSPS := Finite(0.0), Finite(0.0);
    for i := 0 to |indices|
      invariant AllMeasured(reader, indices, r, s, at25C, i)
      invariant (sqIV, sqSPS) == SpreadOf(reader, indices, r, s, at25C, avgIV, avgSPS, i)
    {
      if indices[i] != -1 {
        var iv := reader.GetVbdTestIndexIV(indices[i], r, s, at25C).value;
        var sps := reader.GetVbdTestIndexSPS(indices[i], r, s, at25C).value;
        var devIV := Minus(iv, avgIV);
        var devSPS := Minus(sps, avgSPS);
        sqIV := Plus(sqIV, Square(devIV));
        sqSPS := Plus(sqSPS, Square(devSPS));
      }
    }
    spread := (sqIV, sqSPS);
  }

  /**
   * One pass of the slot loop: the tray loop, the averages, the histogram fill and, when
   * nothing failed, the residual loop. In slot 0 the divisor is this slot's own count of fully
   * measured repetitions; later slots keep the one they are given.
   */
  method AnalyseSlot(reader: SiPMDataReader, indices: seq<int>, r: int, s: int, at25C: bool, total: int)
    returns (res: Result<SlotResult>, total': int)
    ensures total' == if s == 0 then SlotZeroCount(reader, indices, r, at25C) else total
    ensures res == SlotOf(reader, indices, r, s, at25C, total')
  {
    total' := if s == 0 then 0 else total;
    var t := TallySlot(reader, indices, r, s, at25C);
    if t.Err? {
      return Err(t.error), total';
    }
    if s == 0 {
      total' := t.value.passed;
    }
    var avgIV := Divide(t.value.sumIV, total');
    var avgSPS := Divide(t.value.sumSPS, total');
    var fill := FillSlot(reader, indices, r, s, at25C);
    if fill.Some? {
      return Err(fill.value), total';
    }
    if t.value.failedIV || t.value.failedSPS {
      res := Ok(SlotResult(s, t.value.failedIV, t.value.failedSPS, avgIV, avgSPS, None));
    } else {
      TallyCount(reader, indices, r, s, at25C, |indices|);
      var spread := SpreadSlot(reader, indices, r, s, at25C, avgIV, avgSPS);
      res := Ok(SlotResult(s, false, false, avgIV, avgSPS, Some(spread)));
    }
  }

  /** The slot loop of test set r over its first w slots. */
  method AnalyseSet(reader: SiPMDataReader, indices: seq<int>, r: int, at25C: bool, w: nat) returns (res: Result<seq<SlotResult>>)
    ensures res == SetResults(reader, indices, r, at25C, w)
  {
    var slots: seq<SlotResult> := [];
    var total := 0;
    for s := 0 to w
      invariant SetResults(reader, indices, r, at25C, s) == Ok(slots)
      invariant s > 0 ==> total == SlotZeroCount(reader, indices, r, at25C)
    {
      var slot;
      slot, total := AnalyseSlot(reader, indices, r, s, at25C, total);
      if slot.Err? {
        SetStops(reader, indices, r, at25C, s + 1, w);
        return Err(slot.error);
      }
      slots := slots + [slot.value];
    }
    return Ok(slots);
  }

  // ---------------------------------------------------------------------------------------
  // How many slots a test set has
  // ---------------------------------------------------------------------------------------

  /**
   * The slots of test set r that exist on a tray: 32, except for the last set, which holds the
   * 460 - 14 * 32 = 12 positions left over.
   */
  function SlotsInSet(r: int): (w: nat)
    ensures w <= SET_WIDTH
    ensures 0 <= r && w > 0 ==> SET_WIDTH * r + w <= CELLS
    ensures 0 <= r && SET_WIDTH * r < CELLS ==> w == SET_WIDTH || SET_WIDTH * r + w == CELLS
  {
    if SET_WIDTH * r + SET_WIDTH <= CELLS then SET_WIDTH
    else if SET_WIDTH * r < CELLS then CELLS - SET_WIDTH * r
    else 0
  }

  /**
   * The per-set loop as written runs over all 32 slots, so for the last test set, whose slots
   * 12 .. 31 do not exist, the IV lookup of slot 12 on the base tray throws whatever the data.
   */
  lemma LastSetOverrunsAsWritten(reader: SiPMDataReader, indices: seq<int>, at25C: bool)
    requires reader.Valid()
    requires |indices| > 0 && 0 <= indices[0] < |reader.ivData|
    ensures SetResults(reader, indices, TEST_SETS - 1, at25C, SET_WIDTH).Err?
  {
    var r := TEST_SETS - 1;
    var s := CELLS - SET_WIDTH * r;
    assert reader.ivData[indices[0]].WellFormed();
    assert reader.GetVbdTestIndexIV(indices[0], r, s, at25C).Err?;
    assert TallyOf(reader, indices, r, s, at25C, 1).Err?;
    TallyStops(reader, indices, r, s, at25C, 1);
    assert SetResults(reader, indices, r, at25C, s + 1).Err?;
    SetStops(reader, indices, r, at25C, s + 1, SET_WIDTH);
  }

  /** Every slot that exists can be analysed when the collected trays are listed and have both records. */
  lemma {:induction false} CorrectedSetDoesNotThrow(reader: SiPMDataReader, indices: seq<int>, r: int, at25C: bool, w: nat)
    requires reader.Valid()
    requires 0 <= r && w <= SlotsInSet(r)
    requires forall j :: 0 <= j < |indices| ==>
               indices[j] == -1 || (0 <= indices[j] < |reader.ivData| && indices[j] < |reader.spsData| && indices[j] < |reader.trayStrings|)
    ensures SetResults(reader, indices, r, at25C, w).Ok?
  {
    if w > 0 {
      CorrectedSetDoesNotThrow(reader, indices, r, at25C, w - 1);
      var s := w - 1;
      forall j | 0 <= j < |indices|
        ensures ReadingOf(reader, indices[j], r, s, at25C).Ok?
      {
        ReadingInRange(reader, indices[j], r, s, at25C);
      }
      TallyOk(reader, indices, r, s, at25C, |indices|);
      FillInRange(reader, indices, r, s, at25C, |indices|);
    }
  }

  // ---------------------------------------------------------------------------------------
  // The reproducibility analysis
  // ---------------------------------------------------------------------------------------

  /** The slots of one repeated test set. */
  datatype SetAnalysis = SetAnalysis(testSet: int, slots: seq<SlotResult>)

  /** The outcome of the reproducibility analysis. */
  datatype Reproducibility =
    | BaseNotFound
    | TooFewRepeats(indices: seq<int>)
    | Analysed(indices: seq<int>, repeated: seq<bool>, sets: seq<SetAnalysis>)

  /** The repeated sets among the first n, in order, each over the slots it has. */
  function SetsOf(reader: SiPMDataReader, indices: seq<int>, repeated: seq<bool>, at25C: bool, n: nat): (res: Result<seq<SetAnalysis>>)
    reads reader
    requires n <= |repeated|
    ensures res.Err? ==> res.error == OutOfRange
  {
    if n == 0 then Ok([])
    else
      var before :- SetsOf(reader, indices, repeated, at25C, n - 1);
      if !repeated[n - 1] then Ok(before)
      else
        var slots :- SetResults(reader, indices, n - 1, at25C, SlotsInSet(n - 1));
        Ok(before + [SetAnalysis(n - 1, slots)])
  }

  /** Once a repeated set has thrown, the later sets change nothing. */
  lemma {:induction false} SetsOfStops(reader: SiPMDataReader, indices: seq<int>, repeated: seq<bool>, at25C: bool, n: nat, m: nat)
    requires n <= m <= |repeated| && SetsOf(reader, indices, repeated, at25C, n).Err?
    ensures SetsOf(reader, indices, repeated, at25C, m) == SetsOf(reader, indices, repeated, at25C, n)
    decreases m - n
  {
    if n < m {
      SetsOfStops(reader, indices, repeated, at25C, n, m - 1);
    }
  }

  /** The analysed sets are repeated ones below n, in increasing order, each with one result per slot that exists. */
  lemma {:induction false} SetsOfOrdered(reader: SiPMDataReader, indices: seq<int>, repeated: seq<bool>, at25C: bool, n: nat)
    requires n <= |repeated| && SetsOf(reader, indices, repeated, at25C, n).Ok?
    ensures var sets := SetsOf(reader, indices, repeated, at25C, n).value;
            (forall q :: 0 <= q < |sets| ==>
               0 <= sets[q].testSet < n && repeated[sets[q].testSet] && |sets[q].slots| == SlotsInSet(sets[q].testSet))
            && (forall a, b :: 0 <= a < b < |sets| ==> sets[a].testSet < sets[b].testSet)
  {
    if n > 0 {
      SetsOfOrdered(reader, indices, repeated, at25C, n - 1);
    }
  }

  /** Every repeated set below n is analysed. */
  lemma {:induction false} SetsOfComplete(reader: SiPMDataReader, indices: seq<int>, repeated: seq<bool>, at25C: bool, n: nat, r: nat)
    requires n <= |repeated| && SetsOf(reader, indices, repeated, at25C, n).Ok?
    requires r < n && repeated[r]
    ensures exists q :: 0 <= q < |SetsOf(reader, indices, repeated, at25C, n).value|
                        && SetsOf(reader, indices, repeated, at25C, n).value[q].testSet == r
  {
    var sets := SetsOf(reader, indices, repeated, at25C, n).value;
    if r == n - 1 {
      var before := SetsOf(reader, indices, repeated, at25C, n - 1).value;
      assert sets[|before|].testSet == r;
    } else {
      SetsOfComplete(reader, indices, repeated, at25C, n - 1, r);
      var before := SetsOf(reader, indices, repeated, at25C, n - 1).value;
      var q :| 0 <= q < |before| && before[q].testSet == r;
      assert sets[q].testSet == r;
    }
  }

  /** With both records of every collected tray present and every tray listed, no repeated set throws. */
  lemma {:induction false} AnalysisCompletes(reader: SiPMDataReader, indices: seq<int>, repeated: seq<bool>, at25C: bool, n: nat)
    requires reader.Valid() && n <= |repeated|
    requires forall j :: 0 <= j < |indices| ==>
               indices[j] == -1 || (0 <= indices[j] < |reader.ivData| && indices[j] < |reader.spsData| && indices[j] < |reader.trayStrings|)
    ensures SetsOf(reader, indices, repeated, at25C, n).Ok?
  {
    if n > 0 {
      AnalysisCompletes(reader, indices, repeated, at25C, n - 1);
      CorrectedSetDoesNotThrow(reader, indices, n - 1, at25C, SlotsInSet(n - 1));
    }
  }

  /** The loop over the test sets: every repeated one is analysed over the slots it has. */
  method AnalyseRepeatedSets(reader: SiPMDataReader, indices: seq<int>, repeated: seq<bool>, at25C: bool)
    returns (res: Result<seq<SetAnalysis>>)
    requires |repeated| == TEST_SETS
    ensures res == SetsOf(reader, indices, repeated, at25C, TEST_SETS)
  {
    var sets: seq<SetAnalysis> := [];
    for r := 0 to TEST_SETS
      invariant SetsOf(reader, indices, repeated, at25C, r) == Ok(sets)
    {
      if repeated[r] {
        var slots := AnalyseSet(reader, indices, r, at25C, SlotsInSet(r));
        if slots.Err? {
          SetsOfStops(reader, indices, repeated, at25C, r + 1, TEST_SETS);
          return Err(slots.error);
        }
        sets := sets + [SetAnalysis(r, slots.value)];
      }
    }
    return Ok(sets);
  }

  /**
   * The reproducibility analysis of the repetitions of base: gather them, stop when fewer than
   * two were found, otherwise analyse every repeated test set over the slots it has.
   */
  method MakeReproducibility(reader: SiPMDataReader, base: string, at25C: bool) returns (res: Result<Reproducibility>)
    ensures base !in reader.trayStrings ==> res == Ok(BaseNotFound)
    ensures res == Ok(BaseNotFound) ==> base !in reader.trayStrings
    ensures res.Err? ==> res.error == OutOfRange
    ensures res.Ok? && res.value.TooFewRepeats? ==>
              |res.value.indices| < 2 && Collected(reader, base, res.value.indices, [])
    ensures res.Ok? && res.value.Analysed? ==>
              |res.value.indices| >= 2 && Collected(reader, base, res.value.indices, res.value.repeated)
              && |res.value.repeated| == TEST_SETS
              && SetsOf(reader, res.value.indices, res.value.repeated, at25C, TEST_SETS) == Ok(res.value.sets)
  {
    var g :- GatherRepeated(reader, base);
    if g.NotFound? {
      return Ok(BaseNotFound);
    }
    if |g.indices| < 2 {
      return Ok(TooFewRepeats(g.indices));
    }
    var sets :- AnalyseRepeatedSets(reader, g.indices, g.repeated, at25C);
    return Ok(Analysed(g.indices, g.repeated, sets));
  }

  // ---------------------------------------------------------------------------------------
  // The operating-voltage scan
  // ---------------------------------------------------------------------------------------

  const VOPSCAN: string := "vopscan"

  /** A string containing sub is at least as long as sub. */
  lemma {:induction false} ContainsLength(s: string, sub: string)
    requires Contains(s, sub)
    ensures |sub| <= |s|
    decreases |s|
  {
    if !StartsWith(s, sub) {
      ContainsLength(s[1..], sub);
    }
  }

  /** The last two characters of a tray string. */
  function LastTwo(s: string): string
    requires |s| >= 2
  {
    s[|s| - 2..]
  }

  /** The operating voltage of a scan tray whose name ends in n: 42 V plus n hundredths. */
  function ScanVoltage(n: int): real {
    42.0 + 0.01 * n as real
  }

  /** The scan trays and their operating voltages. */
  datatype VopScan = NoScanTrays | Scan(indices: seq<int>, voltages: seq<real>)

  /** The tray strings the scan selects. */
  predicate IsScanTray(tray: string) {
    Contains(tray, VOPSCAN)
  }

  /** The suffix of a scan tray is one stoi accepts. */
  predicate Readable(tray: string) {
    |tray| >= 2 && Stoi(LastTwo(tray)).Ok?
  }

  /** v is the operating voltage read from the tray at position i. */
  predicate VoltageOf(trays: seq<string>, i: int, v: real) {
    0 <= i < |trays| && Readable(trays[i]) && v == ScanVoltage(Stoi(LastTwo(trays[i])).value)
  }

  /** The selection loop over the first n trays has kept exactly the scan trays among them, in order. */
  ghost predicate Selected(trays: seq<string>, n: nat, indices: seq<int>, voltages: seq<real>)
    requires n <= |trays|
  {
    |indices| == |voltages|
    && (forall j :: j in indices <==> 0 <= j < n && IsScanTray(trays[j]))
    && (forall a, b :: 0 <= a < b < |indices| ==> indices[a] < indices[b])
    && (forall q :: 0 <= q < |indices| ==> VoltageOf(trays, indices[q], voltages[q]))
  }

  /** Selecting the next tray, or passing it over, keeps the selection exact. */
  lemma SelectNext(trays: seq<string>, n: nat, indices: seq<int>, voltages: seq<real>)
    requires n < |trays| && Selected(trays, n, indices, voltages)
    requires IsScanTray(trays[n]) ==> Readable(trays[n])
    ensures IsScanTray(trays[n]) ==>
              Selected(trays, n + 1, indices + [n], voltages + [ScanVoltage(Stoi(LastTwo(trays[n])).value)])
    ensures !IsScanTray(trays[n]) ==> Selected(trays, n + 1, indices, voltages)
  {
    if IsScanTray(trays[n]) {
      var picked := indices + [n];
      forall a, b | 0 <= a < b < |picked| ensures picked[a] < picked[b] {
        if b == |indices| {
          assert picked[a] in indices;
        }
      }
    }
  }

  /**
   * The selection of the operating-voltage scan: in list order, every tray containing
   * "vopscan", with the voltage read from its last two characters; a suffix stoi rejects
   * throws, and no scan tray at all ends the analysis.
   */
  method OperatingVoltageScan(trays: seq<string>) returns (res: Result<VopScan>)
    ensures res == Ok(NoScanTrays) <==> forall i :: 0 <= i < |trays| ==> !IsScanTray(trays[i])
    ensures res.Err? <==> exists i :: 0 <= i < |trays| && IsScanTray(trays[i]) && !Readable(trays[i])
    ensures res.Ok? && res.value.Scan? ==>
              |res.value.indices| > 0 && Selected(trays, |trays|, res.value.indices, res.value.voltages)
  {
    var indices: seq<int> := [];
    var voltages: seq<real> := [];
    for i := 0 to |trays|
      invariant Selected(trays, i, indices, voltages)
      invariant forall j :: 0 <= j < i && IsScanTray(trays[j]) ==> Readable(trays[j])
    {
      if IsScanTray(trays[i]) {
        ContainsLength(trays[i], VOPSCAN);
        var n := Stoi(LastTwo(trays[i]));
        if n.Err? {
          assert IsScanTray(trays[i]) && !Readable(trays[i]);
          return Err(n.error);
        }
        SelectNext(trays, i, indices, voltages);
        indices := indices + [i];
        voltages := voltages + [ScanVoltage(n.value)];
      } else {
        SelectNext(trays, i, indices, voltages);
      }
    }
    SelectedAll(trays, indices, voltages);
    if |indices| == 0 {
      return Ok(NoScanTrays);
    }
    return Ok(Scan(indices, voltages));
  }

  /** After the whole list, the selection is empty exactly when no tray is a scan tray. */
  lemma SelectedAll(trays: seq<string>, indices: seq<int>, voltages: seq<real>)
    requires Selected(trays, |trays|, indices, voltages)
    ensures |indices| == 0 <==> forall i :: 0 <= i < |trays| ==> !IsScanTray(trays[i])
  {
    if |indices| > 0 {
      assert indices[0] in indices;
    }
  }

  /** A scan tray whose name ends in the two digits of n runs at 42 V plus n hundredths. */
  lemma ScanVoltageOfSuffix(prefix: string, n: nat)
    requires 10 <= n <= 99
    ensures |prefix + Dec(n)| >= 2 && LastTwo(prefix + Dec(n)) == Dec(n)
    ensures Stoi(LastTwo(prefix + Dec(n))) == Ok(n)
    ensures ScanVoltage(Stoi(LastTwo(prefix + Dec(n))).value) == 42.0 + n as real / 100.0
  {
    var d := Dec(n);
    assert |d| == 2;
    assert LastTwo(prefix + d) == d;
    StoiDec(n);
  }
}
