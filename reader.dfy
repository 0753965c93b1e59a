/**
 * SiPMDataReader: reads a batch manifest, keeps the list of usable trays, ingests each tray's
 * IV and SPS result files into per-tray records, and answers indexed queries on them.
 * The file system is a parameter; console output is not modelled.
 */
module Reader {
  import opened Config
  import opened Numeric
  import opened Text
  import opened Records
  import opened Manifest

  /** Reads one tray's IV file: a header line, then one line per SiPM into prefilled arrays. */
  method ReadTrayIV(lines: seq<string>) returns (res: Result<IVRecord>)
    ensures res == IVRecordOf(lines)
  {
    var cells := new IVCell[CELLS](_ => MISSING_IV);
    var note := "";
    var data := if |lines| == 0 then [] else lines[1..];
    assert BuildIV(data[..0]) == Ok(IVFromCells(note, cells[..])) by {
      assert data[..0] == [];
      assert cells[..] == seq(CELLS, _ => MISSING_IV);
      EmptyFromCells();
    }
    var i := 0;
    while i < |data|
      invariant 0 <= i <= |data|
      invariant BuildIV(data[..i]) == Ok(IVFromCells(note, cells[..]))
    {
      var parsed := ParseIVLine(data[i]);
      if parsed.Err? {
        IVFailureStops(data, i);
        return Err(parsed.error);
      }
      var p := parsed.value;
      IVStep(data, i);
      IVStoreCell(note, cells[..], p, i == 0);
      cells[p.index] := p.values;
      if i == 0 {
        note := p.note;
      }
      i := i + 1;
    }
    assert data[..i] == data;
    res := Ok(IVFromCells(note, cells[..]));
  }

  lemma IVStep(data: seq<string>, i: nat)
    requires i < |data| && BuildIV(data[..i]).Ok? && ParseIVLine(data[i]).Ok?
    ensures BuildIV(data[..i + 1])
            == Ok(ApplyIV(BuildIV(data[..i]).value, ParseIVLine(data[i]).value, i == 0))
  {
    assert data[..i + 1][..i] == data[..i];
    assert data[..i + 1][i] == data[i];
  }

  lemma IVFailureStops(data: seq<string>, i: nat)
    requires i < |data| && BuildIV(data[..i]).Ok? && ParseIVLine(data[i]).Err?
    ensures BuildIV(data) == Err(ParseIVLine(data[i]).error)
  {
    BuildIVSucceeds(data[..i]);
    BuildIVFailure(data, i);
  }

  /** Reads one tray's SPS file: one line per SiPM into prefilled arrays. */
  method ReadTraySPS(lines: seq<string>) returns (res: Result<SPSRecord>)
    ensures res == SPSRecordOf(lines)
  {
    var cells := new SPSCell[CELLS](_ => MISSING_SPS);
    var note := "";
    assert BuildSPS(lines[..0]) == Ok(SPSFromCells(note, cells[..])) by {
      assert lines[..0] == [];
      assert cells[..] == seq(CELLS, _ => MISSING_SPS);
      EmptyFromCells();
    }
    var i := 0;
    while i < |lines|
      invariant 0 <= i <= |lines|
      invariant BuildSPS(lines[..i]) == Ok(SPSFromCells(note, cells[..]))
    {
      var parsed := ParseSPSLine(lines[i]);
      if parsed.Err? {
        SPSFailureStops(lines, i);
        return Err(parsed.error);
      }
      var p := parsed.value;
      SPSStep(lines, i);
      SPSStoreCell(note, cells[..], p, i == 0);
      cells[p.index] := p.values;
      if i == 0 {
        note := SPSNote(p.id, p.values.row, p.values.col);
      }
      i := i + 1;
    }
    assert lines[..i] == lines;
    res := Ok(SPSFromCells(note, cells[..]));
  }

  lemma SPSStep(data: seq<string>, i: nat)
    requires i < |data| && BuildSPS(data[..i]).Ok? && ParseSPSLine(data[i]).Ok?
    ensures BuildSPS(data[..i + 1])
            == Ok(ApplySPS(BuildSPS(data[..i]).value, ParseSPSLine(data[i]).value, i == 0))
  {
    assert data[..i + 1][..i] == data[..i];
    assert data[..i + 1][i] == data[i];
  }

  lemma SPSFailureStops(data: seq<string>, i: nat)
    requires i < |data| && BuildSPS(data[..i]).Ok? && ParseSPSLine(data[i]).Err?
    ensures BuildSPS(data) == Err(ParseSPSLine(data[i]).error)
  {
    BuildSPSSucceeds(data[..i]);
    BuildSPSFailure(data, i);
  }

  /** The IV record of one tray, read from its result directory. */
  function TrayIV(fs: FileSystem, tray: string, subscript: bool): Result<IVRecord> {
    IVRecordOf(Lines(fs, IVPath(tray, subscript)))
  }

  /** The SPS record of one tray, read from its result directory. */
  function TraySPS(fs: FileSystem, tray: string, subscript: bool): Result<SPSRecord> {
    SPSRecordOf(Lines(fs, SPSPath(tray, subscript)))
  }

  /** The outcome of reading each tray's IV file, in tray order. */
  function IVResults(fs: FileSystem, trays: seq<string>, subscript: bool): (rs: seq<Result<IVRecord>>)
    ensures |rs| == |trays|
    ensures forall i :: 0 <= i < |trays| ==> rs[i] == TrayIV(fs, trays[i], subscript)
  {
    seq(|trays|, i requires 0 <= i < |trays| => TrayIV(fs, trays[i], subscript))
  }

  /** The outcome of reading each tray's SPS file, in tray order. */
  function SPSResults(fs: FileSystem, trays: seq<string>, subscript: bool): (rs: seq<Result<SPSRecord>>)
    ensures |rs| == |trays|
    ensures forall i :: 0 <= i < |trays| ==> rs[i] == TraySPS(fs, trays[i], subscript)
  {
    seq(|trays|, i requires 0 <= i < |trays| => TraySPS(fs, trays[i], subscript))
  }

  /**
   * Tray (row, column) of a test-set slot: the set's slots follow each other in row-major
   * order over the tray, SET_WIDTH slots per set.
   */
  function TrayIndexFromTestIndex(testSet: int, slot: int): (rc: (int, int))
    ensures NCOL * rc.0 + rc.1 == SET_WIDTH * testSet + slot
    ensures SET_WIDTH * testSet + slot >= 0 ==> rc.0 >= 0 && 0 <= rc.1 < NCOL
  {
    var p := SET_WIDTH * testSet + slot;
    (CDiv(p, NCOL), CMod(p, NCOL))
  }

  /** Test testSet and slot of a tray position. */
  function TestIndexFromTrayIndex(row: int, col: int): (ss: (int, int))
    ensures SET_WIDTH * ss.0 + ss.1 == NCOL * row + col
    ensures NCOL * row + col >= 0 ==> ss.0 >= 0 && 0 <= ss.1 < SET_WIDTH
  {
    var p := NCOL * row + col;
    (CDiv(p, SET_WIDTH), CMod(p, SET_WIDTH))
  }

  /** A slot of a test set maps to a tray position and back to the same slot. */
  lemma TestTrayRoundTrip(testSet: int, slot: int)
    requires testSet >= 0 && 0 <= slot < SET_WIDTH
    ensures TestIndexFromTrayIndex(TrayIndexFromTestIndex(testSet, slot).0, TrayIndexFromTestIndex(testSet, slot).1)
            == (testSet, slot)
  {
    var rc := TrayIndexFromTestIndex(testSet, slot);
    DivModUnique(NCOL * rc.0 + rc.1, SET_WIDTH, testSet, slot);
  }

  /** A tray position maps to a slot and back to the same position. */
  lemma TrayTestRoundTrip(row: int, col: int)
    requires row >= 0 && 0 <= col < NCOL
    ensures TrayIndexFromTestIndex(TestIndexFromTrayIndex(row, col).0, TestIndexFromTrayIndex(row, col).1)
            == (row, col)
  {
    var ss := TestIndexFromTrayIndex(row, col);
    DivModUnique(SET_WIDTH * ss.0 + ss.1, NCOL, row, col);
  }

  /** Where the two-column summary of a tray is written: always under "<tray>-results". */
  function CondensedPath(tray: string): string {
    "../data/" + tray + "-results/results-condensed.txt"
  }

  /** The summary file of one tray: skipped, or its path and rows (SPS V_bd, IV V_peak). */
  datatype CompressedFile = Skipped | Written(path: string, rows: seq<(real, real)>)

  /**
   * The guard of WriteCompressedFile as written: the tray index is compared with the list
   * size as an unsigned value (a negative index becomes huge), and only indices strictly
   * beyond the size are skipped.
   */
  predicate SkipsTrayAsWritten(t: int, size: nat) {
    t < 0 || t > size
  }

  /** The guard WriteCompressedFile evidently intends: skip every index outside the list. */
  predicate SkipsTray(t: int, size: nat) {
    t < 0 || t >= size
  }

  /**
   * The first two steps of WriteCompressedFile as written: the guard, then the lookup of the
   * tray name that the output path is made from. None when the guard skips the index.
   */
  function CondensedTargetAsWritten(trays: seq<string>, t: int): (r: Result<Option<string>>)
    ensures r.Ok? && r.value.Some? ==> 0 <= t < |trays| && r.value.value == CondensedPath(trays[t])
  {
    if SkipsTrayAsWritten(t, |trays|) then Ok(None)
    else
      var tray :- VectorAt(trays, t);
      Ok(Some(CondensedPath(tray)))
  }

  /** The written guard lets the index one past the end through, and the write then throws. */
  lemma AsWrittenGuardAdmitsEnd(trays: seq<string>)
    ensures !SkipsTrayAsWritten(|trays|, |trays|)
    ensures VectorAt(trays, |trays|) == Err(OutOfRange)
    ensures CondensedTargetAsWritten(trays, |trays|) == Err(OutOfRange)
  {
  }

  /** Every index the intended guard lets through names a listed tray. */
  lemma GuardedLookupInRange(trays: seq<string>, t: int)
    ensures !SkipsTray(t, |trays|) <==> VectorAt(trays, t).Ok?
  {
  }

  /**
   * The line loop of GetBatchStrings: skip up to and including the first line starting with
   * '$', then keep every line that is not a comment.
   */
  method ListTrays(lines: seq<string>) returns (listed: seq<string>)
    ensures listed == BatchList(lines)
  {
    ghost var k := StartLine(lines);
    listed := [];
    var flagStart := false;
    var i := 0;
    while i < |lines|
      invariant 0 <= i <= |lines|
      invariant flagStart <==> k < i
      invariant listed == ListedBefore(lines, k, i)
    {
      var line := lines[i];
      ListedStep(lines, k, i);
      if !flagStart {
        // the tray names start after the first line beginning with '$'
        if FirstChar(line) == '$' {
          assert i == k;
          flagStart := true;
        }
      } else if !IsComment(line) {
        listed := listed + [line];
      }
      i := i + 1;
    }
    ListedAll(lines);
  }

  /**
   * Checks every listed tray; when some are unusable, the usable ones replace the list unless
   * there are none, in which case the list is kept and the reader goes on with it.
   */
  method ValidateTrays(fs: FileSystem, trays: seq<string>, subscript: bool) returns (kept: seq<string>)
    ensures kept == AfterValidation(fs, trays, subscript)
  {
    if |trays| == 0 {
      ValidationOfNothing(fs, subscript);
      return trays;
    }
    var valid: seq<string> := [];
    var invalid: seq<string> := [];
    var j := 0;
    while j < |trays|
      invariant 0 <= j <= |trays|
      invariant valid == SelectValid(fs, trays[..j], subscript)
      invariant invalid == [] ==> valid == trays[..j]
    {
      var tray := trays[j];
      SelectValidStep(fs, trays, j, subscript);
      if CheckValidTray(fs, tray, subscript) {
        valid := valid + [tray];
      } else {
        invalid := invalid + [tray];
      }
      j := j + 1;
    }
    assert trays[..j] == trays;
    kept := trays;
    if |invalid| > 0 && |valid| > 0 {
      kept := valid;
    }
  }

  class SiPMDataReader {
    /** The manifest most recently read. */
    var batchDataFile: string
    /** The trays of the batch, in manifest order. */
    var trayStrings: seq<string>
    /** One record per tray read so far, in tray order. */
    var ivData: seq<IVRecord>
    var spsData: seq<SPSRecord>
    /** Set by SetSystematicMode; the model, like the reader, does nothing else with it. */
    var readForSystematics: bool
    /** Results live in "<tray>-results" directories (the default) or in "<tray>". */
    var hasSubscriptResults: bool

    /** Every stored record covers the whole tray. */
    predicate Valid()
      reads this
    {
      (forall i :: 0 <= i < |ivData| ==> ivData[i].WellFormed())
      && (forall i :: 0 <= i < |spsData| ==> spsData[i].WellFormed())
    }

    /** An empty reader: no manifest, no trays, results expected under "-results". */
    constructor ()
      ensures Valid()
      ensures batchDataFile == "" && trayStrings == [] && ivData == [] && spsData == []
      ensures !readForSystematics && hasSubscriptResults
    {
      batchDataFile := "";
      trayStrings := [];
      ivData := [];
      spsData := [];
      readForSystematics := false;
      hasSubscriptResults := true;
    }

    /** A reader that reads the given manifest at once. */
    constructor FromFile(fs: FileSystem, batchFile: string)
      ensures Valid()
      ensures batchDataFile == batchFile && ivData == [] && spsData == []
      ensures !readForSystematics && hasSubscriptResults
      ensures trayStrings == AfterValidation(fs, BatchList(Lines(fs, batchFile)), true)
    {
      batchDataFile := batchFile;
      trayStrings := [];
      ivData := [];
      spsData := [];
      readForSystematics := false;
      hasSubscriptResults := true;
      new;
      GetBatchStrings(fs);
      assert [] + BatchList(Lines(fs, batchFile)) == BatchList(Lines(fs, batchFile));
    }

    /**
     * Appends the trays the manifest lists to the tray list, then validates the whole list:
     * if some trays are unusable and some usable, only the usable ones are kept.
     */
    method GetBatchStrings(fs: FileSystem)
      modifies this
      ensures trayStrings == AfterValidation(fs, old(trayStrings) + BatchList(Lines(fs, batchDataFile)),
                                             hasSubscriptResults)
      ensures batchDataFile == old(batchDataFile) && ivData == old(ivData) && spsData == old(spsData)
      ensures readForSystematics == old(readForSystematics)
      ensures hasSubscriptResults == old(hasSubscriptResults)
    {
      var listed := ListTrays(Lines(fs, batchDataFile));
      var trays := ValidateTrays(fs, trayStrings + listed, hasSubscriptResults);
      trayStrings := trays;
    }

    /** Clears the trays and the data, then reads the given manifest. */
    method ReadFile(fs: FileSystem, filename: string)
      modifies this
      ensures batchDataFile == filename && ivData == [] && spsData == []
      ensures trayStrings == AfterValidation(fs, BatchList(Lines(fs, filename)), hasSubscriptResults)
      ensures readForSystematics == old(readForSystematics)
      ensures hasSubscriptResults == old(hasSubscriptResults)
      ensures Valid()
    {
      trayStrings := [];
      ivData := [];
      spsData := [];
      batchDataFile := filename;
      GetBatchStrings(fs);
      assert [] + BatchList(Lines(fs, filename)) == BatchList(Lines(fs, filename));
    }

    /** Reads another manifest, adding its trays to the ones already listed. */
    method AppendFile(fs: FileSystem, filename: string)
      modifies this
      ensures batchDataFile == filename && ivData == old(ivData) && spsData == old(spsData)
      ensures trayStrings
              == AfterValidation(fs, old(trayStrings) + BatchList(Lines(fs, filename)), hasSubscriptResults)
      ensures readForSystematics == old(readForSystematics)
      ensures hasSubscriptResults == old(hasSubscriptResults)
    {
      batchDataFile := filename;
      GetBatchStrings(fs);
    }

    method SetSystematicMode()
      modifies this
      ensures readForSystematics
      ensures batchDataFile == old(batchDataFile) && trayStrings == old(trayStrings)
      ensures ivData == old(ivData) && spsData == old(spsData)
      ensures hasSubscriptResults == old(hasSubscriptResults)
    {
      readForSystematics := true;
    }

    /** Results are looked for in "../data/<tray>". */
    method SetFlatTrayString()
      modifies this
      ensures !hasSubscriptResults
      ensures batchDataFile == old(batchDataFile) && trayStrings == old(trayStrings)
      ensures ivData == old(ivData) && spsData == old(spsData)
      ensures readForSystematics == old(readForSystematics)
    {
      hasSubscriptResults := false;
    }

    /** Results are looked for in "../data/<tray>-results". */
    method SetDefTrayString()
      modifies this
      ensures hasSubscriptResults
      ensures batchDataFile == old(batchDataFile) && trayStrings == old(trayStrings)
      ensures ivData == old(ivData) && spsData == old(spsData)
      ensures readForSystematics == old(readForSystematics)
    {
      hasSubscriptResults := true;
    }

    /**
     * Reads the IV file of every tray in order. A file that fails to parse aborts the read:
     * the records of the earlier trays stay and the failure is returned.
     */
    method ReadDataIV(fs: FileSystem) returns (failure: Option<Failure>)
      modifies this
      ensures (ivData, failure) == Collect(IVResults(fs, trayStrings, hasSubscriptResults))
      ensures failure.None? <==> |ivData| == |trayStrings|
      ensures batchDataFile == old(batchDataFile) && trayStrings == old(trayStrings)
      ensures spsData == old(spsData)
      ensures readForSystematics == old(readForSystematics)
      ensures hasSubscriptResults == old(hasSubscriptResults)
      ensures old(Valid()) ==> Valid()
    {
      ghost var rs := IVResults(fs, trayStrings, hasSubscriptResults);
      var records: seq<IVRecord> := [];
      var i := 0;
      assert rs[..0] == [];
      while i < |trayStrings|
        invariant 0 <= i <= |trayStrings|
        invariant |rs| == |trayStrings|
        invariant (records, None) == Collect(rs[..i])
        invariant forall j :: 0 <= j < |records| ==> records[j].WellFormed()
        invariant unchanged(this)
      {
        var res := ReadTrayIV(Lines(fs, IVPath(trayStrings[i], hasSubscriptResults)));
        assert res == rs[i];
        if res.Err? {
          CollectStops(rs, i);
          ivData := records;
          return Some(res.error);
        }
        CollectStep(rs, i, records, res.value);
        records := records + [res.value];
        i := i + 1;
      }
      assert rs[..i] == rs;
      ivData := records;
      failure := None;
    }

    /**
     * Reads the SPS file of every tray in order. A file that fails to parse aborts the read:
     * the records of the earlier trays stay and the failure is returned.
     */
    method ReadDataSPS(fs: FileSystem) returns (failure: Option<Failure>)
      modifies this
      ensures (spsData, failure) == Collect(SPSResults(fs, trayStrings, hasSubscriptResults))
      ensures failure.None? <==> |spsData| == |trayStrings|
      ensures batchDataFile == old(batchDataFile) && trayStrings == old(trayStrings)
      ensures ivData == old(ivData)
      ensures readForSystematics == old(readForSystematics)
      ensures hasSubscriptResults == old(hasSubscriptResults)
      ensures old(Valid()) ==> Valid()
    {
      ghost var rs := SPSResults(fs, trayStrings, hasSubscriptResults);
      var records: seq<SPSRecord> := [];
      var i := 0;
      assert rs[..0] == [];
      while i < |trayStrings|
        invariant 0 <= i <= |trayStrings|
        invariant |rs| == |trayStrings|
        invariant (records, None) == Collect(rs[..i])
        invariant forall j :: 0 <= j < |records| ==> records[j].WellFormed()
        invariant unchanged(this)
      {
        var res := ReadTraySPS(Lines(fs, SPSPath(trayStrings[i], hasSubscriptResults)));
        assert res == rs[i];
        if res.Err? {
          CollectStops(rs, i);
          spsData := records;
          return Some(res.error);
        }
        CollectStep(rs, i, records, res.value);
        records := records + [res.value];
        i := i + 1;
      }
      assert rs[..i] == rs;
      spsData := records;
      failure := None;
    }

    /** IV peak voltage of a tray position; std::out_of_range for a missing tray or position. */
    function GetVbdTrayIndexIV(t: int, row: int, col: int, corrected: bool): (r: Result<real>)
      reads this
      ensures r.Ok? <==> 0 <= t < |ivData| && 0 <= NCOL * row + col < |VpeakColumn(ivData[t], corrected)|
      ensures r.Ok? ==> r.value == VpeakColumn(ivData[t], corrected)[NCOL * row + col]
      ensures r.Err? ==> r.error == OutOfRange
    {
      var rec :- VectorAt(ivData, t);
      VectorAt(VpeakColumn(rec, corrected), NCOL * row + col)
    }

    /** IV peak voltage of a test-set slot. */
    function GetVbdTestIndexIV(t: int, testSet: int, slot: int, corrected: bool): (r: Result<real>)
      reads this
      ensures r.Ok? <==> 0 <= t < |ivData| && 0 <= SET_WIDTH * testSet + slot < |VpeakColumn(ivData[t], corrected)|
      ensures r.Ok? ==> r.value == VpeakColumn(ivData[t], corrected)[SET_WIDTH * testSet + slot]
      ensures r.Err? ==> r.error == OutOfRange
    {
      var rec :- VectorAt(ivData, t);
      VectorAt(VpeakColumn(rec, corrected), SET_WIDTH * testSet + slot)
    }

    /** SPS breakdown voltage of a tray position. */
    function GetVbdTrayIndexSPS(t: int, row: int, col: int, corrected: bool): (r: Result<real>)
      reads this
      ensures r.Ok? <==> 0 <= t < |spsData| && 0 <= NCOL * row + col < |VbdColumn(spsData[t], corrected)|
      ensures r.Ok? ==> r.value == VbdColumn(spsData[t], corrected)[NCOL * row + col]
      ensures r.Err? ==> r.error == OutOfRange
    {
      var rec :- VectorAt(spsData, t);
      VectorAt(VbdColumn(rec, corrected), NCOL * row + col)
    }

    /** SPS breakdown voltage of a test-set slot. */
    function GetVbdTestIndexSPS(t: int, testSet: int, slot: int, corrected: bool): (r: Result<real>)
      reads this
      ensures r.Ok? <==> 0 <= t < |spsData| && 0 <= SET_WIDTH * testSet + slot < |VbdColumn(spsData[t], corrected)|
      ensures r.Ok? ==> r.value == VbdColumn(spsData[t], corrected)[SET_WIDTH * testSet + slot]
      ensures r.Err? ==> r.error == OutOfRange
    {
      var rec :- VectorAt(spsData, t);
      VectorAt(VbdColumn(rec, corrected), SET_WIDTH * testSet + slot)
    }

    /** A test testSet was measured on a tray when the IV peak of its first slot is not the sentinel. */
    function HasSet(t: int, testSet: int): (r: Result<bool>)
      reads this
      ensures r.Ok? <==> 0 <= t < |ivData| && 0 <= SET_WIDTH * testSet < |ivData[t].vpeak|
      ensures r.Ok? ==> (r.value <==> ivData[t].vpeak[SET_WIDTH * testSet] != SENTINEL)
      ensures r.Err? ==> r.error == OutOfRange
    {
      var rec :- VectorAt(ivData, t);
      var v :- VectorAt(rec.vpeak, SET_WIDTH * testSet);
      Ok(v != SENTINEL)
    }

    /** Asking by slot and asking by the tray position of that slot give the same answer. */
    lemma TestAndTrayIndexAgree(t: int, testSet: int, slot: int, corrected: bool)
      ensures var rc := TrayIndexFromTestIndex(testSet, slot);
              GetVbdTestIndexIV(t, testSet, slot, corrected) == GetVbdTrayIndexIV(t, rc.0, rc.1, corrected)
              && GetVbdTestIndexSPS(t, testSet, slot, corrected) == GetVbdTrayIndexSPS(t, rc.0, rc.1, corrected)
    {
    }

    /** On a read tray every position of the grid can be asked for, by position or by slot. */
    lemma ValidLookups(t: int, row: int, col: int, corrected: bool)
      requires Valid() && 0 <= t < |ivData| && 0 <= t < |spsData|
      requires 0 <= row < NROW && 0 <= col < NCOL
      ensures GetVbdTrayIndexIV(t, row, col, corrected).Ok?
      ensures GetVbdTrayIndexSPS(t, row, col, corrected).Ok?
      ensures var ss := TestIndexFromTrayIndex(row, col);
              GetVbdTestIndexIV(t, ss.0, ss.1, corrected).Ok? && GetVbdTestIndexSPS(t, ss.0, ss.1, corrected).Ok?
    {
      assert ivData[t].WellFormed() && spsData[t].WellFormed();
      assert NCOL * row + col < CELLS by {
        assert NCOL * row <= NCOL * (NROW - 1);
      }
    }

    /** HasSet answers what the first slot of the testSet holds. */
    lemma HasSetFirstSlot(t: int, testSet: int)
      ensures HasSet(t, testSet).Ok? <==> GetVbdTestIndexIV(t, testSet, 0, false).Ok?
      ensures HasSet(t, testSet).Ok? ==>
                (HasSet(t, testSet).value <==> GetVbdTestIndexIV(t, testSet, 0, false).value != SENTINEL)
    {
    }

    /**
     * Writes the condensed summary of a tray: one row per position, SPS breakdown voltage then
     * IV peak voltage. Indices outside the tray list are skipped; a tray whose data was not read
     * makes the lookups throw.
     */
    method WriteCompressedFile(t: int) returns (res: Result<CompressedFile>)
      ensures SkipsTray(t, |trayStrings|) ==> res == Ok(Skipped)
      ensures !SkipsTray(t, |trayStrings|) && (t >= |ivData| || t >= |spsData|) ==> res == Err(OutOfRange)
      ensures !SkipsTray(t, |trayStrings|) && t < |ivData| && t < |spsData| ==>
                if |spsData[t].vbd| < |ivData[t].vpeak| then res == Err(OutOfRange)
                else res.Ok? && res.value.Written?
                     && res.value.path == CondensedPath(trayStrings[t])
                     && |res.value.rows| == |ivData[t].vpeak|
                     && forall i :: 0 <= i < |res.value.rows| ==>
                          res.value.rows[i] == (spsData[t].vbd[i], ivData[t].vpeak[i])
    {
      if SkipsTray(t, |trayStrings|) {
        return Ok(Skipped);
      }
      var path := CondensedPath(trayStrings[t]);
      if t >= |ivData| || t >= |spsData| {
        return Err(OutOfRange);
      }
      var iv := ivData[t].vpeak;
      var vbd := spsData[t].vbd;
      var rows: seq<(real, real)> := [];
      var i := 0;
      while i < |iv|
        invariant 0 <= i <= |iv|
        invariant i <= |vbd|
        invariant |rows| == i
        invariant forall j :: 0 <= j < i ==> rows[j] == (vbd[j], iv[j])
      {
        if i >= |vbd| {
          return Err(OutOfRange);
        }
        rows := rows + [(vbd[i], iv[i])];
        i := i + 1;
      }
      res := Ok(Written(path, rows));
    }

    /** A read tray within the list is always written, one row per tray position. */
    lemma ValidTrayIsWritten(t: int)
      requires Valid() && 0 <= t < |trayStrings| && t < |ivData| && t < |spsData|
      ensures |spsData[t].vbd| == |ivData[t].vpeak| == CELLS
    {
      assert ivData[t].WellFormed() && spsData[t].WellFormed();
    }
  }
}
