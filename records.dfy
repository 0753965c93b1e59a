/**
 * The per-tray measurement records of the SiPM test stations and the parsing of their text
 * files. An IV file has one header line and then one line per SiPM:
 *   TRAYID+NOTE SIPMID AVG_TEMP TEMP_DEV VPEAK VPEAK(25C) IDARK(-3V) IDARK(+4V) IDARK_TEMP FWD_RES
 * an SPS file has no header and one line per SiPM:
 *   SIPMID USED_PEAKS FIT_WIDTH VBD AVG_TEMP TEMP_UNC VBD(25C) VBD_UNC CHI2NDF P0 P1
 * A SiPM identifier ends in "_<col>_<row>"; the SiPM lands at index row*NCOL + col of arrays
 * that start out holding the sentinel -999 in every one of the NROW*NCOL positions.
 */
module Records {
  import opened Config
  import opened Numeric
  import opened Text

  /** A tray position decoded from a SiPM identifier. */
  datatype Cell = Cell(row: int, col: int, index: nat)

  /** The IV results of one tray, one sequence entry per tray position. */
  datatype IVRecord = IVRecord(
    trayNote: string,
    row: seq<int>,
    col: seq<int>,
    avgTemp: seq<real>,
    stdevTemp: seq<real>,
    vpeak: seq<real>,
    vpeak25C: seq<real>,
    idarkBelow: seq<real>,
    idarkAbove: seq<real>,
    idarkTemp: seq<real>,
    forwardRes: seq<real>)
  {
    /** Every per-position sequence covers the whole tray. */
    predicate WellFormed() {
      |row| == CELLS && |col| == CELLS && |avgTemp| == CELLS && |stdevTemp| == CELLS
      && |vpeak| == CELLS && |vpeak25C| == CELLS && |idarkBelow| == CELLS
      && |idarkAbove| == CELLS && |idarkTemp| == CELLS && |forwardRes| == CELLS
    }

    /** The IV results stored for position i. */
    function At(i: nat): IVCell
      requires WellFormed() && i < CELLS
    {
      IVCell(row[i], col[i], avgTemp[i], stdevTemp[i], vpeak[i], vpeak25C[i],
             idarkBelow[i], idarkAbove[i], idarkTemp[i], forwardRes[i])
    }
  }

  /** The IV results of one SiPM. */
  datatype IVCell = IVCell(
    row: int, col: int, avgTemp: real, stdevTemp: real, vpeak: real, vpeak25C: real,
    idarkBelow: real, idarkAbove: real, idarkTemp: real, forwardRes: real)

  /** What a position holds when no line of the file wrote to it. */
  const MISSING_IV: IVCell := IVCell(SENTINEL_INT, SENTINEL_INT, SENTINEL, SENTINEL, SENTINEL,
                                     SENTINEL, SENTINEL, SENTINEL, SENTINEL, SENTINEL)

  /** One decoded IV data line: its first field, where it goes, and what it holds. */
  datatype IVLine = IVLine(note: string, index: nat, values: IVCell)

  /** The SPS results of one tray, one sequence entry per tray position. */
  datatype SPSRecord = SPSRecord(
    trayNote: string,
    row: seq<int>,
    col: seq<int>,
    avgTemp: seq<real>,
    stdevTemp: seq<real>,
    npeaks: seq<int>,
    peakWidth: seq<real>,
    vbd: seq<real>,
    vbd25C: seq<real>,
    vbdUnc: seq<real>,
    chi2ndf: seq<real>,
    fitP0: seq<real>,
    fitP1: seq<real>)
  {
    /** Every per-position sequence covers the whole tray. */
    predicate WellFormed() {
      |row| == CELLS && |col| == CELLS && |avgTemp| == CELLS && |stdevTemp| == CELLS
      && |npeaks| == CELLS && |peakWidth| == CELLS && |vbd| == CELLS && |vbd25C| == CELLS
      && |vbdUnc| == CELLS && |chi2ndf| == CELLS && |fitP0| == CELLS && |fitP1| == CELLS
    }

    /** The SPS results stored for position i. */
    function At(i: nat): SPSCell
      requires WellFormed() && i < CELLS
    {
      SPSCell(row[i], col[i], avgTemp[i], stdevTemp[i], npeaks[i], peakWidth[i], vbd[i],
              vbd25C[i], vbdUnc[i], chi2ndf[i], fitP0[i], fitP1[i])
    }
  }

  /** The SPS results of one SiPM. */
  datatype SPSCell = SPSCell(
    row: int, col: int, avgTemp: real, stdevTemp: real, npeaks: int, peakWidth: real,
    vbd: real, vbd25C: real, vbdUnc: real, chi2ndf: real, fitP0: real, fitP1: real)

  /** What a position holds when no line of the file wrote to it. */
  const MISSING_SPS: SPSCell := SPSCell(SENTINEL_INT, SENTINEL_INT, SENTINEL, SENTINEL,
                                        SENTINEL_INT, SENTINEL, SENTINEL, SENTINEL, SENTINEL,
                                        SENTINEL, SENTINEL, SENTINEL)

  /** One decoded SPS data line: its identifier, where it goes, and what it holds. */
  datatype SPSLine = SPSLine(id: string, index: nat, values: SPSCell)

  /** The IV peak voltages the analysis reads: extrapolated to 25 C, or as measured. */
  function VpeakColumn(r: IVRecord, at25C: bool): seq<real> {
    if at25C then r.vpeak25C else r.vpeak
  }

  /** The SPS breakdown voltages the analysis reads: extrapolated to 25 C, or as measured. */
  function VbdColumn(r: SPSRecord, at25C: bool): seq<real> {
    if at25C then r.vbd25C else r.vbd
  }

  /** A record with the sentinel in every position, as the reader prefills it. */
  function EmptyIV(): (r: IVRecord)
    ensures r.WellFormed()
    ensures forall i :: 0 <= i < CELLS ==> r.At(i) == MISSING_IV
    ensures r.trayNote == ""
  {
    var ints := seq(CELLS, _ => SENTINEL_INT);
    var reals := seq(CELLS, _ => SENTINEL);
    IVRecord("", ints, ints, reals, reals, reals, reals, reals, reals, reals, reals)
  }

  /** A record with the sentinel in every position, as the reader prefills it. */
  function EmptySPS(): (r: SPSRecord)
    ensures r.WellFormed()
    ensures forall i :: 0 <= i < CELLS ==> r.At(i) == MISSING_SPS
    ensures r.trayNote == ""
  {
    var ints := seq(CELLS, _ => SENTINEL_INT);
    var reals := seq(CELLS, _ => SENTINEL);
    SPSRecord("", ints, ints, reals, reals, ints, reals, reals, reals, reals, reals, reals, reals)
  }

  /**
   * Decodes a SiPM identifier: the last two '_'-separated tokens are the column and the row.
   * Fewer than two tokens index outside the token vector (undefined behaviour in the source);
   * a position outside the tray makes vector::at throw std::out_of_range.
   */
  function ParseIndex(id: string): (c: Result<Cell>)
    ensures c.Ok? ==> c.value.index < CELLS && c.value.index == c.value.row * NCOL + c.value.col
  {
    var ts := Tokens(id, '_');
    if |ts| < 2 then Err(UndefinedAccess)
    else
      var col :- Stoi(ts[|ts| - 2]);
      var row :- Stoi(ts[|ts| - 1]);
      var index := row * NCOL + col;
      if 0 <= index < CELLS then Ok(Cell(row, col, index)) else Err(OutOfRange)
  }

  /** Field k of a data line, as the k+1-th getline on ' ' leaves it. */
  function Field(line: string, k: nat): string {
    FieldAt(line, ' ', k)
  }

  /** Fields from, ..., to - 1 of a data line. */
  function Fields(line: string, from: nat, to: nat): (fs: seq<string>)
    requires from <= to
    ensures |fs| == to - from && forall k :: 0 <= k < |fs| ==> fs[k] == Field(line, from + k)
  {
    seq(to - from, (k: nat) => Field(line, from + k))
  }

  /** std::stof on each field in turn; the first one that throws ends the line. */
  function StofAll(fields: seq<string>): (r: Result<seq<real>>)
    ensures r.Ok? ==> |r.value| == |fields|
    ensures r.Ok? ==> forall k :: 0 <= k < |fields| ==> Stof(fields[k]) == Ok(r.value[k])
  {
    if |fields| == 0 then Ok([])
    else
      var v :- Stof(fields[0]);
      var rest :- StofAll(fields[1..]);
      Ok([v] + rest)
  }

  /** Decodes one IV data line, failing as the first failing conversion does. */
  function ParseIVLine(line: string): (p: Result<IVLine>)
    ensures p.Ok? ==> p.value.index < CELLS
    ensures p.Ok? ==> p.value.note == Field(line, 0)
  {
    var cell :- ParseIndex(Field(line, 1));
    var v :- StofAll(Fields(line, 2, 10));
    Ok(IVLine(Field(line, 0), cell.index,
              IVCell(cell.row, cell.col, v[0], v[1], v[2], v[3], v[4], v[5], v[6], v[7])))
  }

  /** Decodes one SPS data line, failing as the first failing conversion does. */
  function ParseSPSLine(line: string): (p: Result<SPSLine>)
    ensures p.Ok? ==> p.value.index < CELLS
    ensures p.Ok? ==> p.value.id == Field(line, 0)
  {
    var cell :- ParseIndex(Field(line, 0));
    var npeaks :- Stoi(Field(line, 1));
    // peak width, Vbd, average and spread of the temperature, Vbd(25C), its uncertainty,
    // chi2/ndf, p0, p1
    var v :- StofAll(Fields(line, 2, 11));
    Ok(SPSLine(Field(line, 0), cell.index,
               SPSCell(cell.row, cell.col, v[2], v[3], npeaks, v[0], v[1], v[4], v[5], v[6],
                       v[7], v[8])))
  }

  /**
   * The SPS tray note: the first identifier without its "_<col>_<row>" suffix, whose length
   * is guessed from the row and column values (4 characters, plus one per two-digit number).
   * When the identifier is shorter, the unsigned subtraction wraps and substr keeps it whole.
   */
  function SPSNote(id: string, row: int, col: int): string {
    var n := 4 + (if row >= 10 then 1 else 0) + (if col >= 10 then 1 else 0);
    if |id| >= n then id[..|id| - n] else id
  }

  /** Stores one decoded IV line; only the first data line sets the tray note. */
  function ApplyIV(r: IVRecord, p: IVLine, first: bool): (r': IVRecord)
    requires r.WellFormed() && p.index < CELLS
    ensures r'.WellFormed() && r'.At(p.index) == p.values
    ensures forall i :: 0 <= i < CELLS && i != p.index ==> r'.At(i) == r.At(i)
    ensures r'.trayNote == if first then p.note else r.trayNote
  {
    var i, v := p.index, p.values;
    IVRecord(if first then p.note else r.trayNote,
             r.row[i := v.row], r.col[i := v.col], r.avgTemp[i := v.avgTemp],
             r.stdevTemp[i := v.stdevTemp], r.vpeak[i := v.vpeak], r.vpeak25C[i := v.vpeak25C],
             r.idarkBelow[i := v.idarkBelow], r.idarkAbove[i := v.idarkAbove],
             r.idarkTemp[i := v.idarkTemp], r.forwardRes[i := v.forwardRes])
  }

  /** Stores one decoded SPS line; only the first data line sets the tray note. */
  function ApplySPS(r: SPSRecord, p: SPSLine, first: bool): (r': SPSRecord)
    requires r.WellFormed() && p.index < CELLS
    ensures r'.WellFormed() && r'.At(p.index) == p.values
    ensures forall i :: 0 <= i < CELLS && i != p.index ==> r'.At(i) == r.At(i)
    ensures r'.trayNote == if first then SPSNote(p.id, p.values.row, p.values.col) else r.trayNote
  {
    var i, v := p.index, p.values;
    SPSRecord(if first then SPSNote(p.id, v.row, v.col) else r.trayNote,
              r.row[i := v.row], r.col[i := v.col], r.avgTemp[i := v.avgTemp],
              r.stdevTemp[i := v.stdevTemp], r.npeaks[i := v.npeaks],
              r.peakWidth[i := v.peakWidth], r.vbd[i := v.vbd], r.vbd25C[i := v.vbd25C],
              r.vbdUnc[i := v.vbdUnc], r.chi2ndf[i := v.chi2ndf], r.fitP0[i := v.fitP0],
              r.fitP1[i := v.fitP1])
  }

  /** A tray record gathered from one value per position, as the reader's arrays hold them. */
  function IVFromCells(note: string, cs: seq<IVCell>): (r: IVRecord)
    requires |cs| == CELLS
    ensures r.WellFormed() && r.trayNote == note
    ensures forall i :: 0 <= i < CELLS ==> r.At(i) == cs[i]
  {
    IVRecord(note, seq(CELLS, i requires 0 <= i < CELLS => cs[i].row),
             seq(CELLS, i requires 0 <= i < CELLS => cs[i].col),
             seq(CELLS, i requires 0 <= i < CELLS => cs[i].avgTemp),
             seq(CELLS, i requires 0 <= i < CELLS => cs[i].stdevTemp),
             seq(CELLS, i requires 0 <= i < CELLS => cs[i].vpeak),
             seq(CELLS, i requires 0 <= i < CELLS => cs[i].vpeak25C),
             seq(CELLS, i requires 0 <= i < CELLS => cs[i].idarkBelow),
             seq(CELLS, i requires 0 <= i < CELLS => cs[i].idarkAbove),
             seq(CELLS, i requires 0 <= i < CELLS => cs[i].idarkTemp),
             seq(CELLS, i requires 0 <= i < CELLS => cs[i].forwardRes))
  }

  /** A tray record gathered from one value per position, as the reader's arrays hold them. */
  function SPSFromCells(note: string, cs: seq<SPSCell>): (r: SPSRecord)
    requires |cs| == CELLS
    ensures r.WellFormed() && r.trayNote == note
    ensures forall i :: 0 <= i < CELLS ==> r.At(i) == cs[i]
  {
    SPSRecord(note, seq(CELLS, i requires 0 <= i < CELLS => cs[i].row),
              seq(CELLS, i requires 0 <= i < CELLS => cs[i].col),
              seq(CELLS, i requires 0 <= i < CELLS => cs[i].avgTemp),
              seq(CELLS, i requires 0 <= i < CELLS => cs[i].stdevTemp),
              seq(CELLS, i requires 0 <= i < CELLS => cs[i].npeaks),
              seq(CELLS, i requires 0 <= i < CELLS => cs[i].peakWidth),
              seq(CELLS, i requires 0 <= i < CELLS => cs[i].vbd),
              seq(CELLS, i requires 0 <= i < CELLS => cs[i].vbd25C),
              seq(CELLS, i requires 0 <= i < CELLS => cs[i].vbdUnc),
              seq(CELLS, i requires 0 <= i < CELLS => cs[i].chi2ndf),
              seq(CELLS, i requires 0 <= i < CELLS => cs[i].fitP0),
              seq(CELLS, i requires 0 <= i < CELLS => cs[i].fitP1))
  }

  /** Two well-formed records that agree on the note and at every position are equal. */
  lemma IVRecordExt(r: IVRecord, s: IVRecord)
    requires r.WellFormed() && s.WellFormed() && r.trayNote == s.trayNote
    requires forall i :: 0 <= i < CELLS ==> r.At(i) == s.At(i)
    ensures r == s
  {
    forall i | 0 <= i < CELLS
      ensures r.row[i] == s.row[i] && r.col[i] == s.col[i] && r.avgTemp[i] == s.avgTemp[i]
      ensures r.stdevTemp[i] == s.stdevTemp[i] && r.vpeak[i] == s.vpeak[i]
      ensures r.vpeak25C[i] == s.vpeak25C[i] && r.idarkBelow[i] == s.idarkBelow[i]
      ensures r.idarkAbove[i] == s.idarkAbove[i] && r.idarkTemp[i] == s.idarkTemp[i]
      ensures r.forwardRes[i] == s.forwardRes[i]
    {
      assert r.At(i) == s.At(i);
    }
    assert r.row == s.row && r.col == s.col && r.avgTemp == s.avgTemp;
    assert r.stdevTemp == s.stdevTemp && r.vpeak == s.vpeak && r.vpeak25C == s.vpeak25C;
    assert r.idarkBelow == s.idarkBelow && r.idarkAbove == s.idarkAbove;
    assert r.idarkTemp == s.idarkTemp && r.forwardRes == s.forwardRes;
  }

  /** Two well-formed records that agree on the note and at every position are equal. */
  lemma SPSRecordExt(r: SPSRecord, s: SPSRecord)
    requires r.WellFormed() && s.WellFormed() && r.trayNote == s.trayNote
    requires forall i :: 0 <= i < CELLS ==> r.At(i) == s.At(i)
    ensures r == s
  {
    forall i | 0 <= i < CELLS
      ensures r.row[i] == s.row[i] && r.col[i] == s.col[i] && r.avgTemp[i] == s.avgTemp[i]
      ensures r.stdevTemp[i] == s.stdevTemp[i] && r.npeaks[i] == s.npeaks[i]
      ensures r.peakWidth[i] == s.peakWidth[i] && r.vbd[i] == s.vbd[i]
      ensures r.vbd25C[i] == s.vbd25C[i] && r.vbdUnc[i] == s.vbdUnc[i]
      ensures r.chi2ndf[i] == s.chi2ndf[i] && r.fitP0[i] == s.fitP0[i]
      ensures r.fitP1[i] == s.fitP1[i]
    {
      assert r.At(i) == s.At(i);
    }
    assert r.row == s.row && r.col == s.col && r.avgTemp == s.avgTemp;
    assert r.stdevTemp == s.stdevTemp && r.npeaks == s.npeaks && r.peakWidth == s.peakWidth;
    assert r.vbd == s.vbd && r.vbd25C == s.vbd25C && r.vbdUnc == s.vbdUnc;
    assert r.chi2ndf == s.chi2ndf && r.fitP0 == s.fitP0 && r.fitP1 == s.fitP1;
  }

  /** Storing a decoded line is writing its values into one position of the arrays. */
  lemma IVStoreCell(note: string, cs: seq<IVCell>, p: IVLine, first: bool)
    requires |cs| == CELLS && p.index < CELLS
    ensures ApplyIV(IVFromCells(note, cs), p, first)
            == IVFromCells(if first then p.note else note, cs[p.index := p.values])
  {
    IVRecordExt(ApplyIV(IVFromCells(note, cs), p, first),
                IVFromCells(if first then p.note else note, cs[p.index := p.values]));
  }

  /** Storing a decoded line is writing its values into one position of the arrays. */
  lemma SPSStoreCell(note: string, cs: seq<SPSCell>, p: SPSLine, first: bool)
    requires |cs| == CELLS && p.index < CELLS
    ensures ApplySPS(SPSFromCells(note, cs), p, first)
            == SPSFromCells(if first then SPSNote(p.id, p.values.row, p.values.col) else note,
                            cs[p.index := p.values])
  {
    SPSRecordExt(ApplySPS(SPSFromCells(note, cs), p, first),
                 SPSFromCells(if first then SPSNote(p.id, p.values.row, p.values.col) else note,
                              cs[p.index := p.values]));
  }

  /** The prefilled arrays make the empty record. */
  lemma EmptyFromCells()
    ensures EmptyIV() == IVFromCells("", seq(CELLS, _ => MISSING_IV))
    ensures EmptySPS() == SPSFromCells("", seq(CELLS, _ => MISSING_SPS))
  {
    IVRecordExt(EmptyIV(), IVFromCells("", seq(CELLS, _ => MISSING_IV)));
    SPSRecordExt(EmptySPS(), SPSFromCells("", seq(CELLS, _ => MISSING_SPS)));
  }

  /** The IV record after the given data lines, or the failure of the first bad line. */
  function BuildIV(data: seq<string>): (res: Result<IVRecord>)
    ensures res.Ok? ==> res.value.WellFormed()
  {
    if |data| == 0 then Ok(EmptyIV())
    else
      var r :- BuildIV(data[..|data| - 1]);
      var p :- ParseIVLine(data[|data| - 1]);
      Ok(ApplyIV(r, p, |data| == 1))
  }

  /** The SPS record after the given data lines, or the failure of the first bad line. */
  function BuildSPS(data: seq<string>): (res: Result<SPSRecord>)
    ensures res.Ok? ==> res.value.WellFormed()
  {
    if |data| == 0 then Ok(EmptySPS())
    else
      var r :- BuildSPS(data[..|data| - 1]);
      var p :- ParseSPSLine(data[|data| - 1]);
      Ok(ApplySPS(r, p, |data| == 1))
  }

  /** An IV file: its first line is a header; a missing file has no lines. */
  function IVRecordOf(lines: seq<string>): Result<IVRecord> {
    BuildIV(if |lines| == 0 then [] else lines[1..])
  }

  /** An SPS file: every line is data. */
  function SPSRecordOf(lines: seq<string>): Result<SPSRecord> {
    BuildSPS(lines)
  }

  /** The last line of data that decodes to position i, if any. */
  function LastIVWriter(data: seq<string>, i: nat): Option<IVCell> {
    if |data| == 0 then None
    else
      var p := ParseIVLine(data[|data| - 1]);
      if p.Ok? && p.value.index == i then Some(p.value.values)
      else LastIVWriter(data[..|data| - 1], i)
  }

  /** The last line of data that decodes to position i, if any. */
  function LastSPSWriter(data: seq<string>, i: nat): Option<SPSCell> {
    if |data| == 0 then None
    else
      var p := ParseSPSLine(data[|data| - 1]);
      if p.Ok? && p.value.index == i then Some(p.value.values)
      else LastSPSWriter(data[..|data| - 1], i)
  }

  lemma SplitLast<T>(s: seq<T>)
    requires |s| > 0
    ensures s == s[..|s| - 1] + [s[|s| - 1]]
  {
  }

  /** Every line of data decodes as an IV line. */
  predicate AllIVLinesParse(data: seq<string>) {
    forall j :: 0 <= j < |data| ==> ParseIVLine(data[j]).Ok?
  }

  lemma AllIVLinesParseSnoc(front: seq<string>, last: string)
    ensures AllIVLinesParse(front + [last]) <==> AllIVLinesParse(front) && ParseIVLine(last).Ok?
  {
    var data := front + [last];
    if AllIVLinesParse(front) && ParseIVLine(last).Ok? {
      forall j | 0 <= j < |data| ensures ParseIVLine(data[j]).Ok? {
        if j < |front| {
          assert data[j] == front[j];
        } else {
          assert data[j] == last;
        }
      }
    }
    if AllIVLinesParse(data) {
      assert data[|front|] == last;
      forall j | 0 <= j < |front| ensures ParseIVLine(front[j]).Ok? {
        assert data[j] == front[j];
      }
    }
  }

  /** The IV file is read to the end exactly when every data line decodes. */
  lemma {:induction false} BuildIVSucceeds(data: seq<string>)
    ensures BuildIV(data).Ok? <==> AllIVLinesParse(data)
  {
    if |data| > 0 {
      var front, last := data[..|data| - 1], data[|data| - 1];
      SplitLast(data);
      BuildIVSucceeds(front);
      AllIVLinesParseSnoc(front, last);
    }
  }

  /** A failure is the failure of the first line that does not decode. */
  lemma {:induction false} BuildIVFailure(data: seq<string>, j: nat)
    requires j < |data| && AllIVLinesParse(data[..j]) && ParseIVLine(data[j]).Err?
    ensures BuildIV(data) == Err(ParseIVLine(data[j]).error)
  {
    var front := data[..|data| - 1];
    if j < |data| - 1 {
      assert front[..j] == data[..j] && front[j] == data[j];
      BuildIVFailure(front, j);
    } else {
      BuildIVSucceeds(front);
    }
  }

  /** Each position holds the values of the last line written to it, or the sentinel. */
  lemma {:induction false} IVLastWriterWins(data: seq<string>, i: nat)
    requires BuildIV(data).Ok? && i < CELLS
    ensures BuildIV(data).value.At(i) == match LastIVWriter(data, i)
                                          case None => MISSING_IV
                                          case Some(v) => v
  {
    if |data| > 0 {
      IVLastWriterWins(data[..|data| - 1], i);
    }
  }

  /** The tray note of an IV record is the first field of its first data line. */
  lemma {:induction false} IVNoteFromFirstLine(data: seq<string>)
    requires BuildIV(data).Ok? && |data| > 0
    ensures BuildIV(data).value.trayNote == Field(data[0], 0)
  {
    if |data| > 1 {
      var front := data[..|data| - 1];
      assert front[0] == data[0];
      IVNoteFromFirstLine(front);
    }
  }

  /** Every line of data decodes as an SPS line. */
  predicate AllSPSLinesParse(data: seq<string>) {
    forall j :: 0 <= j < |data| ==> ParseSPSLine(data[j]).Ok?
  }

  lemma AllSPSLinesParseSnoc(front: seq<string>, last: string)
    ensures AllSPSLinesParse(front + [last]) <==> AllSPSLinesParse(front) && ParseSPSLine(last).Ok?
  {
    var data := front + [last];
    if AllSPSLinesParse(front) && ParseSPSLine(last).Ok? {
      forall j | 0 <= j < |data| ensures ParseSPSLine(data[j]).Ok? {
        if j < |front| {
          assert data[j] == front[j];
        } else {
          assert data[j] == last;
        }
      }
    }
    if AllSPSLinesParse(data) {
      assert data[|front|] == last;
      forall j | 0 <= j < |front| ensures ParseSPSLine(front[j]).Ok? {
        assert data[j] == front[j];
      }
    }
  }

  /** The SPS file is read to the end exactly when every line decodes. */
  lemma {:induction false} BuildSPSSucceeds(data: seq<string>)
    ensures BuildSPS(data).Ok? <==> AllSPSLinesParse(data)
  {
    if |data| > 0 {
      var front, last := data[..|data| - 1], data[|data| - 1];
      SplitLast(data);
      BuildSPSSucceeds(front);
      AllSPSLinesParseSnoc(front, last);
    }
  }

  /** A failure is the failure of the first line that does not decode. */
  lemma {:induction false} BuildSPSFailure(data: seq<string>, j: nat)
    requires j < |data| && AllSPSLinesParse(data[..j]) && ParseSPSLine(data[j]).Err?
    ensures BuildSPS(data) == Err(ParseSPSLine(data[j]).error)
  {
    var front := data[..|data| - 1];
    if j < |data| - 1 {
      assert front[..j] == data[..j] && front[j] == data[j];
      BuildSPSFailure(front, j);
    } else {
      BuildSPSSucceeds(front);
    }
  }

  /** Each position holds the values of the last line written to it, or the sentinel. */
  lemma {:induction false} SPSLastWriterWins(data: seq<string>, i: nat)
    requires BuildSPS(data).Ok? && i < CELLS
    ensures BuildSPS(data).value.At(i) == match LastSPSWriter(data, i)
                                           case None => MISSING_SPS
                                           case Some(v) => v
  {
    if |data| > 0 {
      SPSLastWriterWins(data[..|data| - 1], i);
    }
  }

  /** The tray note of an SPS record comes from the identifier of its first line. */
  lemma {:induction false} SPSNoteFromFirstLine(data: seq<string>)
    requires BuildSPS(data).Ok? && |data| > 0
    ensures ParseSPSLine(data[0]).Ok?
    ensures var p := ParseSPSLine(data[0]).value;
            BuildSPS(data).value.trayNote == SPSNote(p.id, p.values.row, p.values.col)
  {
    if |data| > 1 {
      var front := data[..|data| - 1];
      assert front[0] == data[0];
      SPSNoteFromFirstLine(front);
    }
  }

  /** The identifier the test stations write for the SiPM in column col, row row. */
  function SiPMId(prefix: string, col: nat, row: nat): string {
    prefix + "_" + Dec(col) + "_" + Dec(row)
  }

  /** The last two '_'-separated tokens of a written identifier are its column and row. */
  lemma TokensOfSiPMId(prefix: string, col: nat, row: nat)
    ensures var ts := Tokens(SiPMId(prefix, col, row), '_');
            |ts| >= 2 && ts[|ts| - 2] == Dec(col) && ts[|ts| - 1] == Dec(row)
  {
    var c, r := Dec(col), Dec(row);
    assert '_' !in c && '_' !in r;
    var id := SiPMId(prefix, col, row);
    assert id == (prefix + "_" + c) + "_" + r;
    PiecesAppend(prefix + "_" + c, r, '_');
    PiecesAppend(prefix, c, '_');
    PiecesSingle(c, '_');
    PiecesSingle(r, '_');
    TokensPieces(id, '_');
  }

  /** A written identifier decodes back to its row and column. */
  lemma ParseIndexSiPMId(prefix: string, col: nat, row: nat)
    requires row * NCOL + col < CELLS
    ensures ParseIndex(SiPMId(prefix, col, row)) == Ok(Cell(row, col, row * NCOL + col))
  {
    TokensOfSiPMId(prefix, col, row);
    StoiDec(col);
    StoiDec(row);
  }

  /** For identifiers with one- or two-digit numbers, the SPS tray note is the prefix. */
  lemma SPSNoteSiPMId(prefix: string, col: nat, row: nat)
    requires col < 100 && row < 100
    ensures SPSNote(SiPMId(prefix, col, row), row, col) == prefix
  {
    var id := SiPMId(prefix, col, row);
    assert id[..|prefix|] == prefix;
  }

  /** The example identifier "TRAY01_0_3" is column 0, row 3, so position 3*23 + 0 = 69. */
  lemma ExampleIndex()
    ensures ParseIndex("TRAY01_0_3") == Ok(Cell(3, 0, 69))
  {
    assert "TRAY01_0_3" == SiPMId("TRAY01", 0, 3);
    ParseIndexSiPMId("TRAY01", 0, 3);
  }
}
