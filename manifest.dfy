/**
 * The batch manifest and the data directory layout. A manifest is a text file whose tray
 * names start on the line after the first line beginning with '$'; lines beginning with '#'
 * are comments. Each tray's results live in ../data/<tray>-results (or ../data/<tray> when
 * the reader is told the results are stored flat) as IV_result.txt and
 * SPS_result_onlynumbers.txt.
 */
module Manifest {
  import opened Text

  /** What a path names: a directory, or a regular file given by its lines. */
  datatype Entry = Directory | File(lines: seq<string>)

  /** The part of the file system the reader looks at; absent paths do not exist. */
  type FileSystem = map<string, Entry>

  /** The lines std::getline reads from a path: none when it cannot be opened as a file. */
  function Lines(fs: FileSystem, path: string): (ls: seq<string>)
    ensures path !in fs ==> ls == []
  {
    if path in fs && fs[path].File? then fs[path].lines else []
  }

  const IV_FILE: string := "IV_result.txt"
  const SPS_FILE: string := "SPS_result_onlynumbers.txt"

  /** The result directory of a tray. */
  function TrayDir(tray: string, subscript: bool): string {
    "../data/" + tray + (if subscript then "-results" else "")
  }

  function IVPath(tray: string, subscript: bool): string {
    TrayDir(tray, subscript) + "/" + IV_FILE
  }

  function SPSPath(tray: string, subscript: bool): string {
    TrayDir(tray, subscript) + "/" + SPS_FILE
  }

  /** stat succeeds and the path is not a directory. */
  predicate IsRegularFile(fs: FileSystem, path: string) {
    path in fs && fs[path].File?
  }

  /** A tray is usable when its directory exists and both result files are regular files. */
  predicate CheckValidTray(fs: FileSystem, tray: string, subscript: bool) {
    TrayDir(tray, subscript) in fs
    && IsRegularFile(fs, IVPath(tray, subscript))
    && IsRegularFile(fs, SPSPath(tray, subscript))
  }

  /** Index of the first line starting with '$', or |lines| when there is none. */
  function StartLine(lines: seq<string>): (k: nat)
    ensures k <= |lines|
    ensures k < |lines| ==> FirstChar(lines[k]) == '$'
    ensures forall j :: 0 <= j < k ==> FirstChar(lines[j]) != '$'
  {
    if |lines| == 0 then 0
    else if FirstChar(lines[0]) == '$' then 0
    else 1 + StartLine(lines[1..])
  }

  /** A comment line starts with '#'; an empty line is not a comment. */
  predicate IsComment(line: string) {
    FirstChar(line) == '#'
  }

  /** The lines that are not comments, in order. */
  function DropComments(lines: seq<string>): (ts: seq<string>)
    ensures |ts| <= |lines|
  {
    if |lines| == 0 then []
    else DropComments(lines[..|lines| - 1]) + (if IsComment(lines[|lines| - 1]) then [] else [lines[|lines| - 1]])
  }

  /** Exactly the non-comment lines survive. */
  lemma {:induction false} DropCommentsMembers(lines: seq<string>)
    ensures forall t :: t in DropComments(lines) <==> t in lines && !IsComment(t)
  {
    if |lines| > 0 {
      var front, last := lines[..|lines| - 1], lines[|lines| - 1];
      assert lines == front + [last];
      DropCommentsMembers(front);
    }
  }

  /** The tray names a manifest lists: the non-comment lines after the start marker. */
  function BatchList(lines: seq<string>): seq<string> {
    var k := StartLine(lines);
    if k == |lines| then [] else DropComments(lines[k + 1..])
  }

  /** A name is listed exactly when it is a non-comment line after the first '$' line. */
  lemma BatchListMembers(lines: seq<string>, t: string)
    ensures t in BatchList(lines) <==>
              exists j :: StartLine(lines) < j < |lines| && lines[j] == t && !IsComment(t)
  {
    var k := StartLine(lines);
    if k < |lines| {
      var after := lines[k + 1..];
      DropCommentsMembers(after);
      if t in after {
        var i :| 0 <= i < |after| && after[i] == t;
        assert lines[k + 1 + i] == t;
      }
      if exists j :: k < j < |lines| && lines[j] == t && !IsComment(t) {
        var j :| k < j < |lines| && lines[j] == t && !IsComment(t);
        assert after[j - k - 1] == t;
      }
    }
  }

  /** A manifest without a '$' line lists nothing, whatever else it holds. */
  lemma NoStartNoTrays(lines: seq<string>)
    requires forall j :: 0 <= j < |lines| ==> FirstChar(lines[j]) != '$'
    ensures BatchList(lines) == []
  {
  }

  /** The usable trays of ts, in order. */
  function SelectValid(fs: FileSystem, ts: seq<string>, subscript: bool): (vs: seq<string>)
    ensures |vs| <= |ts|
  {
    if |ts| == 0 then []
    else
      SelectValid(fs, ts[..|ts| - 1], subscript)
      + (if CheckValidTray(fs, ts[|ts| - 1], subscript) then [ts[|ts| - 1]] else [])
  }

  /** Exactly the usable trays are selected. */
  lemma {:induction false} SelectValidMembers(fs: FileSystem, ts: seq<string>, subscript: bool)
    ensures forall t :: t in SelectValid(fs, ts, subscript) <==> t in ts && CheckValidTray(fs, t, subscript)
  {
    if |ts| > 0 {
      var front, last := ts[..|ts| - 1], ts[|ts| - 1];
      assert ts == front + [last];
      SelectValidMembers(fs, front, subscript);
    }
  }

  /**
   * The tray list after validation: when some trays are unusable the usable ones replace the
   * list, unless there are none, in which case the list stays as it was.
   */
  function AfterValidation(fs: FileSystem, ts: seq<string>, subscript: bool): seq<string> {
    var vs := SelectValid(fs, ts, subscript);
    if |vs| == 0 then ts else vs
  }

  /**
   * With no usable tray the list is kept whole; otherwise exactly its usable trays remain.
   */
  lemma AfterValidationMembers(fs: FileSystem, ts: seq<string>, subscript: bool)
    ensures (forall t :: t in ts ==> !CheckValidTray(fs, t, subscript)) ==> AfterValidation(fs, ts, subscript) == ts
    ensures (exists t :: t in ts && CheckValidTray(fs, t, subscript)) ==>
              forall t :: t in AfterValidation(fs, ts, subscript) <==> t in ts && CheckValidTray(fs, t, subscript)
  {
    var vs := SelectValid(fs, ts, subscript);
    SelectValidMembers(fs, ts, subscript);
    if |vs| > 0 {
      assert vs[0] in vs;
    }
  }

  /** When every tray is usable, validation keeps the list as it is, order included. */
  lemma {:induction false} AllValidKept(fs: FileSystem, ts: seq<string>, subscript: bool)
    requires forall t :: t in ts ==> CheckValidTray(fs, t, subscript)
    ensures SelectValid(fs, ts, subscript) == ts
    ensures AfterValidation(fs, ts, subscript) == ts
  {
    if |ts| > 0 {
      var front := ts[..|ts| - 1];
      assert forall t :: t in front ==> t in ts;
      AllValidKept(fs, front, subscript);
      assert ts == front + [ts[|ts| - 1]];
    }
  }

  /** The trays listed by the lines before i, once the marker line k has been passed. */
  function ListedBefore(lines: seq<string>, k: nat, i: nat): seq<string>
    requires i <= |lines|
  {
    if k < i then DropComments(lines[k + 1..i]) else []
  }

  /** Reading line i adds it to the list when the marker was already passed and it is no comment. */
  lemma ListedStep(lines: seq<string>, k: nat, i: nat)
    requires i < |lines|
    ensures ListedBefore(lines, k, i + 1)
            == ListedBefore(lines, k, i) + (if k < i && !IsComment(lines[i]) then [lines[i]] else [])
  {
    if k < i {
      var seen := lines[k + 1..i];
      assert lines[k + 1..i + 1] == seen + [lines[i]];
      assert (seen + [lines[i]])[..|seen|] == seen;
    } else if k == i {
      assert lines[k + 1..i + 1] == [];
    }
  }

  /** After the last line, the listed trays are the manifest's batch list. */
  lemma ListedAll(lines: seq<string>)
    ensures ListedBefore(lines, StartLine(lines), |lines|) == BatchList(lines)
  {
    var k := StartLine(lines);
    assert k < |lines| ==> lines[k + 1..|lines|] == lines[k + 1..];
  }

  /** Checking tray j appends it to the usable ones exactly when it is usable. */
  lemma SelectValidStep(fs: FileSystem, ts: seq<string>, j: nat, subscript: bool)
    requires j < |ts|
    ensures ts[..j + 1] == ts[..j] + [ts[j]]
    ensures SelectValid(fs, ts[..j + 1], subscript)
            == SelectValid(fs, ts[..j], subscript) + (if CheckValidTray(fs, ts[j], subscript) then [ts[j]] else [])
  {
    assert ts[..j + 1][..j] == ts[..j];
  }

  /** Validating an empty list leaves it empty. */
  lemma ValidationOfNothing(fs: FileSystem, subscript: bool)
    ensures AfterValidation(fs, [], subscript) == []
  {
  }
}
