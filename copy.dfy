/**
 * drive_copy.py: copy every file id listed in the input into one parent
 * folder, resuming from the status map saved by earlier runs, compare each
 * copy's checksum and size with its original, and append the final map to
 * the status file.
 */
module Copy {
  import opened Wrappers

  /** The fields a copy or a `get(fields='id, md5Checksum, size')` returns. */
  datatype Resource = Resource(id: string, md5Checksum: Option<string>, size: Option<string>)

  /** `status`: original file id to the resource of its copy. */
  type Status = map<string, Resource>

  /**
   * The server.  `copies[(fileId, parent)]` is the copy created by
   * `files().copy(fileId, parents=[parent])`, `metadata[id]` what
   * `files().get(id)` returns; a missing entry means that request raises an
   * HttpError.
   */
  datatype Drive = Drive(copies: map<(string, string), Resource>, metadata: map<string, Resource>)

  /** `parent_id = input(...)`, with `'root'` for an empty answer. */
  function DefaultParent(answer: string): (parent: string)
    ensures parent != ""
    ensures answer != "" ==> parent == answer
    ensures answer == "" ==> parent == "root"
  {
    if answer == "" then "root" else answer
  }

  // ---------------------------------------------------------------------------
  // One file id: the body of the `try` in the copy loop

  /** The copy stage. */
  datatype Copying =
    | Copied(copy: Resource)   // the copy request succeeded; its response is stored
    | AlreadyCopied            // the id was already in `status`
    | CopyFailed               // the copy request raised an HttpError

  /** The verification stage. */
  datatype Check =
    | NotReached                              // the copy failed
    | OriginalUnreadable                      // `get` of the original raised an HttpError
    | NotBinary                               // the original lacks size or checksum: checks skipped
    | CopyUnreadable                          // `get` of the copy raised an HttpError
    | Compared(checksumsMatch: bool, sizesMatch: bool)
    | MissingChecksum                         // KeyError: the copy has no checksum
    | MissingSize(checksumsMatch: bool)       // KeyError after the checksum comparison

  /** What the script logs about one id. */
  datatype Report = Report(fileId: string, copying: Copying, check: Check)

  /** A KeyError is not an HttpError: it ends the script. */
  predicate Crashes(r: Report) {
    r.check.MissingChecksum? || r.check.MissingSize?
  }

  /** The copy's metadata was requested, which happens only for binary originals. */
  predicate ChecksRequested(c: Check) {
    c.CopyUnreadable? || c.Compared? || c.MissingChecksum? || c.MissingSize?
  }

  datatype Handled = Handled(status: Status, report: Report)

  function CopyStage(drive: Drive, parent: string, status: Status, fileId: string): Copying {
    if fileId in status then AlreadyCopied
    else if (fileId, parent) in drive.copies then Copied(drive.copies[(fileId, parent)])
    else CopyFailed
  }

  /**
   * The verification stage for an id now in `status`: the copy's metadata is
   * requested exactly when the original has both a size and a checksum, and
   * the checksums and the sizes are compared independently.
   */
  function CheckStage(drive: Drive, status: Status, fileId: string): (c: Check)
    requires fileId in status
    ensures !c.NotReached?
    ensures ChecksRequested(c) <==>
              fileId in drive.metadata && drive.metadata[fileId].size.Some? && drive.metadata[fileId].md5Checksum.Some?
    ensures c.OriginalUnreadable? <==> fileId !in drive.metadata
    ensures c.NotBinary? <==> fileId in drive.metadata && !ChecksRequested(c)
    ensures c.CopyUnreadable? <==> ChecksRequested(c) && status[fileId].id !in drive.metadata
    ensures c.MissingChecksum? <==>
              ChecksRequested(c) && status[fileId].id in drive.metadata
              && drive.metadata[status[fileId].id].md5Checksum.None?
    ensures c.MissingSize? <==>
              ChecksRequested(c) && status[fileId].id in drive.metadata
              && drive.metadata[status[fileId].id].md5Checksum.Some? && drive.metadata[status[fileId].id].size.None?
    ensures c.Compared? <==>
              ChecksRequested(c) && status[fileId].id in drive.metadata
              && drive.metadata[status[fileId].id].md5Checksum.Some? && drive.metadata[status[fileId].id].size.Some?
    ensures c.MissingSize? || c.Compared? ==>
              c.checksumsMatch == (drive.metadata[status[fileId].id].md5Checksum == drive.metadata[fileId].md5Checksum)
    ensures c.Compared? ==>
              && fileId in drive.metadata && status[fileId].id in drive.metadata
              && var original := drive.metadata[fileId];
                 var copy := drive.metadata[status[fileId].id];
                 && c.checksumsMatch == (copy.md5Checksum == original.md5Checksum)
                 && c.sizesMatch == (copy.size == original.size)
  {
    if fileId !in drive.metadata then OriginalUnreadable
    else
      var original := drive.metadata[fileId];
      if original.size.None? || original.md5Checksum.None? then NotBinary
      else if status[fileId].id !in drive.metadata then CopyUnreadable
      else
        var copy := drive.metadata[status[fileId].id];
        if copy.md5Checksum.None? then MissingChecksum
        else
          var checksumsMatch := copy.md5Checksum.value == original.md5Checksum.value;
          if copy.size.None? then MissingSize(checksumsMatch)
          else Compared(checksumsMatch, copy.size.value == original.size.value)
  }

  /**
   * One iteration: an id already in `status` is skipped; otherwise a copy is
   * requested with the given parent and stored.  Only the copy stage changes
   * `status`: the outcome of the checks, mismatches included, does not, and
   * the checks run only when the id has a copy.
   */
  function CopyOne(drive: Drive, parent: string, status: Status, fileId: string): (h: Handled)
    ensures h.report.fileId == fileId
    ensures h.report.copying.AlreadyCopied? <==> fileId in status
    ensures h.report.copying.Copied? <==> fileId !in status && (fileId, parent) in drive.copies
    ensures h.report.copying.Copied? ==> h.report.copying.copy == drive.copies[(fileId, parent)]
    ensures h.status == if h.report.copying.Copied? then status[fileId := h.report.copying.copy] else status
    ensures h.report.copying.CopyFailed? ==> h.report.check == NotReached
    ensures !h.report.copying.CopyFailed? ==> fileId in h.status && h.report.check == CheckStage(drive, h.status, fileId)
  {
    match CopyStage(drive, parent, status, fileId)
    case CopyFailed => Handled(status, Report(fileId, CopyFailed, NotReached))
    case AlreadyCopied => Handled(status, Report(fileId, AlreadyCopied, CheckStage(drive, status, fileId)))
    case Copied(c) =>
      var status' := status[fileId := c];
      Handled(status', Report(fileId, Copied(c), CheckStage(drive, status', fileId)))
  }

  /**
   * The body of the `try`: copy unless already copied, then read the
   * original's metadata and, for a binary original, the copy's, and compare.
   */
  method HandleFile(drive: Drive, parent: string, status: Status, fileId: string)
    returns (status': Status, report: Report)
    ensures Handled(status', report) == CopyOne(drive, parent, status, fileId)
  {
    status' := status;
    var copying;
    if fileId !in status {
      if (fileId, parent) !in drive.copies {
        return status, Report(fileId, CopyFailed, NotReached);
      }
      var response := drive.copies[(fileId, parent)];
      status' := status[fileId := response];
      copying := Copied(response);
    } else {
      copying := AlreadyCopied;
    }
    if fileId !in drive.metadata {
      return status', Report(fileId, copying, OriginalUnreadable);
    }
    var original := drive.metadata[fileId];
    if original.size.None? || original.md5Checksum.None? {
      return status', Report(fileId, copying, NotBinary);
    }
    var copyId := status'[fileId].id;
    if copyId !in drive.metadata {
      return status', Report(fileId, copying, CopyUnreadable);
    }
    var copy := drive.metadata[copyId];
    if copy.md5Checksum.None? {
      return status', Report(fileId, copying, MissingChecksum);
    }
    var checksumsMatch := copy.md5Checksum.value == original.md5Checksum.value;
    if copy.size.None? {
      return status', Report(fileId, copying, MissingSize(checksumsMatch));
    }
    report := Report(fileId, copying, Compared(checksumsMatch, copy.size.value == original.size.value));
  }

  // ---------------------------------------------------------------------------
  // The loop over all ids

  /** The state after some ids: the map, the reports, and whether a KeyError ended the loop. */
  datatype Progress = Progress(status: Status, reports: seq<Report>, crashed: bool)

  /** `for file_id in files` from `status0`: HttpErrors are isolated per id, a KeyError stops everything. */
  function CopyAll(drive: Drive, parent: string, status0: Status, ids: seq<string>): Progress {
    if ids == [] then Progress(status0, [], false)
    else
      var p := CopyAll(drive, parent, status0, ids[..|ids| - 1]);
      if p.crashed then p
      else
        var h := CopyOne(drive, parent, p.status, ids[|ids| - 1]);
        Progress(h.status, p.reports + [h.report], Crashes(h.report))
  }

  /** Once the loop has crashed, later ids change nothing. */
  lemma {:induction false} CrashIsFinal(drive: Drive, parent: string, status0: Status, ids: seq<string>, n: nat)
    requires n <= |ids|
    requires CopyAll(drive, parent, status0, ids[..n]).crashed
    ensures CopyAll(drive, parent, status0, ids) == CopyAll(drive, parent, status0, ids[..n])
    decreases |ids| - n
  {
    if n < |ids| {
      var ids' := ids[..n + 1];
      assert ids'[..|ids'| - 1] == ids[..n];
      CrashIsFinal(drive, parent, status0, ids, n + 1);
    } else {
      assert ids[..n] == ids;
    }
  }

  method CopyFiles(drive: Drive, parent: string, status0: Status, ids: seq<string>)
    returns (status: Status, reports: seq<Report>, crashed: bool)
    ensures Progress(status, reports, crashed) == CopyAll(drive, parent, status0, ids)
  {
    status, reports, crashed := status0, [], false;
    var i := 0;
    while i < |ids| && !crashed
      invariant 0 <= i <= |ids|
      invariant Progress(status, reports, crashed) == CopyAll(drive, parent, status0, ids[..i])
    {
      assert ids[..i + 1][..i] == ids[..i];
      var report;
      status, report := HandleFile(drive, parent, status, ids[i]);
      reports := reports + [report];
      crashed := Crashes(report);
      i := i + 1;
    }
    if crashed {
      CrashIsFinal(drive, parent, status0, ids, i);
    } else {
      assert ids[..i] == ids;
    }
  }

  /**
   * One report per id, in order; an HttpError does not stop the loop, so
   * only a KeyError, reported last, leaves ids unhandled.
   */
  lemma {:induction false} CopyAllReports(drive: Drive, parent: string, status0: Status, ids: seq<string>)
    ensures var p := CopyAll(drive, parent, status0, ids);
      && |p.reports| <= |ids|
      && (forall i :: 0 <= i < |p.reports| ==> p.reports[i].fileId == ids[i])
      && (forall i :: 0 <= i < |p.reports| - 1 ==> !Crashes(p.reports[i]))
      && (p.crashed <==> p.reports != [] && Crashes(p.reports[|p.reports| - 1]))
      && (!p.crashed ==> |p.reports| == |ids|)
  {
    if ids != [] {
      var init := ids[..|ids| - 1];
      CopyAllReports(drive, parent, status0, init);
      var p := CopyAll(drive, parent, status0, init);
      if !p.crashed {
      }
    }
  }

  /** The ids whose copy request succeeded. */
  function CopiedIds(reports: seq<Report>): (ids: set<string>)
    ensures forall i :: 0 <= i < |reports| && reports[i].copying.Copied? ==> reports[i].fileId in ids
  {
    if reports == [] then {}
    else
      var last := reports[|reports| - 1];
      CopiedIds(reports[..|reports| - 1]) + if last.copying.Copied? then {last.fileId} else {}
  }

  /** One more id extends the state by `CopyOne`'s result. */
  lemma CopyAllSnoc(drive: Drive, parent: string, status0: Status, ids: seq<string>)
    requires ids != [] && !CopyAll(drive, parent, status0, ids[..|ids| - 1]).crashed
    ensures var p := CopyAll(drive, parent, status0, ids[..|ids| - 1]);
      var h := CopyOne(drive, parent, p.status, ids[|ids| - 1]);
      var q := CopyAll(drive, parent, status0, ids);
      && q.status == h.status
      && q.reports == p.reports + [h.report]
      && q.reports[..|p.reports|] == p.reports
      && CopiedIds(q.reports) == CopiedIds(p.reports) + if h.report.copying.Copied? then {h.report.fileId} else {}
  {
    var p := CopyAll(drive, parent, status0, ids[..|ids| - 1]);
    var h := CopyOne(drive, parent, p.status, ids[|ids| - 1]);
    var r := CopyAll(drive, parent, status0, ids).reports;
    assert r == p.reports + [h.report];
    assert r[..|p.reports|] == p.reports && r[|r| - 1] == h.report;
  }

  /**
   * Entries are never overwritten or removed, and the keys are the loaded
   * ones and the ids whose copy succeeded.
   */
  lemma {:induction false} CopyAllKeys(drive: Drive, parent: string, status0: Status, ids: seq<string>)
    ensures var p := CopyAll(drive, parent, status0, ids);
      && (forall k :: k in status0 ==> k in p.status && p.status[k] == status0[k])
      && p.status.Keys == status0.Keys + CopiedIds(p.reports)
  {
    if ids != [] {
      var init := ids[..|ids| - 1];
      CopyAllKeys(drive, parent, status0, init);
      if !CopyAll(drive, parent, status0, init).crashed {
        CopyAllSnoc(drive, parent, status0, ids);
      }
    }
  }

  /** Each successful copy is stored under its id, and was made with the given parent for an id not loaded. */
  lemma {:induction false} CopyAllStatus(drive: Drive, parent: string, status0: Status, ids: seq<string>)
    ensures var p := CopyAll(drive, parent, status0, ids);
      forall i :: 0 <= i < |p.reports| && p.reports[i].copying.Copied? ==>
        && p.reports[i].fileId !in status0
        && p.reports[i].fileId in p.status
        && p.status[p.reports[i].fileId] == p.reports[i].copying.copy
        && (p.reports[i].fileId, parent) in drive.copies
        && p.reports[i].copying.copy == drive.copies[(p.reports[i].fileId, parent)]
  {
    if ids != [] {
      var init := ids[..|ids| - 1];
      CopyAllStatus(drive, parent, status0, init);
      CopyAllKeys(drive, parent, status0, init);
      var p := CopyAll(drive, parent, status0, init);
      if !p.crashed {
        CopyAllSnoc(drive, parent, status0, ids);
        var h := CopyOne(drive, parent, p.status, ids[|ids| - 1]);
        var q := CopyAll(drive, parent, status0, ids);
        forall i | 0 <= i < |q.reports| && q.reports[i].copying.Copied?
          ensures q.reports[i].fileId in q.status && q.status[q.reports[i].fileId] == q.reports[i].copying.copy
        {
          if i < |p.reports| {
            assert q.reports[i] == p.reports[i];
            assert h.report.copying.Copied? ==> h.report.fileId !in p.status;
          }
        }
      }
    }
  }

  /**
   * An id is skipped exactly when it was in the loaded map or an earlier
   * copy of it succeeded: a copy is requested only for ids absent from `status`.
   */
  lemma {:induction false} SkipsExactlyCopied(drive: Drive, parent: string, status0: Status, ids: seq<string>)
    ensures var p := CopyAll(drive, parent, status0, ids);
      forall i :: 0 <= i < |p.reports| ==>
        (p.reports[i].copying.AlreadyCopied? <==> p.reports[i].fileId in status0.Keys + CopiedIds(p.reports[..i]))
  {
    if ids != [] {
      var init := ids[..|ids| - 1];
      SkipsExactlyCopied(drive, parent, status0, init);
      CopyAllKeys(drive, parent, status0, init);
      var p := CopyAll(drive, parent, status0, init);
      if !p.crashed {
        var q := CopyAll(drive, parent, status0, ids);
        CopyAllSnoc(drive, parent, status0, ids);
        forall i | 0 <= i < |p.reports| ensures q.reports[..i] == p.reports[..i] {
        }
      }
    }
  }

  // ---------------------------------------------------------------------------
  // The status file

  /** A line of the status file: the JSON of a map, or anything `json.loads` rejects (a blank line, say). */
  datatype Line = Json(status: Status) | Other

  /** What loading the status file leads to. */
  datatype Loaded =
    | Resume(status: Status, file: seq<Line>)  // go on with this map; the file is now open for appending
    | DecodeError                               // JSONDecodeError: logged, `exit(1)`
    | IndexError                                // `readlines()[-1]` of an empty file: an uncaught exception

  /**
   * `f.write("\n"); json.dump(status, f)` at the end of the open file: the
   * newline ends the last line, or makes a blank first line in an empty file.
   */
  function Save(file: seq<Line>, status: Status): (file': seq<Line>)
    ensures |file'| == (if file == [] then 2 else |file| + 1) && file'[|file'| - 1] == Json(status)
    ensures file != [] ==> file'[..|file|] == file
  {
    (if file == [] then [Other] else file) + [Json(status)]
  }

  /** The load as the script writes it; `None` is a missing file, which is created empty. */
  function LoadStatusAsWritten(file: Option<seq<Line>>): (r: Loaded)
    ensures r.IndexError? <==> file == Some([])
    ensures file.None? ==> r == Resume(map[], [])
    ensures r.Resume? && file.Some? ==> r.file == file.value && file.value[|file.value| - 1] == Json(r.status)
    ensures file.Some? && file.value != [] && file.value[|file.value| - 1].Json? ==>
              r == Resume(file.value[|file.value| - 1].status, file.value)
    ensures file.Some? && file.value != [] && file.value[|file.value| - 1].Other? ==> r == DecodeError
  {
    match file
    case None => Resume(map[], [])
    case Some(lines) =>
      if lines == [] then IndexError
      else match lines[|lines| - 1]
        case Json(m) => Resume(m, lines)
        case Other => DecodeError
  }

  /** The load as intended: an empty file holds no progress yet, like a missing one. */
  function LoadStatus(file: Option<seq<Line>>): (r: Loaded)
    ensures !r.IndexError?
    ensures file.Some? && file.value != [] ==> r == LoadStatusAsWritten(file)
    ensures r.Resume? && file.Some? ==> r.file == file.value
    ensures file.None? || file == Some([]) ==> r == Resume(map[], [])
    ensures file.Some? && file.value != [] && file.value[|file.value| - 1].Json? ==>
              r == Resume(file.value[|file.value| - 1].status, file.value)
    ensures file.Some? && file.value != [] && file.value[|file.value| - 1].Other? ==> r == DecodeError
  {
    match file
    case None => Resume(map[], [])
    case Some(lines) =>
      if lines == [] then Resume(map[], [])
      else match lines[|lines| - 1]
        case Json(m) => Resume(m, lines)
        case Other => DecodeError
  }

  /** The map saved by a run is the map the next run resumes from. */
  lemma SaveLoadRoundTrip(file: seq<Line>, status: Status)
    ensures LoadStatus(Some(Save(file, status))) == Resume(status, Save(file, status))
  {
  }

  // ---------------------------------------------------------------------------
  // The whole script

  datatype Ending =
    | InputUnreadable    // `files_to_copy.json` missing or not JSON: nothing is touched
    | StatusUnreadable   // the last status line is not JSON: `exit(1)` before any copy
    | StatusEmpty        // an empty status file: the uncaught IndexError ends the script before any copy
    | Crashed            // a KeyError ended the loop: the map is not saved
    | Finished           // the map is appended to the status file

  /** The file a crashed run leaves: the status file as opened, created empty when missing. */
  function Opened(file: Option<seq<Line>>): seq<Line> {
    match file
    case None => []
    case Some(lines) => lines
  }

  /**
   * Everything after a successful load: the parent question, the loop over
   * the ids, and the final append of the map to the open status file.
   */
  method CopyLoaded(loaded: Loaded, ids: seq<string>, parentAnswer: string, drive: Drive)
    returns (statusFile': Option<seq<Line>>, reports: seq<Report>, ending: Ending)
    requires loaded.Resume?
    ensures ending.Crashed? || ending.Finished?
    ensures var p := CopyAll(drive, DefaultParent(parentAnswer), loaded.status, ids);
      && reports == p.reports
      && (ending.Crashed? <==> p.crashed)
      && statusFile' == Some(if p.crashed then loaded.file else Save(loaded.file, p.status))
    ensures ending.Finished? ==>
              && statusFile'.Some? && statusFile'.value != []
              && LoadStatus(statusFile').Resume?
              && (forall k :: k in loaded.status ==>
                    k in LoadStatus(statusFile').status && LoadStatus(statusFile').status[k] == loaded.status[k])
  {
    var parent := DefaultParent(parentAnswer);
    var status, crashed;
    status, reports, crashed := CopyFiles(drive, parent, loaded.status, ids);
    if crashed {
      return Some(loaded.file), reports, Crashed;
    }
    statusFile' := Some(Save(loaded.file, status));
    ending := Finished;
    CopyAllKeys(drive, parent, loaded.status, ids);
    SaveLoadRoundTrip(loaded.file, status);
  }

  /**
   * The script as written, from its inputs: the decoded id list (None when it
   * cannot be read), the status file (None when missing), the parent answer
   * and the server.  It returns the status file it leaves.
   */
  method CopyRun(input: Option<seq<string>>, statusFile: Option<seq<Line>>, parentAnswer: string, drive: Drive)
    returns (statusFile': Option<seq<Line>>, reports: seq<Report>, ending: Ending)
    ensures input.None? ==> ending == InputUnreadable && statusFile' == statusFile && reports == []
    ensures ending == InputUnreadable <==> input.None?
    ensures input.Some? && LoadStatusAsWritten(statusFile).Resume? ==> ending.Crashed? || ending.Finished?
    ensures ending == StatusEmpty <==> input.Some? && statusFile == Some([])
    ensures ending == StatusUnreadable <==> input.Some? && LoadStatusAsWritten(statusFile).DecodeError?
    ensures ending == StatusEmpty || ending == StatusUnreadable ==> statusFile' == statusFile && reports == []
    ensures ending.Crashed? || ending.Finished? ==>
              && input.Some? && LoadStatusAsWritten(statusFile).Resume?
              && var p := CopyAll(drive, DefaultParent(parentAnswer), LoadStatusAsWritten(statusFile).status, input.value);
                 && reports == p.reports
                 && (ending.Crashed? <==> p.crashed)
                 && statusFile' == Some(if p.crashed then Opened(statusFile) else Save(Opened(statusFile), p.status))
    ensures ending.Finished? ==>
              && statusFile'.Some?
              && LoadStatusAsWritten(statusFile').Resume?
              && (forall k :: k in LoadStatusAsWritten(statusFile).status ==>
                    && k in LoadStatusAsWritten(statusFile').status
                    && LoadStatusAsWritten(statusFile').status[k] == LoadStatusAsWritten(statusFile).status[k])
  {
    if input.None? {
      return statusFile, [], InputUnreadable;
    }
    var loaded := LoadStatusAsWritten(statusFile);
    if loaded.IndexError? {
      return statusFile, [], StatusEmpty;
    }
    if loaded.DecodeError? {
      return statusFile, [], StatusUnreadable;
    }
    statusFile', reports, ending := CopyLoaded(loaded, input.value, parentAnswer, drive);
  }

  /** The script with the corrected load: an empty status file starts from scratch like a missing one. */
  method ResumableCopyRun(input: Option<seq<string>>, statusFile: Option<seq<Line>>, parentAnswer: string, drive: Drive)
    returns (statusFile': Option<seq<Line>>, reports: seq<Report>, ending: Ending)
    ensures input.None? ==> ending == InputUnreadable && statusFile' == statusFile && reports == []
    ensures ending == InputUnreadable <==> input.None?
    ensures input.Some? && LoadStatus(statusFile).Resume? ==> ending.Crashed? || ending.Finished?
    ensures !ending.StatusEmpty?
    ensures ending == StatusUnreadable <==> input.Some? && LoadStatus(statusFile).DecodeError?
    ensures ending == StatusUnreadable ==> statusFile' == statusFile && reports == []
    ensures ending.Crashed? || ending.Finished? ==>
              && input.Some? && LoadStatus(statusFile).Resume?
              && var p := CopyAll(drive, DefaultParent(parentAnswer), LoadStatus(statusFile).status, input.value);
                 && reports == p.reports
                 && (ending.Crashed? <==> p.crashed)
                 && statusFile' == Some(if p.crashed then Opened(statusFile) else Save(Opened(statusFile), p.status))
    ensures ending.Finished? ==>
              && statusFile'.Some?
              && LoadStatus(statusFile').Resume?
              && (forall k :: k in LoadStatus(statusFile).status ==>
                    k in LoadStatus(statusFile').status && LoadStatus(statusFile').status[k] == LoadStatus(statusFile).status[k])
  {
    if input.None? {
      return statusFile, [], InputUnreadable;
    }
    var loaded := LoadStatus(statusFile);
    if loaded.DecodeError? {
      return statusFile, [], StatusUnreadable;
    }
    statusFile', reports, ending := CopyLoaded(loaded, input.value, parentAnswer, drive);
  }

  // ---------------------------------------------------------------------------
  // The empty status file

  /**
   * A first run whose loop raises a KeyError leaves an empty status file, and
   * the load as written then fails on every later run.
   */
  lemma EmptyStatusFileBlocksResume()
    ensures var copy := Resource("c", None, None);
      var drive := Drive(map[("a", "root") := copy], map["a" := Resource("a", Some("m"), Some("1")), "c" := copy]);
      var p := CopyAll(drive, "root", map[], ["a"]);
      && p.crashed
      && Opened(None) == []
      && LoadStatusAsWritten(Some(Opened(None))) == IndexError
  {
    var copy := Resource("c", None, None);
    var drive := Drive(map[("a", "root") := copy], map["a" := Resource("a", Some("m"), Some("1")), "c" := copy]);
    var ids := ["a"];
    assert ids[..0] == [];
    assert CopyStage(drive, "root", map[], "a") == Copied(copy);
  }

  /** Every status file a run can leave behind (missing, empty, or saved) is loaded by the corrected load. */
  lemma LeftoverFilesLoad(file: Option<seq<Line>>, previous: seq<Line>, status: Status)
    requires file == None || file == Some([]) || file == Some(Save(previous, status))
    ensures LoadStatus(file).Resume?
  {
  }
}
