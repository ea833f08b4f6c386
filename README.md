# Drive scripts, modelled in Dafny

This project models four command-line scripts that work on a Google Drive
account through the Drive v3 API:

- `drive_download.py` mirrors a Drive folder hierarchy under a local
  directory `root`. It walks the folders breadth-first with a FIFO queue of
  (folder id, local path) pairs. Each child folder gets a local directory and
  is enqueued. Every other child is "copied", which only touches an empty
  local file named after the child's path and Drive id.
- `drive_dedup.py` lists every file once, page by page. It groups the files
  that carry an MD5 checksum by that checksum, counts them, and prints a
  conflict line whenever a checksum repeats.
- `drive_list.py` reads a query and an optional maximum. It lists and prints
  the matching files until the maximum is reached. After "yes" and then "Y",
  it deletes each listed file.
- `drive_copy.py` copies a list of file ids into one parent folder. It
  resumes from the status map (original id to copy) saved by earlier runs,
  and compares each copy's checksum and size with the original's. At the end
  it appends the new map to the status file.

The modules are:

- `Paging` (`paging.dfy`): the pagination protocol shared by the three
  scripts that list files (`drive_copy.py` makes no list call). A listing is the sequence of responses the server would give. The
  client follows `nextPageToken` until the first response that has none.
- `Download` (`download.dfy`): the local filesystem is a value
  (directories, and files with their bytes) threaded through the walk.
- `Dedup` (`dedup.dfy`).
- `Listing` (`listing.dfy`).
- `Copy` (`copy.dfy`). The status file is a sequence of lines, each either
  the JSON of a map or something `json.loads` rejects.
- `Wrappers` (`wrappers.dfy`): an `Option` type.

Each loop of the scripts is a method proved against a specification
function. The properties the scripts rely on are proved as lemmas about
those functions.

## Model

| member | source | states |
|---|---|---|
| Paging.FetchCount | drive_download.py:47-60 | The client requests the responses up to and including the first one without a next-page token, and no more. |
| Paging.FetchAll | drive_download.py:46-60 | Following the tokens yields exactly the concatenation of the requested pages' `files` lists, in page order. A page without `files` contributes nothing. It makes exactly `FetchCount` requests. |
| Paging.ListedUnfold | drive_download.py:50-60 | The listing read from the front: the first page's files, then the listing of the rest when the first page has a token. |
| Paging.ListedIgnoresLaterPages | drive_download.py:55-60 | Responses after the first final one change neither what is listed nor how many requests are made. |
| Paging.FetchCountIsFirstFinal | drive_download.py:55-60 | The request count is the position of the first response without a token. |
| Paging.ConcatMembership | drive_download.py:52-54 | A file is listed exactly when it is on one of the pages. |
| Paging.ConcatCons | drive_download.py:51-54 | The first page's files come before those of later pages. |
| Download.StartId | drive_download.py:64-66 | An empty answer starts from `root`; any other answer is used as given; the start id is never empty. |
| Download.Sanitize | drive_download.py:75 | Every `/` in a name becomes `.`, and nothing else changes: the length is kept and no `/` remains. |
| Download.ChildPathDepth | drive_download.py:75 | A child's local path lies exactly one level below its parent's. |
| Download.ChildRouting | drive_download.py:76-85 | Every child takes exactly one route. A folder becomes a queue entry (its id, its item path) and is never touched. Any other file is touched at its path plus its id and is never enqueued. |
| Download.SubfoldersDepth | drive_download.py:75-78 | Every entry a folder adds to the queue lies one level below that folder. |
| Download.Mkdir | drive_download.py:69 | `os.mkdir` succeeds exactly when nothing occupies the path, and then adds just that directory. |
| Download.Touch | drive_download.py:38-41 | Append mode fails only on a directory. It adds the path as a file, never truncates an existing file, and creates only an empty one. |
| Download.FolderStep | drive_download.py:76-80 | A folder child's directory is created when it is discovered, and it is appended to the queue. |
| Download.FileStep | drive_download.py:81-85 | A file child only adds its touched path; the directories and the queue stay the same. |
| Download.FitsNow | drive_download.py:76-85 | After the earlier children, the next child's `os.mkdir` or touch succeeds exactly when the child fits: a folder's path is neither a directory nor a file, and a file's path is not a directory. |
| Download.FitsIffFresh | drive_download.py:73-85 | A folder's children fit one by one exactly when the whole listing is clash-free. The sub-folder paths are distinct. They clash with no existing directory or file and no touched path. No touched path is an existing directory. |
| Download.Place | drive_download.py:76-85 | One child: a folder is appended to the queue and then its directory is made; any other file is touched. It fails exactly when the child does not fit. It then names the child's path, which is occupied, and leaves the filesystem as it was. |
| Download.Expand | drive_download.py:73-85 | Handling one folder's children creates the directory of every sub-folder and appends them to the queue in listing order. It touches every other child, and keeps every existing file's bytes. It succeeds exactly when the children fit. A failure names the path of the first child that does not fit, and that path is occupied. The filesystem then holds exactly what the children before that one added. |
| Download.ExpandKeepsInvariant | drive_download.py:71-85 | One dequeue-and-expand keeps the walk invariant. The queue is the not-yet-expanded tail of everything enqueued. The directories and files are exactly those of the enqueued folders and touched children. Local paths are distinct, and depths are non-decreasing and at most one level past the head. |
| Download.WalkStarts | drive_download.py:64-69 | After `root` is created, the seed entry (start id, `root`) satisfies the walk invariant. |
| Download.Visit | drive_download.py:72-85 | One pass of the loop dequeues the head, lists its children and expands it. On success the walk invariant holds one folder further on, and the head's children fitted. A failure is an abort at the head, named by its first child that does not fit, with the filesystem it leaves stated. Expanded folders stay under `root`. With a clash-free remote and nothing under `root` beforehand, the pass never fails. |
| Download.FitStep | drive_download.py:73-85 | A folder whose children fit extends the record that every expanded folder's children fitted into what the walk had made before it. |
| Download.AbortStep | drive_download.py:72-85 | A failure while expanding the head of the queue is an abort whose last folder is the next one in breadth-first order, with every earlier folder fitted. The filesystem left behind holds what the earlier folders made plus the children handled before the failing one. |
| Download.WalkEnds | drive_download.py:71 | When the loop stops, every queued folder has its directory, and folders were expanded shallowest first. With an empty queue, every enqueued folder was expanded exactly once, each under its own path. |
| Download.Walk | drive_download.py:71-85 | The breadth-first loop from the seed keeps the walk invariant. A finished walk leaves an empty queue; running out of fuel means `fuel` folders were expanded with more queued, and an abort happens within the fuel. An abort comes from the last dequeued folder, the next in breadth-first order: every earlier folder's children fitted, the abort names the path of the first child of that folder that does not fit, and the filesystem holds what was made up to it. With a clash-free remote and nothing under `root` beforehand, the walk never aborts. |
| Download.Mirror | drive_download.py:63-85 | Runs the whole script. `root` already existing aborts before any listing and leaves the filesystem as it was; only then is the abort at `root`. Otherwise it is the walk above: folders are expanded shallowest first, every queued folder has its directory, and a finished run expanded every enqueued folder once, each under its own path. Running out of fuel means more than `fuel` folders were enqueued. An abort names an occupied path. Existing files are never truncated. With a clash-free remote and nothing at or under `root` beforehand, the run never aborts. |
| Download.SameNameFoldersClash | drive_download.py:75-80 | Two sub-folders of one folder whose names sanitise alike give the same local path. No run can then finish, so the second `os.mkdir` aborts it. |
| Download.BelowParent | drive_download.py:75 | A path one level below a directory has that directory as its parent, so it lies below no other directory. |
| Download.BelowRooted | drive_download.py:75 | A path below a directory at or under `root` is itself under `root`, and is not `root`. |
| Download.SubfoldersBelow | drive_download.py:75-78 | Every sub-folder a folder enqueues lies one level below it. |
| Download.TargetsBelow | drive_download.py:75-85 | When no id holds a separator, every path a folder's files are touched at lies one level below that folder. |
| Download.SubsApart | drive_download.py:75-80 | A name that no sub-folder sanitises to is not the path of any of them. |
| Download.TargetsApart | drive_download.py:75-85 | A name that no file's sanitised name plus id equals is not one of the touched paths. |
| Download.FolderApart | drive_download.py:75-80 | In a listing whose siblings do not clash, a folder child fits after the earlier children into an empty directory. |
| Download.FileApart | drive_download.py:81-85 | In a listing whose siblings do not clash, a file child fits after the earlier children into an empty directory. |
| Download.ApartFresh | drive_download.py:73-85 | A listing whose siblings do not clash is clash-free on its own: distinct folder names, and no folder named like a file plus its id. |
| Download.ClashFreeChildren | drive_download.py:73 | In a clash-free remote, every folder's listing is free of sibling clashes, including a folder the remote does not know. |
| Download.DiscoveredBelow | drive_download.py:75-78 | Every folder discovered by expanding some folders lies one level below one of them. |
| Download.TouchedBelow | drive_download.py:75-85 | In a clash-free remote, every path touched while expanding some folders lies one level below one of them. |
| Download.EnqueuedRooted | drive_download.py:67-78 | When the expanded folders lie at or under `root`, so does everything enqueued. |
| Download.RootedStep | drive_download.py:72-78 | Dequeuing the head keeps every expanded folder at or under `root`. |
| Download.NewPathFree | drive_download.py:71-85 | In a clash-free walk over a filesystem with nothing under `root` beforehand, no path one level below the head of the queue is yet a directory or a file. |
| Download.FreshAmong | drive_download.py:73-85 | A listing clash-free on its own, whose paths all lie below its folder, stays clash-free against a filesystem holding nothing there. |
| Download.ClashFreeFits | drive_download.py:72-85 | In a clash-free walk over a filesystem with nothing under `root` beforehand, the head of the queue's children always fit. |
| Dedup.Group | drive_dedup.py:28-33 | `files_by_hash` has each checksum as a key once, its key order lists each key exactly once, and it never holds an empty list. |
| Dedup.CountWithMd5 | drive_dedup.py:34 | `files_with_md5` never exceeds the number of files seen. |
| Dedup.GroupIsFilter | drive_dedup.py:28-33 | The list under a checksum is exactly the files carrying it, in encounter order. A checksum no file carries is not a key. |
| Dedup.GroupMembership | drive_dedup.py:28-33 | Every file with a checksum is in the list keyed by that checksum; a list holds only files carrying its key, so files without one are in none. |
| Dedup.GroupFirst | drive_dedup.py:29-33 | Element 0 of each list is the first file seen with that checksum. |
| Dedup.GroupSum | drive_dedup.py:30-34 | `files_with_md5` equals the total length of the lists. |
| Dedup.ConflictCount | drive_dedup.py:29-33 | The number of conflict lines plus the number of distinct checksums equals the number of files with a checksum. |
| Dedup.ConflictsNameFirst | drive_dedup.py:31 | Every conflict line names the first file seen with its checksum. |
| Dedup.ConflictsAreRepeats | drive_dedup.py:29-32 | The conflict lines are exactly those of the reference definition, in order. There is one line per file that an earlier file shares its checksum with, giving that file's id, the id of the earliest such file, and the checksum. |
| Dedup.RepeatsAt | drive_dedup.py:29-32 | In the reference, file `n` gets a line exactly when some earlier file carries its checksum, and the line names the earliest such file. |
| Dedup.AnalyzePage | drive_dedup.py:27-34 | The per-page loop extends the grouping, the count and the conflict lines by exactly that page's files. |
| Dedup.Deduplicate | drive_dedup.py:19-41 | After the pagination loop, `total_files_seen` and `files_with_md5` count the listed files, and `files_by_hash` and the conflict lines are those of the full listing. The running total printed after each page is the size of the listing so far. |
| Listing.ParseIntRoundTrip | drive_list.py:21 | Decimal `int()` reads back any printed integer: `int(str(n)) == n`. |
| Listing.ParseLimitCases | drive_list.py:19-23 | An empty answer means no maximum; a printed integer becomes that maximum. |
| Listing.Bound | drive_list.py:39 | A non-zero maximum stops the listing at its value. A negative one stops it after one file. |
| Listing.FormatLine | drive_list.py:33-36 | The printed line is `name`, `mimeType`, `size`, `id`, `md5Checksum` when both size and checksum are present, and otherwise `name`, `mimeType`, `id`, joined by single spaces as `print` does. |
| Listing.TakeFromPage | drive_list.py:32-41 | The per-page loop prints and keeps each file. It stops exactly when the maximum is reached, so it never keeps more than the maximum. |
| Listing.CollectFiles | drive_list.py:25-47 | `files_found` is a prefix of the full listing, of length min(maximum, listing) when capped and the whole listing otherwise. One line is printed per kept file. Once the maximum is reached, at most one more response is requested and none of its files is kept. Every response requested before the last but one left the listing below the maximum. |
| Listing.DeleteStep | drive_list.py:54-59 | One delete keeps the reports and the remote store in step with the files handled so far: it succeeds exactly when the id still exists after the earlier deletes and is not protected. |
| Listing.DeleteFound | drive_list.py:50-59 | Without "yes" then "Y" nothing is deleted and nothing is reported. Otherwise each kept file's delete is attempted once, in order, and an HttpError does not stop the rest. A delete succeeds exactly when the id still exists after the earlier deletes and is not protected, and it removes the file and its owned descendants. The store afterwards is what the deletes leave, it only shrinks, and every deleted id is gone from it. |
| Listing.ListAndDelete | drive_list.py:17-59 | A maximum that is not a number ends the script before any request. Otherwise the listing and deletion above run in sequence, with the same guarantees. These cover the prefix, the length, the printed lines and the request bounds, then one report per kept file in order. A delete succeeds exactly when the id still exists after the earlier deletes and is not protected. The store only shrinks, and deleted ids are gone from it. |
| Listing.Ids | drive_list.py:54-56 | The ids of some files: exactly the ids that occur among them. |
| Listing.RemainingShrinks | drive_list.py:54-59 | Deletes only remove ids: what is left after more deletes is contained in what is left after fewer, and in the initial store. |
| Listing.RemainingStep | drive_list.py:54-59 | The store after one more delete is the store before it, minus the file and its owned descendants when that delete succeeds. |
| Listing.FlatDeletes | drive_list.py:54-59 | When no listed id owns descendants, exactly the existing, unprotected listed ids are removed. |
| Listing.FlatReports | drive_list.py:54-59 | When no listed id owns descendants, a delete succeeds exactly when the id exists, is not protected and was not listed earlier. |
| Listing.CascadeRefuses | drive_list.py:54-59 | Once a folder's delete succeeds, a later listed file among its owned descendants no longer exists, so its delete is refused. |
| Listing.DeletedGone | drive_list.py:54-59 | After the deletes, the store is within the initial one, and no id whose delete succeeded remains. |
| Copy.DefaultParent | drive_copy.py:51-53 | An empty parent answer means `root`; any other answer is used as given. |
| Copy.CheckStage | drive_copy.py:68-82 | Each outcome has its exact condition. The original is unreadable exactly when its `get` fails. The checks are skipped exactly when it lacks a size or a checksum. The copy is unreadable exactly when its `get` fails. A KeyError occurs on a missing checksum, or on a missing size when the checksum is present. The comparison completes exactly when the copy has both. Checksums and sizes are compared independently. |
| Copy.CopyOne | drive_copy.py:58-84 | An id already in `status` is skipped. Otherwise a copy is requested with the given parent, and a success is stored under that id. Only the copy changes `status`; a failed copy adds nothing, and a mismatch neither removes the entry nor retries. |
| Copy.HandleFile | drive_copy.py:58-82 | The loop body computes exactly the step above. |
| Copy.CopyFiles | drive_copy.py:57-84 | The loop over the ids computes the fold of the step, and stops only at a KeyError. |
| Copy.CrashIsFinal | drive_copy.py:57-84 | After an uncaught error, later ids change nothing. |
| Copy.CopyAllReports | drive_copy.py:57-84 | There is one report per id, in order. An HttpError is isolated to its id, so only a KeyError, reported last, leaves ids unhandled. |
| Copy.CopyAllKeys | drive_copy.py:59-66 | Loaded entries are never overwritten or removed. The keys are exactly the loaded ones plus the ids whose copy succeeded. |
| Copy.CopyAllStatus | drive_copy.py:59-64 | Each successful copy is stored under its id. It was made with the given parent, for an id absent from the loaded map. |
| Copy.SkipsExactlyCopied | drive_copy.py:59-66 | An id is skipped exactly when it was loaded or an earlier copy of it succeeded. |
| Copy.Save | drive_copy.py:86-88 | Saving appends a newline and the map. The earlier lines are kept, and the last line is the map. |
| Copy.LoadStatusAsWritten | drive_copy.py:39-49 | The load as written. A missing file starts from an empty map. Exactly the empty file fails with an IndexError. Otherwise a JSON last line resumes from its map with the file kept open, and any other last line is a decode error. |
| Copy.LoadStatus | drive_copy.py:39-49 | The corrected load: a missing or empty file starts from an empty map. Otherwise a JSON last line resumes from its map, and any other last line is a decode error, as in the load as written. |
| Copy.SaveLoadRoundTrip | drive_copy.py:40-88 | The map saved by a run is the map the next run resumes from. |
| Copy.CopyLoaded | drive_copy.py:51-89 | After a successful load, the run is the fold over the ids. A crash leaves the opened file as it was. A finished run appends the final map, which the next load returns and which extends the loaded one. |
| Copy.CopyRun | drive_copy.py:33-89 | The script as written. An unreadable input, an empty status file (the uncaught IndexError) or an undecodable last line stops it before any copy, with the status file untouched, and each of these endings occurs exactly in its own case. Otherwise the copy runs: it crashes or finishes as the run above from the loaded map. |
| Copy.ResumableCopyRun | drive_copy.py:33-89 | The script with the corrected load: it never stops at an empty status file. It stops before any copy exactly when the input is unreadable or the last status line does not decode; otherwise the copy runs as above. |
| Copy.EmptyStatusFileBlocksResume | drive_copy.py:40-46 | A first run that raises a KeyError in the loop leaves an empty status file, which the load as written rejects with an IndexError. |
| Copy.LeftoverFilesLoad | drive_copy.py:40-88 | Every status file a run can leave (missing, empty or saved) is accepted by the corrected load. |

## Left out

- OAuth set-up, Drive client construction and logging configuration are left out: they are foreign library calls with no effect on the modelled state. Log messages of `drive_copy.py` become a per-id `Report`; those of `drive_download.py` and the prints of all scripts are left out, except the lines and counts named above.
- The Drive requests become data. A listing is a given sequence of responses (`Page`). A copy or `get` is a lookup in a map, where a missing entry is an HttpError. A delete succeeds when the id still exists and is not protected; it then removes the file and the descendants the given `owned` map lists for it, as `files().delete` does for a folder the user owns. Which descendants the user owns, trash, and sharing rules beyond that map are not modelled. Transport errors (connection failures, timeouts) and an interrupted run (Ctrl-C) are not modelled.
- An HTTP error during a listing is not modelled. It is uncaught in every script and would end the run.
- `input()` answers are parameters. The query string and `pageSize` of `drive_list.py` only shape the server's answer, which is given.
- Paging.FetchAll: the listing in `drive_download.py` is a generator, so the model fetches all of a folder's pages before handling its children. When an `os.mkdir` aborts mid-folder, the script has requested fewer pages than the model counts; the directories and files are the same.
- Download.Mirror: `fuel` bounds the number of folders expanded. Around a cycle in the remote hierarchy the script descends, each local path one level longer, until `os.mkdir` fails on the path length (an uncaught `OSError`, a filesystem error not modelled). A finite hierarchy with more folders than `fuel` also stops early. The model reports `OutOfFuel` in both cases, which for a cycle stands in for that error, and proves that more than `fuel` folders were then enqueued. It does not prove that an acyclic hierarchy with at most `fuel` folders always finishes. The depth of a folder is the number of separators in its local path.
- Download.Mkdir: a path is occupied only when the model holds it as a directory or file. A folder named `.`, `..` or the empty string resolves to an existing directory, so `os.mkdir` fails on it. On a case-insensitive filesystem, names that differ only in case clash. Neither is modelled; the model lets such folders through.
- `os.path.join` is `parent + "/" + name`, since sanitised names hold no `/`. Other filesystem errors (permissions, full disk, a path or name too long) are not modelled. Only the `os.mkdir` and touch failures on an occupied path are.
- Listing.ParseInt reads ASCII whitespace (those `str.isspace()` accepts, the separators U+001C to U+001F included), an optional sign and ASCII digits. Python's `int()` also accepts underscores between digits, non-ASCII digits and non-ASCII whitespace; those are not modelled.
- `drive_dedup.py` lines 43-45 are not modelled: the final count print and the JSON dump of `files_by_hash` (`HashIndex.order` keeps the key order the dump would show).
- JSON is not modelled as text. A status line is either the JSON of a map or a line `json.loads` rejects, and `files_to_copy.json` is given as a decoded id list, or absent when missing or undecodable.
- Copy.CopyRun: a status file whose last line ends in a newline, which only a hand edit produces, is not distinguished. The script would then write a blank line before the map; the last line is still the map.
- Copy.Drive: a copy's response depends on the (id, parent) pair only; what the server does with a parent it cannot find is part of that given response.

## Findings

| source | as written | input that shows it | evidently intended | confidence | as-written member | corrected member |
|---|---|---|---|---|---|---|
| drive_copy.py:40-46 | A missing status file is created empty with mode `'w'` before any copy. It is written only after the loop, and an empty file fails at `f.readlines()[-1]` with an uncaught IndexError. | A first run whose loop raises a KeyError: the copy of a binary original has no `md5Checksum`. It leaves an empty `drive_copy_status.json`, and every later run then stops with an IndexError. | An empty status file means no copies recorded yet, like a missing one. | not executed | Copy.LoadStatusAsWritten, Copy.CopyRun, Copy.EmptyStatusFileBlocksResume | Copy.LoadStatus, Copy.ResumableCopyRun, Copy.LeftoverFilesLoad |
