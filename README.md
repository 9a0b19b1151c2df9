# epm, modelled in Dafny

epm is a package manager for content packages (zip, rar and tar archives
that carry a `package.json`). A *repository* is a folder of package files
plus a hidden `.epm` folder. That folder holds the documents the program
keeps:

- the files ledger: per file, its stats, a status code and a checksum;
- the packages document: packages by uid, and uids by file;
- the tags document;
- the cached metadata of each package;
- the list of remotes and the cached manifest of each remote.

This project models the core of that program:

- **Change detection.** Each file is classified as -1 deleted, 0 unchanged,
  1 added or 2 changed. There are two versions: the served repository's
  `filer` and the older `fs-explorer`.
- **Refresh.** The manager's batch refresh and the single-worker package
  queue (`epkg`) keep the packages, tags and metadata documents in step with
  the ledger.
- **The engines.** These are the simple package engine and the pad plugin:
  uid shortening, tag extraction, asset resolution, the file-name pattern and
  query matching. The model also covers the string helpers they use
  (`normalize`, `escape`, `regexEscape`, `splitTags`).
- **The tag index** and **the plugin registry**.
- **The served repository object**: naming, path resolution, the cached load
  and the package listing.
- **Remotes**: adding, removing and looking them up.
- **Pulling from a remote**, in both versions:
  - the epm puller: `analize`, a job queue and a downloader that downloads,
    verifies the checksum and moves the file;
  - the repository puller: planning, a series of downloads, then the moves
    into place.

Persisted documents are fields of one `Store.Gateway` object. Every write
to a document is recorded in its `writes` log, so "written once" and "only
this document is written" can be stated. A directory on disk is a map from
file name to stats and content. A download folder is a `Store.Folder`
whose `files` map the methods update.

Some behaviour comes from code outside this model, or from the environment:

- the checksum library;
- the engine's archive reader;
- the HTTP body of a download;
- `require` of a plugin;
- the order JavaScript gives to an object's keys;
- the remote's answer to a fetch.

All of these are parameters: functions, or sequences giving an order. A
JavaScript exception is a `Js.Threw` value, `undefined` is `Option.None`,
and a Node-style callback error is `Result.Err`.

## Model

| member | source | states |
|---|---|---|
| Builds.BuildOrOne | lib/epm/pkg-reader.js:51 | a missing or null build reads as 1; any other build is what `parseInt` makes of it |
| Builds.ParseInt | lib/epm/pkg-reader.js:51 | reference definition of `parseInt` on a build field: a number is kept, a string is read in base 10, and undefined or null is NaN |
| Builds.Stored | lib/repo/manager.js:178 | a parsed build written back to JSON and parsed again gives the same number, or NaN again |
| Builds.DecimalTextDigits | lib/repo/manager.js:178 | the JSON text of a build number is all digits, and its digits evaluate to that number |
| Builds.ParseDecimalText | lib/repo/manager.js:178 | `parseInt` reads back the decimal text of every natural number |
| Builds.TextBuildsCompareAsNumbers | lib/epm/puller.js:174 | builds written as strings compare as numbers after `parseInt` ("9" is older than "10"), also against numeric builds |
| Builds.NaNNeverLess | lib/epm/puller.js:174 | an unparsable build is never older or newer than anything, so it never triggers an update |
| Engine.CutUid | lib/sep.js:53-55 | the short uid is the first and last seven characters joined by "..", and the whole uid twice for uids shorter than seven |
| Engine.GetTags | lib/sep.js:57-63 | no tags exactly when there is no metadata, content or tag list; otherwise one comma-free piece per comma plus one |
| Engine.FirstSrc | lib/sep.js:123-139 | the `src` of the first image of the type, none exactly when no image has that type |
| Engine.ResolveAsset | lib/sep.js:123-139 | a "front"/"content" asset throws exactly when there is no content or image list, and otherwise returns the `src` of the first image of its lower-cased type; any other asset is unknown |
| Engine.AlnumRun | lib/sep.js:28 | the length of the maximal leading run of ASCII letters and digits |
| Engine.MatchesFilePattern | lib/sep.js:28 | reference definition of the package file-name pattern: an alphanumeric base, one dot, then a package extension |
| Engine.FilePatternSplit | lib/sep.js:28 | an alphanumeric base, a dot and an extension match the package pattern exactly when the extension is zip, rar, tar, or tar.gz with any character in place of its dot, in any case |
| Engine.FilePatternNeedsAlnumBase | lib/sep.js:28 | a name with any character other than letters, digits and the one dot before it never matches |
| Engine.LastArea | lib/sep.js:65-80 | the value of the last `area` filter, none exactly when no filter is on `area` |
| Engine.IsMatch | lib/sep.js:65-80 | sep's match throws exactly when an area filter meets metadata without content; otherwise it holds exactly when the last area filter equals the package's area |
| Pad.CompareScape | plugins/pad/index.js:146-161 | after escaping both sides: an empty text never matches; `!=` is inequality, `contains` is substring, every other operator is equality |
| Pad.OperatorsAgree | plugins/pad/index.js:146-161 | on a non-empty text `=` and `!=` always disagree, and `=` implies `contains` |
| Pad.IsMatchPredicate | plugins/pad/index.js:112-144 | an unknown key (not uid, a content field or tag, after lower-casing) gives undefined; known keys give a boolean |
| Pad.IsMatch | plugins/pad/index.js:67-110 | the loop over the predicate chain computes exactly the left fold `Matches` of the chain's results through its `and`/`or` links |
| Pad.FoldAnd | plugins/pad/index.js:67-110 | folding an all-`and` chain of known keys from a boolean b gives b and every predicate holding |
| Pad.FoldOr | plugins/pad/index.js:67-110 | folding an all-`or` chain of known keys from a boolean b gives b or some predicate holding |
| Pad.AndChainIsConjunction | plugins/pad/index.js:67-110 | a query whose links are all `and` matches exactly when every predicate holds |
| Pad.OrChainIsDisjunction | plugins/pad/index.js:67-110 | a query whose links are all `or` matches exactly when some predicate holds |
| Pad.UnknownKeyRestarts | plugins/pad/index.js:67-110 | an unknown key resets the result to undefined whenever the link before it would not short-circuit |
| Paths.LastIndexOf | lib/epm/puller.js:81-82 | the index of the last occurrence of a character, -1 when absent |
| Paths.Basename | lib/epm/pkg-reader.js:47-54 | the base name is the slash-free suffix of the path |
| Paths.Extname | lib/epm/puller.js:82 | the extension is a suffix of the path that starts with its only dot and holds no slash |
| Paths.ExtnameOfFile | lib/epm/puller.js:82 | `dir/stem.ext` has base name `stem.ext` and extension `.ext` |
| Paths.ExtnameOfBareFile | lib/epm/puller.js:82 | a bare `stem.ext` is its own base name, with extension `.ext` |
| Paths.JoinUnderRoot | lib/repo/index.js:65-73 | a path joined onto a root is the root, a slash, then the joined rest |
| PkgReader.Read | lib/epm/pkg-reader.js:37-59 | an unreadable archive gives "<path> is corrupted"; otherwise the metadata, its uid, the file's base name and the build defaulting to 1 |
| PkgReader.ReadNamesTheFile | lib/epm/pkg-reader.js:47-54 | reading a readable `dir/stem.ext` succeeds and reports the file name `stem.ext` |
| Plugins.Registered | lib/epm/epm-plugins.js:47-63 | the registered records come from the installed names in order; exactly the names the loader resolves are registered |
| Plugins.Registry.constructor | lib/epm/epm-plugins.js:23-38 | a new registry holds no plugin |
| Plugins.Registry.Register | lib/epm/epm-plugins.js:79-104 | registering appends the resolved plugin's record, and nothing when the loader fails |
| Plugins.Registry.LoadPlugins | lib/epm/epm-plugins.js:47-63 | loading registers every installed name in order, and nothing without an installed list |
| Plugins.RegisteredSnoc | lib/epm/epm-plugins.js:47-63 | registering a list and then one more name is registering the longer list |
| Plugins.Engines | lib/epm/epm-plugins.js:66-72 | the engines are exactly the plugins of engine type |
| Plugins.EnginesAppend | lib/epm/epm-plugins.js:66-72 | the engines of two lists in a row are the first list's engines, then the second's; a single plugin gives itself when it is an engine and nothing otherwise, so registration order is kept |
| Plugins.GetByName | lib/epm/epm-plugins.js:111-115 | the first plugin with that name, none exactly when no plugin has it |
| Plugins.FirstServing | lib/epm/epm-plugins.js:123-134 | the first engine whose file list holds the extension, none exactly when none does |
| Plugins.ResolveEngine | lib/epm/epm-plugins.js:123-134 | no engine for a file without extension; otherwise the first engine, in registration order, whose `files` lists the extension, and none only when no engine lists it |
| Plugins.RegisterThenGet | lib/epm/epm-plugins.js:79-115 | after registering a new resolvable name, looking it up finds its record |
| Words.DropSpaces | lib/utils/words.js:81-83 | a suffix of the input that starts with no whitespace |
| Words.Normalize | lib/utils/words.js:46-51 | reference definition of `normalize`: collapse each whitespace run to one space, then trim |
| Words.CollapseClean | lib/utils/words.js:46-51 | collapsing whitespace leaves only single plain spaces and keeps emptiness and a leading space |
| Words.CollapseOfClean | lib/utils/words.js:46-51 | collapsing is the identity on a string whose whitespace is already single spaces |
| Words.TrimClean | lib/utils/words.js:46-51 | trimming keeps whitespace single and leaves no space at either end; it changes nothing on a trimmed string |
| Words.NormalizeShape | lib/utils/words.js:46-51 | `normalize` leaves no adjacent whitespace and none at either end, and applying it twice changes nothing |
| Words.NormalizeOfCleanTrimmed | lib/utils/words.js:46-51 | `normalize` leaves an already normal string alone |
| Words.LowerStr | lib/utils/words.js:58-67 | lower-casing maps each character, keeping the length |
| Words.Escape | lib/utils/words.js:58-67 | the method computes the escaped form: lower-case, normalize, then every table entry in order |
| Words.ApplyRulesAt | lib/utils/words.js:58-67 | the table acts character by character |
| Words.RulesOnLeavesNoClassChar | lib/utils/words.js:58-67 | once a character went through the table it belongs to no entry's class |
| Words.EscapedHasNoClassChar | lib/utils/words.js:58-67 | an escaped text holds no accented character of the table |
| Words.AsciiValsOutside | lib/utils/words.js:14-30 | a table whose replacements are ASCII and whose classes are not never reintroduces a class character |
| Words.PadTableValsOutside | plugins/pad/utils/words.js:14-30 | the pad plugin's table has that property |
| Words.UtilTableValsOutside | lib/utils/words.js:14-30 | the shared utility table has that property |
| Words.RegexEscapeLength | lib/utils/words.js:73-75 | escaping adds exactly one backslash per special character |
| Words.RegexEscapeRoundTrip | lib/utils/words.js:73-75 | reading the escaped pattern back gives the original text |
| Words.RegexEscape | lib/utils/words.js:73-75 | reference definition of `regexEscape`: a backslash before each regular-expression special character |
| Words.DropSpacesKeepsCommas | lib/utils/words.js:81-83 | dropping leading whitespace keeps every comma |
| Words.SplitTagsPieces | lib/utils/words.js:81-83 | one piece per comma plus one, and no piece holds a comma |
| Words.SplitTagsJoin | lib/utils/words.js:81-83 | where no whitespace follows a comma, joining the pieces with commas gives the input back |
| Words.SplitTags | lib/utils/words.js:81-83 | reference definition of `splitTags`: the text split at each comma, with the whitespace after every comma dropped; never empty |
| Tags.VocabularyMembers | lib/epm/tags-lexer.js:44-69 | a word is in a list's vocabulary exactly when some tag of the list escapes to it |
| Tags.AllVocabularyMembers | lib/epm/tags-lexer.js:44-69 | a word is in the whole vocabulary exactly when some tag of some package escapes to it |
| Tags.Lex | lib/epm/tags-lexer.js:44-69 | the buckets are exactly the escaped forms of all tags, each holding only itself, with each key listed exactly once |
| Tags.All | lib/epm/tags.js:45-61 | the tag list never fails, holds exactly the escaped forms of all tags, without duplicates |
| Tags.CaseAndSpacingCollapse | lib/epm/tags-lexer.js:55 | tags that differ only in case or spacing share a bucket |
| Filer.FileStatus | lib/repo/filer.js:126-152 | -1 exactly for a missing file; an added file is 1 without a checksum; same stats is 0; otherwise 2 or 0 by comparing the fresh checksum |
| Filer.Pruned | lib/repo/filer.js:32-38 | the ledger without the entries marked deleted |
| Filer.Refreshed | lib/repo/filer.js:55-87 | the recorded entry has the status's stats and code; an added file gets its fresh checksum, and any other keeps the stored one |
| Filer.NewLedger | lib/repo/filer.js:47-101 | the new ledger covers exactly the surviving ledger names and the listed files |
| Filer.Load | lib/repo/filer.js:21-109 | load fails exactly when some checksum cannot be computed, and then writes nothing; otherwise it writes the new ledger once |
| Filer.LoadCodes | lib/repo/filer.js:21-109 | after load, -1 means the file is gone and 1 means it is new to the ledger |
| Filer.ChangedKeepsStoredChecksum | lib/repo/filer.js:73-82 | a file reported changed keeps its old checksum, which differs from its content's checksum |
| Filer.SecondLoadSettles | lib/repo/filer.js:21-109 | loading twice: the second load cannot fail, drops deleted names, and reports every remaining file unchanged with its checksum |
| Explorer.FileStatus | lib/epm/fs-explorer.js:278-314 | -1 exactly for a missing file; an added file is 1 and hashed at once; same stats is 0; otherwise 2 or 0 by the fresh checksum |
| Explorer.Current | lib/epm/fs-explorer.js:66-87 | the record for a listed file throws exactly when a new file's checksum is falsy; otherwise new stats, the status code and a checksum |
| Explorer.Refreshed | lib/epm/fs-explorer.js:51-148 | the refreshed ledger has exactly one record per listed file |
| Explorer.Vanished | lib/epm/fs-explorer.js:99-113 | the deleted group is exactly the ledger names no longer listed, with their last records |
| Explorer.WithCode | lib/epm/fs-explorer.js:259-261 | the records with one code, unchanged |
| Explorer.Handled | lib/epm/fs-explorer.js:184-239 | the watcher's handler keeps the previous record for -1 and 0 and stores a fresh one for 1 and 2, announcing the matching event |
| Explorer.Put | lib/epm/fs-explorer.js:230-232 | writing one name's record changes no other name |
| Explorer.Records | lib/epm/fs-explorer.js:66-87 | the per-file loop throws exactly when some listed file yields no record; otherwise it yields the refreshed records |
| Explorer.Override | lib/epm/fs-explorer.js:88 | overriding takes every refreshed record and keeps the others |
| Explorer.Untrack | lib/epm/fs-explorer.js:99-113 | unlisted names leave the ledger and are collected with their last records |
| Explorer.RefreshReplaces | lib/epm/fs-explorer.js:88-113 | overriding then untracking leaves exactly the refreshed records |
| Explorer.GroupsPartition | lib/epm/fs-explorer.js:113-134 | the added, changed and unchanged groups split the refreshed ledger into disjoint parts |
| Explorer.SecondReadSettles | lib/epm/fs-explorer.js:51-148 | reading twice: the second read cannot throw and announces only unchanged files, each with its checksum kept |
| Explorer.FsExplorer.constructor | lib/epm/fs-explorer.js:27-41 | a new explorer over a gateway has announced nothing |
| Explorer.FsExplorer.Read | lib/epm/fs-explorer.js:51-148 | a listing error is announced with nothing written; a failing record throws with nothing written; otherwise the ledger is written once and the groups are announced |
| Explorer.FsExplorer.Handle | lib/epm/fs-explorer.js:184-239 | the handler writes the one file's record and announces it |
| Manager.ProcessFile | lib/repo/manager.js:163-191 | an unreadable archive gives an error result naming the file; otherwise the base name, the metadata, its uid and the build defaulting to 1 |
| Manager.DeletedNames | lib/repo/manager.js:31-33 | exactly the ledger names marked -1 |
| Manager.AfterDeleted | lib/repo/manager.js:47-66 | reference definition of the deleted phase: the deleted names and their uids leave the packages, files, tags and metadata, with one tags write when anything was deleted |
| Manager.DeletedUntracked | lib/repo/manager.js:47-66 | each deleted file and its package lose their records, tags and metadata; other files keep theirs |
| Manager.MissingUids | lib/repo/manager.js:69-87 | exactly the packages whose file is not in the ledger |
| Manager.UntrackMissing | lib/repo/manager.js:69-87 | reference definition of the missing phase, corrected (see Findings, lib/repo/manager.js:48): the missing uids leave packages, tags and metadata, with one tags write when any is missing |
| Manager.MissingUntracked | lib/repo/manager.js:69-87 | the intended missing phase keeps exactly the packages whose file is in the ledger, and drops the others' tags and metadata |
| Manager.UntrackMissingAsWritten | lib/repo/manager.js:69-87 | as written the phase throws exactly when tags were not read earlier and some package is missing; otherwise it agrees with the intended phase |
| Manager.MissingWithoutDeletedThrows | lib/repo/manager.js:48 | a ledger with no deleted file and one vanished package makes the code as written throw, where the intended phase drops the package |
| Manager.ToProcess | lib/repo/manager.js:38-45 | the names to process are the ledger names selected by the rule, in ledger order |
| Manager.ToProcessChoice | lib/repo/manager.js:38-45 | while some package's file is still in the ledger only added and changed files are processed; otherwise every file is |
| Manager.Outcomes | lib/repo/manager.js:90-104 | one result per name, in order, each the processing of that file under the root |
| Manager.Stash | lib/repo/manager.js:163-191 | stashing metadata leaves the packages and tags documents alone |
| Manager.StashIgnoresPackages | lib/repo/manager.js:163-191 | stashing metadata does not depend on the packages document |
| Manager.Merge | lib/repo/manager.js:109-121 | reference definition of the merge: each successful result sets `packages[uid]` to its build and file and `files[filename]` to its uid, in order |
| Manager.MergeOne | lib/repo/manager.js:113-116 | reference definition of merging one result: a flagged result changes nothing; otherwise `files[filename]` becomes its uid and `packages[uid]` its stored build and file |
| Manager.MergeStoresPackages | lib/repo/manager.js:109-121 | after the merge, the last successful result for a uid gives its `{build, filename}` record; the uids are the old ones plus the processed ones; a uid no successful result carries keeps its record, so `hasError` results change nothing |
| Manager.MergeStoresFiles | lib/repo/manager.js:109-121 | after the merge, the last successful result for a file gives that file's uid; the files are the old ones plus the processed ones; a file no successful result carries keeps its uid |
| Manager.TouchesSnoc | lib/repo/manager.js:109-121 | appending a result adds exactly its uid and file to those the results carry |
| Manager.FreshTagsKeys | lib/repo/manager.js:124-131 | the new tags document has exactly the uids successfully processed in this pass |
| Manager.MetaOf | lib/repo/manager.js:133-157 | the metadata of the last successful result for the uid (no later successful result has that uid), none exactly when there is none |
| Manager.FreshTags | lib/repo/manager.js:124-131 | reference definition of the new tags document: each successful result's uid maps to the tags of its metadata, in order |
| Manager.Errors | lib/repo/manager.js:140-157 | exactly the results flagged as errors |
| Manager.ReportShape | lib/repo/manager.js:140-157 | the report lists every remaining package with its uid, file and build, with metadata exactly when processed this pass |
| Manager.ReportOf | lib/repo/manager.js:133-157 | reference definition of the report: one entry per remaining package, with metadata from this pass's last result for it, the ledger, and the error results |
| Manager.Refreshed | lib/repo/manager.js:21-161 | reference definition of the documents after a refresh: the deleted phase, the corrected missing phase, the metadata stash, then the merged packages and fresh tags, each written once |
| Manager.DropDeleted | lib/repo/manager.js:47-66 | the deleted-file loop computes the deleted phase |
| Manager.DropMissing | lib/repo/manager.js:69-87 | the missing-file loop computes the intended missing phase |
| Manager.ProcessNames | lib/repo/manager.js:90-104 | the processing loop yields one result per name, in order |
| Manager.StashAll | lib/repo/manager.js:163-191 | the metadata writes of all results, in result order |
| Manager.ProcessAll | lib/repo/manager.js:90-104 | processing yields one result per name and stashes the metadata of the successful ones |
| Manager.MergeAll | lib/repo/manager.js:109-121 | the merge loop computes the merge of the results in order |
| Manager.CollectTags | lib/repo/manager.js:124-131 | the tags loop computes the fresh tags document |
| Manager.Refresh | lib/repo/manager.js:21-161 | given the ledger's names each exactly once, refresh leaves the documents as the deleted phase, the corrected missing phase (tags read first), processing and merging define, and reports on the remaining packages |
| Repo.AsWrittenIgnoresChecksums | lib/repo/index.js:273-287 | as written, only a missing snapshot, a different name count or a vanished name counts as a change |
| Repo.FilesChangeAsWritten | lib/repo/index.js:273-287 | reference definition of `filesChange` as written: no snapshot, a different name count, a vanished name, or a checksum compared with itself |
| Repo.FilesChange | lib/repo/index.js:273-287 | reference definition of `filesChange`, corrected (see Findings, lib/repo/index.js:285): the checksum of each name is compared between the two snapshots |
| Repo.ChecksumChangeMissed | lib/repo/index.js:285 | a file whose checksum changed is a change for the intended test but not for the code as written |
| Repo.NoChangeMeansSameSnapshot | lib/repo/index.js:273-287 | "no change" means a previous snapshot with the same names and the same checksums |
| Repo.ChooseName | lib/repo/index.js:34-47 | the configured name wins when the config folder exists; otherwise the given name, or "main" when it is missing or empty |
| Repo.EpmRepo.constructor | lib/repo/index.js:27-58 | a new repository has its chosen name and path and no cached load |
| Repo.EpmRepo.Resolve | lib/repo/index.js:65-73 | paths resolve under the repository path |
| Repo.EpmRepo.UsesCache | lib/repo/index.js:158-168 | reference definition of the cache test in `load`, with the corrected change test (see Findings, lib/repo/index.js:285): no file changed and every package's file is still in the ledger |
| Repo.EpmRepo.Load | lib/repo/index.js:143-189 | load fails exactly when the filer does, changing nothing; otherwise it answers from cache when the corrected change test finds nothing changed and every package's file remains, and refreshes through the manager otherwise |
| Repo.EpmRepo.Packages | lib/repo/index.js:191-236 | the listing has one entry per loaded package, built from its report |
| Repo.CacheMeansUnchanged | lib/repo/index.js:164-168 | under the corrected change test, the cache answers only when the ledger names the same files with the same checksums and every package's file is among them |
| Epkg.Items | lib/epm/epkg.js:93-106 | one queue item per key, in key order, carrying the event type and the stored checksum |
| Epkg.Untrack | lib/epm/epkg.js:167-209 | reference definition of untracking: a tracked file's package and file entries go, and its metadata too; an untracked file changes nothing |
| Epkg.Register | lib/epm/epkg.js:218-264 | reference definition of registering: a failed read changes nothing; otherwise the read is saved and the file points at its uid |
| Epkg.Saved | lib/epm/epkg.js:237-254 | reference definition of saving a successful read: the package record with the raw build and file, the tags and metadata under its uid, the metadata, tags and packages writes in that order, and the event |
| Epkg.Update | lib/epm/epkg.js:273-313 | reference definition of updating: a failed read changes nothing; otherwise the read is saved and the files index is left as it was |
| Epkg.Dispatch | lib/epm/epkg.js:147-158 | reference definition of handling one item: deleted untracks, added registers, changed updates, unchanged checks |
| Epkg.Check | lib/epm/epkg.js:322-340 | reference definition of `checkFile`: a tracked file changes nothing; an untracked one is registered |
| Epkg.Drain | lib/epm/epkg.js:114-139 | reference definition of the queue loop: each item is read and dispatched in order, then `ready` |
| Epkg.DispatchAppends | lib/epm/epkg.js:147-158 | handling one file appends at most one event, and never `ready` |
| Epkg.DrainEndsReady | lib/epm/epkg.js:114-139 | draining the queue keeps earlier events and ends with exactly one `ready` |
| Epkg.UntrackKeepsConsistent | lib/epm/epkg.js:167-209 | untracking keeps the packages and files indexes in agreement |
| Epkg.RegisterKeepsConsistent | lib/epm/epkg.js:218-264 | registering a uid held by no other file keeps the indexes in agreement |
| Epkg.UntrackKeepsTags | lib/epm/epkg.js:167-209 | untracking drops the package and file entries but leaves the tags document as it was |
| Epkg.UpdateBreaksConsistency | lib/epm/epkg.js:273-313 | a changed file that now holds another uid leaves the files index on the old uid while both uids claim the file |
| Epkg.Worker.constructor | lib/epm/epkg.js:24-50 | a new worker has an empty queue, is idle and has announced nothing |
| Epkg.Worker.Incoming | lib/epm/epkg.js:93-106 | the new items are appended after those already queued |
| Epkg.Worker.UntrackFile | lib/epm/epkg.js:167-209 | the documents and events become those of `Untrack` |
| Epkg.Worker.Save | lib/epm/epkg.js:230-259 | a successful read stores metadata, tags and packages and announces the event |
| Epkg.Worker.RegisterFile | lib/epm/epkg.js:218-264 | the documents and events become those of `Register` for the file's read |
| Epkg.Worker.UpdateFile | lib/epm/epkg.js:273-313 | the documents and events become those of `Update` for the file's read |
| Epkg.Worker.CheckFile | lib/epm/epkg.js:322-340 | an untracked file is registered and a tracked one is left alone |
| Epkg.Worker.ProcessFile | lib/epm/epkg.js:147-158 | the item is dispatched on its event type |
| Epkg.Worker.Process | lib/epm/epkg.js:114-139 | an empty queue announces `ready`; a busy worker does nothing; otherwise the queue is drained in order and ends idle with `ready` |
| Downloader.CompletesIff | lib/epm/downloader.js:57-177 | a download starts with "downloading" and ends with `complete` exactly when the body arrived, its checksum matched and the move worked, otherwise with an error |
| Downloader.CompletedMovesBody | lib/epm/downloader.js:162-177 | a completed download leaves the body at its destination and no temporary file |
| Downloader.MismatchKeepsTemp | lib/epm/downloader.js:135-155 | a checksum mismatch leaves the body in the temporary file and never moves it |
| Downloader.Run | lib/epm/downloader.js:57-177 | reference definition of a download: a failed response removes the temporary file; otherwise the body is saved, checked, and moved when the checksum matches, with the events of each step |
| Downloader.Checked | lib/epm/downloader.js:135-155 | reference definition of `check`: a hash error or a mismatch is an error that leaves the file in place; a match goes on to `move` |
| Downloader.Moved | lib/epm/downloader.js:162-177 | reference definition of `move`: a failed rename is an error with nothing moved; otherwise the temporary file replaces the destination and the download completes |
| Downloader.Download.constructor | lib/epm/downloader.js:30-47 | a new downloader keeps its source, temporary path, destination and checksum |
| Downloader.Download.Download | lib/epm/downloader.js:57-128 | the folder and events end as the full download, check and move define |
| Downloader.Download.Check | lib/epm/downloader.js:135-155 | the folder and events end as the checksum step defines |
| Downloader.Download.Move | lib/epm/downloader.js:162-177 | the folder and events end as the move step defines |
| Puller.Filter | lib/epm/puller.js:163-165 | keeps exactly the members that pass, in order |
| Puller.ByUid | lib/epm/puller.js:161 | the remote index has exactly the remote uids as keys, each mapped to a package with that uid |
| Puller.Select | lib/epm/puller.js:163-165 | the filtering loop computes the filter |
| Puller.Index | lib/epm/puller.js:159-161 | the remote uids in order and the index by uid |
| Puller.ByUidKeepsLast | lib/epm/puller.js:161 | when a uid appears twice, the index holds its last entry |
| Puller.Analize | lib/epm/puller.js:157-206 | the plan is the news and olds of the analysis, and the updates are the shared uids whose local build is older |
| Puller.Analysis | lib/epm/puller.js:157-206 | reference definition of what `analize` returns: news are the remote uids not held locally and olds all the held ones, each with the remote checksum and build |
| Puller.Announced | lib/epm/puller.js:182-189 | one new-package record per uid new to the repository, in order |
| Puller.Kept | lib/epm/puller.js:191-199 | one old-package record per shared uid, with the local file name |
| Puller.AnalysisSides | lib/epm/puller.js:157-206 | news are exactly the remote uids not tracked locally and olds exactly the tracked ones, each with the remote checksum and build |
| Puller.UpdatesAmongOlds | lib/epm/puller.js:165-178 | every update is a shared uid |
| Puller.CurrentPackageRedownloaded | lib/epm/puller.js:191-199 | a package at the same build is in no update but still in the olds, so it is downloaded again |
| Puller.Clones | lib/epm/puller.js:78-86 | one job per new package, in order |
| Puller.Refreshes | lib/epm/puller.js:88-96 | one job per old package, in order |
| Puller.Jobs | lib/epm/puller.js:76-96 | one job per new and per old package |
| Puller.CloneJob | lib/epm/puller.js:78-85 | reference definition of a new package's job: from `url?file=uid`, through `tmp/uid.down`, to `uid` plus the remote extension under the root |
| Puller.UpdateJob | lib/epm/puller.js:88-95 | reference definition of a shared package's job: the same source and temporary file, to the local file name under the root |
| Puller.TempPath | lib/epm/puller.js:81 | a job's temporary file is named `<uid>.down` |
| Puller.ClonePaths | lib/epm/puller.js:80-83 | a new package is saved under its uid with the remote file's extension, via `<uid>.down` |
| Puller.ClonePathsBare | lib/epm/puller.js:80-83 | the same for a manifest file name with no directory |
| Puller.DrainShape | lib/epm/puller.js:115-153 | the jobs still queued are a suffix of the queue, and some remain only when a download did not complete |
| Puller.Drain | lib/epm/puller.js:115-153 | reference definition of the queue: jobs run in order until one does not complete, which leaves the worker marked busy |
| Puller.EpmPuller.constructor | lib/epm/puller.js:29-49 | a new puller has an empty queue, is idle and has announced nothing |
| Puller.EpmPuller.ProcessQueue | lib/epm/puller.js:115-153 | an empty queue announces completion; a busy puller does nothing; otherwise jobs run in order until one does not complete |
| Puller.EpmPuller.Retrieve | lib/epm/puller.js:59-107 | the jobs of the analysis are appended to the queue and the queue is processed |
| Puller.EpmPuller.Enqueue | lib/epm/puller.js:76-96 | the queue grows by the plan's jobs |
| Puller.EpmPuller.EnqueueNews | lib/epm/puller.js:78-86 | the queue grows by the new packages' jobs |
| Puller.EpmPuller.EnqueueOlds | lib/epm/puller.js:88-96 | the queue grows by the old packages' jobs |
| RepoPuller.CheckRemote | lib/repo/puller.js:31-54 | an unknown remote and a remote never fetched give their own errors; otherwise its packages by uid |
| RepoPuller.ByUid | lib/repo/puller.js:91-94 | the local metadata indexed by uid |
| RepoPuller.Index | lib/repo/puller.js:91-94 | the indexing loop computes that index |
| RepoPuller.PlanPull | lib/repo/puller.js:78-131 | the loops compute the plan |
| RepoPuller.PlanSides | lib/repo/puller.js:98-113 | clones are exactly the remote uids not held locally; updates exactly the held ones whose local build is older; the two are disjoint |
| RepoPuller.Planned | lib/repo/puller.js:98-113 | reference definition of the plan: clones are the remote uids not held locally, updates the listed held uids whose local build is older |
| RepoPuller.UnparsableNeverUpdated | lib/repo/puller.js:109 | a local package with an unparsable build is never updated |
| RepoPuller.Transfers | lib/repo/puller.js:156-174 | one transfer per uid, in order |
| RepoPuller.TransferOf | lib/repo/puller.js:157-173 | reference definition of one transfer: from `url?file=uid`, into `tmp/uid.down`, later renamed over `uid.zip` under the root |
| RepoPuller.Objs | lib/repo/puller.js:156-174 | one transfer per clone and per update |
| RepoPuller.UpdatesReplaceZip | lib/repo/puller.js:165-174 | an update replaces `<uid>.zip` under the repository root |
| RepoPuller.Push | lib/repo/puller.js:156-174 | the push loop computes the transfers |
| RepoPuller.DownFile | lib/repo/puller.js:197-258 | a failed fetch returns its error and leaves no temporary file; otherwise the body is at the temporary path; nothing else changes |
| RepoPuller.SeriesOutcome | lib/repo/puller.js:176-191 | the series succeeds exactly when every fetch does; otherwise it reports the first failure |
| RepoPuller.Series | lib/repo/puller.js:176-191 | reference definition of the download series: each transfer in turn, stopping at the first failed fetch |
| RepoPuller.DownAll | lib/repo/puller.js:176-191 | the download loop computes the series |
| RepoPuller.Rename | lib/repo/puller.js:265-270 | a rename fails exactly when the source is missing; otherwise the content moves |
| RepoPuller.SyncAsWrittenCallbacks | lib/repo/puller.js:260-275 | as written the callback is called once per failed rename, then once more with no error |
| RepoPuller.SyncedAsWritten | lib/repo/puller.js:260-275 | reference definition of sync as written: every rename is tried, one callback per failed rename, then one with success |
| RepoPuller.Synced | lib/repo/puller.js:260-275 | reference definition of sync, corrected (see Findings, lib/repo/puller.js:262-274): renames in order, stopping at the first failure |
| RepoPuller.SyncCallsBackTwice | lib/repo/puller.js:260-275 | one failed rename calls the callback with the error and then again with success |
| RepoPuller.SyncMatchesFirstCallback | lib/repo/puller.js:260-275 | the corrected sync fails exactly when the first callback as written carries an error, with the same error |
| RepoPuller.Sync | lib/repo/puller.js:260-275 | the rename loop stops at the first failure; corrected (see Findings, lib/repo/puller.js:262-274) |
| RepoPuller.PullNeverDownloads | lib/repo/puller.js:19-75 | as written a fetched pull throws; the intended pull reports unknown and unfetched remotes with their errors |
| RepoPuller.PullAsWritten | lib/repo/puller.js:19-75 | reference definition of pull as written: a fetch error reaches the callback, and every successful fetch throws |
| RepoPuller.Pulled | lib/repo/puller.js:19-75 | reference definition of pull, corrected (see Findings, lib/repo/puller.js:31): a fetch error, else check, plan, download in series, then sync |
| RepoPuller.Pull | lib/repo/puller.js:19-75 | the pull leaves the folder and result that checking, planning, downloading and syncing define; corrected (see Findings, lib/repo/puller.js:31) |
| Remotes.AddTo | lib/epm/remote.js:62-92 | adding fails exactly when the name exists; otherwise the list gains exactly that remote |
| Remotes.RemoveFrom | lib/epm/remote.js:100-130 | removing fails exactly when the name is missing; otherwise only that remote goes |
| Remotes.Lookup | lib/epm/remote.js:138-156 | lookup fails exactly when the name is missing; otherwise its name and url |
| Remotes.LookupAfterAdd | lib/epm/remote.js:62-156 | a remote just added is found, and adding it again fails |
| Remotes.RemoveUndoesAdd | lib/epm/remote.js:62-130 | removing a remote just added gives the original list |
| Remotes.AddUndoesRemove | lib/epm/remote.js:62-130 | adding back a removed remote gives the original list |
| Remotes.EpmRemote.constructor | lib/epm/remote.js:22-35 | a new remote manager has announced nothing |
| Remotes.EpmRemote.List | lib/epm/remote.js:46-54 | the stored remotes |
| Remotes.EpmRemote.Add | lib/epm/remote.js:62-92 | a failed add changes nothing; a successful one writes the remotes once and announces the remote |
| Remotes.EpmRemote.RemoveAsWritten | lib/epm/remote.js:100-130 | as written, removing a missing name reports it, and removing an existing one throws with nothing changed |
| Remotes.EpmRemote.Remove | lib/epm/remote.js:100-130 | a failed remove changes nothing; a successful one drops the remote and its manifest, writes once and announces it; corrected (see Findings, lib/epm/remote.js:115) |
| Remotes.EpmRemote.Get | lib/epm/remote.js:138-156 | found exactly when the name is stored, with its url |
| Remotes.EpmRemote.GetSync | lib/epm/remote.js:164-179 | throws exactly when the name is missing; otherwise agrees with `Get` |
| Remotes.EpmRemote.ExistsSync | lib/epm/remote.js:187-193 | a name exists exactly when `Get` finds it |
| Remotes.List | lib/repo/remote.js:9-13 | the stored remotes |
| Remotes.Add | lib/repo/remote.js:15-30 | an existing name throws with nothing changed; otherwise the remote is added and the list written once |
| Remotes.Remove | lib/repo/remote.js:32-51 | a missing name throws with nothing changed; otherwise the remote and its manifest go and the list is written once |

## Left out

- File-system I/O, `fs.watch`, streams and the HTTP client are not modelled. A directory is a map, a download body is the result of an abstract `fetch`, and the checksum library is an abstract `hash`.
- Asynchrony is not modelled. Callbacks and event handlers run in the order the code chains them, with no interleaving between concurrent operations.
- Progress events, the speedometer and `parseTime` are not modelled, because they depend on a clock.
- The engines' `readMetadata` and archive unpacking are not modelled. The reader is an oracle parameter returning the parsed metadata or nothing.
- The `asset` methods of the engines are not modelled, because they stream files into HTTP responses; `resolveAsset` is modelled.
- `getFiles` with the catch-all filter is not modelled beyond an abstract `accept` predicate. Its ignored listing error in the filer is not modelled either.
- JavaScript's object key order is a parameter (`order`, `lkeys`, `rorder`), not the engine's insertion order. The refresh and `load` require it to list each ledger name exactly once.
- Tags.All: the result lists the buckets in the order they were first created. `Object.keys` at `lib/epm/tags.js:55` lists integer-like keys first, in ascending order, and the model does not capture that.
- Paths.Basename: a trailing `/` is not stripped, so `a/b/` gives the empty name where Node's `path.basename` gives `b`. Every caller in the core passes a file name.
- Repo.EpmRepo.Packages: the source sets the on-demand `meta` on the cached report objects themselves (`lib/repo/index.js:205-223`), so later loads from the cache see it. The model builds a fresh listing and does not capture that aliasing.
- JavaScript objects are modelled as maps with no prototype. Keys such as `constructor` or `__proto__` find an inherited value in the source, and the model does not capture that. The tag lexer then throws a TypeError at `lib/epm/tags-lexer.js:57-62`, where `Tags.Lex` makes a bucket. Adding a remote with one of those names reports that it exists at `lib/epm/remote.js:67-69`, where `Remotes.AddTo` adds it.
- Repo.EpmRepo.Load uses the corrected change test of the index.js:285 finding. As written, a ledger with the same names but a changed checksum is answered from the cached `lastPkgs` and the manager is not run. `Repo.AsWrittenIgnoresChecksums` and `Repo.ChecksumChangeMissed` state that behaviour, but `Load` does not compose it.
- Repo.CacheMeansUnchanged is stated for the corrected change test. With the test as written, the cache also answers after a checksum change, as long as the names are the same and every package's file remains.
- Manager.Refresh uses the corrected missing-file phase of the manager.js:48 finding. As written, a ledger with no deleted file and a vanished package throws a TypeError, where the model drops the package. `Manager.UntrackMissingAsWritten` states when that throw happens, but `Refresh` does not compose it.
- `path.join` is modelled only for segments that need no normalisation: no `..`, `.` or repeated slashes.
- `toLowerCase` is modelled for ASCII and the Latin-1 capitals only. `parseInt` is read in base 10, without the `0x` prefix.
- The file gateway's in-memory cache is not modelled. Every `getSync` returns the stored document.
- `repo.metadata` is called by the repository puller but not defined in `lib/repo/index.js`, so the list of local metadata is a parameter of `RepoPuller.Pull`.
- RepoPuller.Pull: the error passed to the step after `__pull` is ignored in the source; the model passes the plan on.
- RepoPuller.Rename: only a missing source makes a rename fail, and the error text is the source path.
- Puller.EpmPuller.Retrieve: the try/catch around the analysis is not modelled, because no modelled step throws there. The remote fetch is not modelled: its result is the `remote` parameter.
- Puller.EpmPuller.ProcessQueue: the error handler's console logging is not modelled.
- Epkg: `watch`, the explorer wiring and the `error` event of the reader are not modelled; a reader error changes nothing, as in the source.
- PkgReader.Read: the reader's error is a value, not an `error` event.
- PkgReader.Read: `lib/epm/pkg-reader.js:40-46` chains `.fail(...).done(...)` on what `readMetadata` returns. Both in-tree engines take a callback and return undefined (`lib/sep.js:34-50`, `plugins/pad/index.js:35-52`). With either engine, `read` therefore throws a TypeError, and the `Epkg.Worker` register, update and check paths never complete. The model's `read` oracle assumes an engine that returns a promise.
- Plugins.Registry.Register: the failure log line is not modelled.
- Manager.ProcessAll: every file is processed before any metadata is written; as the reader never sees the documents, the resulting documents are the same as with the source's interleaving.
- The command-line front end, the servers and `lib/epm.js` are not part of this model.

## Findings

| source | as written | input that shows it | evidently intended | confidence | as-written member | corrected member |
|---|---|---|---|---|---|---|
| lib/repo/index.js:285 | the checksum test compares `lastet[file].checksum` with itself, so a content change with the same names is never seen | two snapshots of `a.zip` with checksums "x" and "y" | compare the previous checksum with the current one | not executed | Repo.ChecksumChangeMissed | Repo.NoChangeMeansSameSnapshot |
| lib/repo/manager.js:48 | `tags` is read only inside the deleted-files branch, yet the missing-files branch writes through it | a ledger with no deleted file and a package whose file has gone | read the tags document before either phase | not executed | Manager.MissingWithoutDeletedThrows | Manager.MissingUntracked |
| lib/repo/puller.js:262-274 | the callback is called for every failed rename and then once more with success | one transfer whose temporary file is missing | call back once, with the first error | not executed | RepoPuller.SyncCallsBackTwice | RepoPuller.SyncMatchesFirstCallback |
| lib/epm/remote.js:115 | removing an existing remote reads `ops.name`, and `ops` is not defined there | removing any existing remote | use the `name` argument | not executed | Remotes.EpmRemote.RemoveAsWritten | Remotes.EpmRemote.Remove |
| lib/repo/puller.js:31 | the second waterfall step takes one parameter, so the fetched data arrives as `fn` and calling `fn` throws | any pull whose fetch succeeds | a step taking the data and the callback | not executed | RepoPuller.PullNeverDownloads | RepoPuller.Pull |
