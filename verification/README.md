# Keppel in Dafny

Keppel runs one `keppel-registry` process per account, stores its files through the "swift-plus"
storage driver, and issues the tokens with which clients use these registries. This project models
three parts of it and proves what they are for:

* **The swift-plus storage driver** (`pkg/registry/swift-plus`). Clients see a tree of paths and the
  bytes of each file. Behind it are a table of files and directories, a table of segments, and a flat
  Swift container holding blobs and manifests.
* **The local-processes orchestrator** (`pkg/drivers/local_processes`). One select loop, two
  goroutines per registry process, and a WaitGroup.
* **Scopes, tokens and accounts** (`pkg/auth`, `pkg/api/auth`, `pkg/api/keppel`). The scope language,
  what a token permits, and the creation of accounts by concurrent requests.

## How it is built

*Storage driver.* `FileSystem` is the specification: nodes, the bytes collected by open writers, and
the bytes an append session would resume with. `World` has the tables, the container and the open
writers, the invariants (`Tree`, `Isolated`, `RowIntact`, `WriterIntact`, together `Good`), and the
effect of each call. `Refinement` and `Steps` prove that every supported call keeps the invariants and
acts on the visible file system as specified; `Runs` extends this to all runs, and `Reading` says what
reads and Stat answer after each call. `PlusDriver`, `Swift`
and `Writers` are the classes with the actual methods, statement by statement. Each of their database
statements and Swift calls may fail: the fields `fuse` count down to the failing one, and the contracts
hold for every value. A call that is reported to have failed may have taken effect all the same, when
only its reply was lost. `Deletion` and `Safety` say what holds when a call stops half-way, `Damage` how
the store works on after that and is mended, `Repeating` what repeating the call does, and `Leaks` which
objects are left behind; `Buffering`, `Sessions` and `Uploads` follow the bytes of an upload through both
writers; `Exactness` says for calls outside of the supported uses exactly when they do harm;
`ObjectNames` connects structured object names with their spelling.

*Orchestrator.* `Processes` is the step system: every statement at which a goroutine can be held up is
an event of its own, in particular the check of the context and the sending of the exit message.
`Orchestration` has the invariants over all interleavings, `Clients` what clients receive, `Restarts`
what follows when a process exits on its own, `Shutdown` the analysis of `WaitGroup.Wait`, and
`LocalProcesses` the driver as objects whose methods take these steps.

*Scopes, tokens, accounts.* `Strings` and `Scopes` have the language, `Tokens` the path from a scope to
a token, `Accounts` the step system of the PUT handlers and the handler itself.

## What came out of it

* A process that exits shortly before the shutdown can keep `Run` from ever returning: its observer
  has passed the check of the context (process.go:170) and then waits for a receiver that is gone
  (`Shutdown.ShutdownCanHang`). This is the only way in which shutdown can fail
  (`Shutdown.ShutdownExactly`).
* A failed start does not make `Run` return (`Orchestration.FailedStartGoesOn`). It cancels the inner
  context, upon which the processes of all accounts are interrupted, and no exit message follows. Every
  recorded port stays recorded for ever, so that requests for all accounts, not only for the one whose
  start has failed, are sent to ports at which nobody listens (`Shutdown.FailedStartIsForever`).
* An append session on a file that was stored by `PutContent` starts with nothing, so that its commit
  discards the file's bytes (`Exactness.AppendAfterPut`). `Exactness.AppendExactly` says when a session
  does continue the file.
* Cancelling or dropping a writer leaves objects in Swift if something is stored at its location and its
  path has no row with that location, as after the first segment of a new upload, recorded or not. Such
  objects stay for ever. No other supported call that succeeds leaves any (`Leaks.LeakExactly`,
  `Leaks.LostForeverRun`).
* Between its row and its upload a put leaves a file of full size that is reported as not found when it is
  read (`Reading.StoppedBeforeUpload`). Wherever a put stops, readers get the old content, the new content,
  or an error, and wherever a commit stops, they get what they got before or the new content; there is
  never a mixture (`Reading.PutNeverTorn`, `Reading.CommitNeverTorn`).
* Cancelling a writer deletes its file also when the writer has committed before
  (`Writers.BufferedWriter.Cancel`).
* A put or commit that fails half-way does damage at its own path only. Calls that have nothing to do
  with the path work as specified, and repeating the call mends the damage (`Damage.DamageStays`,
  `Damage.PutHeals`, `Damage.CommitHeals`). But the path can be missing a directory above it, and then a
  delete of a directory further up, a new writer there, or a move onto it leaves the path behind
  (`Damage.DeleteAboveDamage`).
* A delete that fails half-way can simply be repeated. A move cannot: once its row was renamed, a
  repetition finds no source and leaves a target with a missing directory unreachable, or, if the target
  is below the source, finds a directory there and moves that over the file
  (`Repeating.MoveRepeated`).
* A file's row is written before its directories, from the deepest one upwards. If that is interrupted,
  the file may be unreachable (`Exactness.InterruptedExactly`).
* The comment on `maxInlineSizeBytes` (core.go:35-36) says that small files are stored in the database
  in addition to Swift. The code stores them in the database only, and so does the model.
* The error for long repository names says "less than 256 characters", but the code accepts 256. The
  branch for an empty list of actions (scope.go:79-81) cannot be taken, since splitting never yields an
  empty list.
* At token.go:66-67 a nil `*RegistryV2Error` is assigned to a variable of type `error`, which then
  compares as different from nil. The model starts after authentication and takes nil for success.

## Model

| member | source | states |
|---|---|---|
| Runs.StepRefines | pkg/registry/swift-plus/core.go:340-798 | one supported call, from any good state: all invariants hold again, and what clients see has changed as the specification says |
| Runs.RunRefines | pkg/registry/swift-plus/core.go:340-798 | the same over every run of puts, deletes, file moves and writer sessions by any number of writers, whichever storage form holds the bytes |
| Runs.NewIsGood | pkg/registry/swift-plus/core.go:42-59 | the empty tables and container satisfy the invariants and stand for the empty file system |
| Runs.ResumedUpload | pkg/registry/swift-plus/core.go:627-752 | any number of sessions on one path, mixed with calls elsewhere: the content is the concatenation of all bytes written, and segment numbers are 1, 2, 3, ... and equal the rows read back |
| Runs.InvisibleUntilCommit | pkg/registry/swift-plus/core.go:627-723 | until a commit nothing that append sessions do changes what readers see at a path, with any calls elsewhere in between |
| Runs.CommitPublishesRows | pkg/registry/swift-plus/core.go:725-752 | the manifest written by a commit lists exactly the recorded segments, in order, without a gap |
| Reading.ReadersSee | pkg/registry/swift-plus/core.go:340-798 | what a read of any path gives after any supported call: the bytes put or committed there, the bytes moved there, not found in a deleted tree, and otherwise what it gave before |
| Reading.StatsSee | pkg/registry/swift-plus/core.go:340-798 | the same for Stat: sizes of files, directories above what was written, and nothing in a deleted tree |
| Reading.LastWriteIsRead | pkg/registry/swift-plus/core.go:340-752 | what was put or committed is what is read, after any number of other calls that do not concern the path or publish nothing |
| Reading.IntactAnswer | pkg/registry/swift-plus/core.go:340-471 | for an intact row both ways to read and Stat agree with the file system, whatever the storage form and offset |
| Reading.StoppedBeforeUpload | pkg/registry/swift-plus/core.go:396-409 | a put that stops between row and upload: more than 256 bytes are not found when read although Stat has their size; smaller contents are readable already |
| Reading.PutNeverTorn | pkg/registry/swift-plus/core.go:367-410 | wherever a put stops, a read gives the old content, the new content, not found or a failure, from any state and however often |
| Reading.CommitNeverTorn | pkg/registry/swift-plus/core.go:725-752 | wherever a commit stops, a read gives what it gave before or all bytes of the writer |
| Steps.PutRefines | pkg/registry/swift-plus/core.go:367-410 | a put replaces the content, creates the missing directories, changes nothing else, and what an append would resume with is gone |
| Steps.DeleteRefines | pkg/registry/swift-plus/core.go:534-588 | a delete removes exactly the paths at and below the given one |
| Steps.MoveRefines | pkg/registry/swift-plus/core.go:499-531 | a file move: the target has the old content, the old target tree is gone, missing directories are there, every other path is unchanged |
| Steps.OpenRefines | pkg/registry/swift-plus/core.go:627-668 | a writer starts empty over a deleted path, or with exactly the bytes that the recorded segments hold |
| Steps.ExtendRefines | pkg/registry/swift-plus/core.go:670-696 | a segment adds its bytes to the writer and to nothing that readers see |
| Steps.CommitRefines | pkg/registry/swift-plus/core.go:725-752 | a commit makes the collected bytes the content of the file and creates the missing directories |
| Steps.CancelRefines | pkg/registry/swift-plus/core.go:715-723 | a cancel removes the path and the writer, and nothing else |
| Steps.UnrecordedInvisible | pkg/registry/swift-plus/core.go:683-695 | a segment that was uploaded but could not be recorded is invisible, and all invariants still hold |
| Leaks.LeakExactly | pkg/registry/swift-plus/core.go:340-752 | from any good state without unreferenced objects, recorded or not: a supported call leaves one behind exactly if it ends a writer uncommitted while something is stored at its location and its path has no row with that location |
| Leaks.RunLeaksExactly | pkg/registry/swift-plus/core.go:340-752 | over a whole run: nothing is left behind exactly if every writer that is cancelled or dropped ends cleanly in this sense |
| Leaks.EndExactly | pkg/registry/swift-plus/core.go:715-723 | for cancelling and for dropping a writer: an unreferenced object remains exactly without a clean end |
| Leaks.LostForeverRun | pkg/registry/swift-plus/core.go:340-752 | an object that nothing refers to is neither referred to again nor deleted by any run |
| Safety.DeletingIsSafe | pkg/registry/swift-plus/core.go:547-588 | wherever a deletion stops, locations are isolated, nothing leaks, and rows outside of the tree keep their objects |
| Deletion.ShrunkKeeps | pkg/registry/swift-plus/core.go:547-588 | also after a failed deletion every path outside of the tree has its content and what it would resume with |
| Safety.UntouchedKept | pkg/registry/swift-plus/core.go:367-410 | a path that put or move leaves untouched keeps its content, also if the call fails |
| Safety.DamageTreeBelow | pkg/registry/swift-plus/core.go:547-580 | under damage at one path, every row below a path that has nothing to do with it hangs below a directory row |
| Damage.GoodIsGoodExcept | pkg/registry/swift-plus/core.go:367-410 | where all is well, all is well except at any given path that can hold a file |
| Damage.ElsewhereIntact | pkg/registry/swift-plus/core.go:340-364 | under damage at one path every other row and its content, and every open writer, are intact |
| Damage.DamagedView | pkg/registry/swift-plus/core.go:244-281 | what clients see under damage: the healed file system, but for the path itself and missing directories above it |
| Damage.PutHeals | pkg/registry/swift-plus/core.go:367-410 | however often a put at the path has failed: a successful one makes all well again and acts as specified |
| Damage.CommitHeals | pkg/registry/swift-plus/core.go:725-752 | a commit that has failed can be repeated and then acts as specified |
| Damage.DamageStays | pkg/registry/swift-plus/core.go:340-752 | a supported call that has nothing to do with the path neither spreads nor touches the damage, and acts as specified on everything else |
| Damage.DamageStaysRun | pkg/registry/swift-plus/core.go:340-752 | the same over any run of such calls |
| Damage.DamageHeals | pkg/registry/swift-plus/core.go:340-752 | a call that has failed, any number of other calls, and a put at the path: clients see what they would see had the failed call never been made |
| Damage.DeleteAboveKeeps | pkg/registry/swift-plus/core.go:547-580 | deleting at or above the damaged path, by whichever call, does no further damage |
| Damage.DeleteAboveExactly | pkg/registry/swift-plus/core.go:547-580 | such a deletion takes a row along exactly if the directories in between, as far as they lie above the damaged path, are there |
| Damage.DeleteAboveDamage | pkg/registry/swift-plus/core.go:547-580 | in particular the damaged path itself is left behind exactly if a directory in between is missing |
| Repeating.DeleteRepeated | pkg/registry/swift-plus/core.go:534-580 | wherever a deletion has stopped, repeating it is as good as a success at the first attempt |
| Repeating.MoveRepeated | pkg/registry/swift-plus/core.go:499-531 | wherever a move has stopped, repeating it is as good as a success at the first attempt exactly if the source is still the file it was, or is gone with the target reachable already |
| Deletion.PartlyStep | pkg/registry/swift-plus/core.go:565-574 | deleting the next child from a partly deleted directory takes along what hangs from one more child, for every table |
| Deletion.PartlyDone | pkg/registry/swift-plus/core.go:554-580 | when all visited children are done and the row itself goes, exactly what hangs from the path is gone, with the objects of its locations |
| Deletion.HangsExactly | pkg/registry/swift-plus/core.go:554-580 | from a path hang exactly the path itself and, if it is a directory, what hangs from its children |
| Deletion.DeleteExactly | pkg/registry/swift-plus/core.go:547-580 | a successful deletion takes along everything below the path exactly if every row down there hangs below a directory row |
| Deletion.DeletingRow | pkg/registry/swift-plus/core.go:577-579 | a row may be deleted once its objects are gone and nothing hangs below it: tree, isolation and absence of leaks are kept |
| PlusDriver.ChildBelow | pkg/registry/swift-plus/core.go:547-580 | the recursion ends: strictly below a child are fewer rows than strictly below its parent |
| PlusDriver.PlusDriver.constructor | pkg/registry/swift-plus/core.go:98-120 | a new driver has empty tables |
| PlusDriver.PlusDriver.MkdirAll | pkg/registry/swift-plus/core.go:263-281 | adds exactly the missing directories above and changes no row; interrupted, it has added exactly those from some depth downwards |
| PlusDriver.PlusDriver.WriteFileInfo | pkg/registry/swift-plus/core.go:244-261 | writes the row and the directories above it; interrupted, it has done nothing, or has written the row and exactly the directories from some depth downwards |
| PlusDriver.PlusDriver.ReadSegmentInfo | pkg/registry/swift-plus/core.go:308-330 | returns the segments of the location in ascending order of their numbers |
| PlusDriver.PlusDriver.InsertSegment | pkg/registry/swift-plus/core.go:691-694 | records one row; the primary key does not admit a number twice; a reported failure may have recorded it |
| PlusDriver.PlusDriver.GetContent | pkg/registry/swift-plus/core.go:340-364 | for an intact row exactly the bytes that the specification has for a file, not found for directories and absent paths; not found, too, for a row whose object is missing |
| PlusDriver.PlusDriver.Reader | pkg/registry/swift-plus/core.go:413-443 | the same bytes from the offset on, for every offset and storage form; not found for a row whose object is missing, unless the offset is behind the end |
| PlusDriver.PlusDriver.Stat | pkg/registry/swift-plus/core.go:455-471 | size and kind of every path; the root always counts as a directory |
| PlusDriver.PlusDriver.List | pkg/registry/swift-plus/core.go:474-496 | the paths directly below, each once |
| PlusDriver.PlusDriver.DeleteBlobs | pkg/registry/swift-plus/core.go:583-588 | drops the objects of the row's location, all of them or, on failure, some, and no others |
| PlusDriver.PlusDriver.DeleteDownwards | pkg/registry/swift-plus/core.go:547-580 | terminates; for every table it removes exactly the rows that hang from the path by way of directory rows and exactly the objects of their locations; wherever it stops, tree, isolation and absence of leaks are kept |
| PlusDriver.PlusDriver.DeleteChildren | pkg/registry/swift-plus/core.go:554-575 | the loop over the children, one tree after the other |
| PlusDriver.PlusDriver.Delete | pkg/registry/swift-plus/core.go:534-544 | as DeleteDownwards for every table, and success for an absent path |
| PlusDriver.PlusDriver.PutContent | pkg/registry/swift-plus/core.go:367-410 | does the specified put, also over damage at the path; it stops with some of the old objects gone, with its row and directories from some depth downwards, or with the upload done; wherever it stops, nothing leaks, all other paths are untouched, and there is no damage but at the path |
| PlusDriver.PlusDriver.RenameRow | pkg/registry/swift-plus/core.go:520-530 | the row carries over to the target and the directories above it are created; interrupted, those from some depth downwards |
| PlusDriver.PlusDriver.Move | pkg/registry/swift-plus/core.go:499-531 | does the specified move; wherever it stops, nothing leaks and all paths but source and target tree are untouched; it stops in the deletion of the target, or behind that with the row renamed and the directories from some depth downwards created |
| Reachability.TreeIsReachable | pkg/registry/swift-plus/core.go:474-496 | the tree invariant holds exactly if every row is found from the root by repeated listing of directories |
| Exactness.WriteRowExactly | pkg/registry/swift-plus/core.go:244-281 | writing a file row keeps the tree exactly if no rows hang below the path and only directories are above it |
| Exactness.InterruptedExactly | pkg/registry/swift-plus/core.go:244-281 | the table that an interrupted WriteFileInfo leaves is a tree exactly if the next directory up was there before, or there is none |
| Exactness.MoveExactly | pkg/registry/swift-plus/core.go:499-531 | the target receives the content exactly if the source is not at or below it; otherwise both are lost |
| Exactness.MovedTable | pkg/registry/swift-plus/core.go:499-531 | the table after a move of any row, on any table: which rows are there and what they say, also when the source goes away with the target |
| Exactness.MoveDirExactly | pkg/registry/swift-plus/core.go:520-530 | moving a directory keeps the tree exactly if nothing hangs below it or it moves below itself |
| Exactness.AppendExactly | pkg/registry/swift-plus/core.go:643-659 | an append session continues the file exactly if: inline, it is empty; as a manifest, the recorded segments add up to its size; as a blob, the segments left by unfinished sessions hold its bytes |
| Exactness.AppendAfterPut | pkg/registry/swift-plus/core.go:643-659 | after a put an append session starts with nothing |
| Storage.SegmentRowsExact | pkg/registry/swift-plus/core.go:308-330 | numbered segments are what is read back exactly if the rows of the location are theirs |
| Storage.SegmentRowsAppend | pkg/registry/swift-plus/core.go:670-694 | recording the next number extends what is read back by that segment |
| ObjectNames.PrefixExact | pkg/registry/swift-plus/core.go:583-588 | the prefix of a location followed by a slash hits an object exactly if it belongs to that location |
| ObjectNames.SpelledInjective | pkg/registry/swift-plus/core.go:289-306 | segment and content objects never share a name, for padded numbers of any length |
| ObjectNames.NamesSpelledOut | pkg/registry/swift-plus/core.go:289-306 | names are prefix, location, and the word content or the number, in sixteen digits as long as these are enough |
| ObjectNames.LookupSpelled | pkg/registry/swift-plus/swift.go:156-169 | looking up a spelled name finds exactly the object meant |
| ObjectNames.UploadSpelled | pkg/registry/swift-plus/swift.go:171-181 | uploading under a spelled name replaces exactly the object meant |
| ObjectNames.DeleteAllSpelled | pkg/registry/swift-plus/swift.go:209-222 | deleting by prefix in the spelled container drops exactly one location |
| Swift.FromOffset | pkg/registry/swift-plus/swift.go:156-169 | open-ended ranges: the bytes from the offset on, none at and behind the end (sections 2.1 and 4.4 of RFC 7233) |
| Swift.SwiftInterface.Reader | pkg/registry/swift-plus/swift.go:156-169 | a readable object's bytes from the offset on; not found and failure told apart |
| Swift.SwiftInterface.Write | pkg/registry/swift-plus/swift.go:171-181 | stores the blob, or nothing; a reported failure may have stored it |
| Swift.SwiftInterface.WriteSLO | pkg/registry/swift-plus/swift.go:183-207 | stores the manifest only if every segment is there with its size; a reported failure may have stored it |
| Swift.SwiftInterface.DeleteAll | pkg/registry/swift-plus/swift.go:209-222 | drops a location; on failure any part of it, and never anything else |
| Buffering.BufferConserves | pkg/registry/swift-plus/core.go:756-798 | pieces passed on followed by the buffer are all bytes written; no piece is empty; only the final one may be shorter than the chunk size |
| Buffering.WriteThroughExactly | pkg/registry/swift-plus/core.go:756-770 | one write passes on at most two pieces: the filled-up buffer, and a rest that is larger than the buffer as a whole |
| Sessions.PiecesCollected | pkg/registry/swift-plus/core.go:670-696 | uploaded pieces are collected in order, unseen by readers |
| Sessions.SegmentKeeps | pkg/registry/swift-plus/core.go:670-696 | however the attempt to add a segment ends, the writer can go on, and no path that was readable has changed |
| Sessions.SessionPublishes | pkg/registry/swift-plus/core.go:756-798 | any writes, then a commit: the file holds what was resumed followed by all bytes written, and until then nothing was visible |
| Sessions.SizeCounts | pkg/registry/swift-plus/core.go:780-782 | at any time the size reported is what was resumed plus what was written, flushed or not |
| Uploads.Upload | pkg/registry/swift-plus/core.go:446-452 | a whole upload through the methods of driver and writers ends with the resumed bytes and all writes in the file, for every chunk size and any portions |
| Writers.PlusWriter.constructor | pkg/registry/swift-plus/core.go:661-668 | a new writer is neither cancelled nor committed |
| Writers.PlusWriter.Write | pkg/registry/swift-plus/core.go:670-696 | if the writer itself is intact: uploads and records the next segment, or reports a failure with nothing, the upload, or both done; readers see no difference in any case |
| Writers.PlusWriter.Record | pkg/registry/swift-plus/core.go:690-694 | the row of a segment is in the table, or the failure is reported |
| Writers.PlusWriter.Size | pkg/registry/swift-plus/core.go:698-703 | the sum of the segment sizes |
| Writers.PlusWriter.Commit | pkg/registry/swift-plus/core.go:725-752 | does the specified commit, once, also over damage at the path; wherever it stops, nothing leaks, there is no damage but at the path, readers of the path get what they got before or all of the new bytes, and the writer can commit again, which succeeds if no call fails |
| Writers.PlusWriter.Close | pkg/registry/swift-plus/core.go:705-713 | commits unless the writer was committed or cancelled, with the same guarantees when it fails |
| Writers.PlusWriter.Cancel | pkg/registry/swift-plus/core.go:715-723 | does the specified cancel; if the deletion fails, what holds for every interrupted deletion holds, and the writer is cancelled |
| Writers.BufferedWriter.constructor | pkg/registry/swift-plus/core.go:761-766 | an empty buffer of the given size |
| Writers.BufferedWriter.Flush | pkg/registry/swift-plus/core.go:756-798 | passes on what is in the buffer as one segment, if anything is, as long as the writer itself is intact; an error is kept for ever; nothing leaks |
| Writers.BufferedWriter.PassOn | pkg/registry/swift-plus/core.go:768-770 | one piece: the filled-up buffer, or all of a large rest |
| Writers.BufferedWriter.Write | pkg/registry/swift-plus/core.go:768-770 | if the writer itself is intact: uploads exactly the pieces, and keeps exactly the buffer, that the buffering specification gives; readers see no difference, also on failure; the size reported grows by exactly the number of bytes taken over, whatever fails |
| Writers.BufferedWriter.Size | pkg/registry/swift-plus/core.go:780-782 | segments plus buffer |
| Writers.BufferedWriter.Commit | pkg/registry/swift-plus/core.go:792-798 | uploads the rest and commits as specified, also over damage at the path; after an earlier error does nothing at all; if the commit fails there is no damage but at the path, and it can be repeated |
| Writers.BufferedWriter.Close | pkg/registry/swift-plus/core.go:772-778 | uploads the rest and commits, unless that was done or cancelled before, with the same guarantees when it fails |
| Writers.BufferedWriter.Cancel | pkg/registry/swift-plus/core.go:784-790 | uploads the rest and cancels, also after a commit or an earlier cancel: whenever it succeeds the path is gone; after an earlier error cancels nothing; if the upload fails nothing leaks, and if the deletion fails it is an interrupted deletion |
| Writers.NewPlusWriter | pkg/registry/swift-plus/core.go:627-668 | opens a writer as specified: deletes what was there, or resumes with the recorded segments |
| Writers.OpenBuffered | pkg/registry/swift-plus/core.go:446-452 | the same with a buffer of the chunk size in front |
| Writers.NextNumber | pkg/registry/swift-plus/core.go:671-681 | the number after the last segment of an intact writer is free in the table |
| Orchestration.InvKept | pkg/drivers/local_processes/orchestration.go:80-142 | every event, in any interleaving, keeps all invariants of the orchestrator |
| Orchestration.Reachable | pkg/drivers/local_processes/orchestration.go:80-142 | the invariants hold in every reachable state |
| Orchestration.InitialInv | pkg/drivers/local_processes/orchestration.go:42-50 | the state at the beginning of Run satisfies the invariants |
| Orchestration.CountedKept | pkg/drivers/local_processes/process.go:132-146 | the WaitGroup's counter is always the number of unfinished goroutines |
| Orchestration.PairedKept | pkg/drivers/local_processes/process.go:135-164 | a waiter's send and an observer's receive always belong together |
| Orchestration.ExitErasesOwnEntry | pkg/drivers/local_processes/orchestration.go:120-121 | an exit message removes the entry of the process that exited and nothing else; no unreported process of the account is left |
| Orchestration.OneProcessPerAccount | pkg/drivers/local_processes/orchestration.go:123-136 | an unreported process is the only one of its account, and the account is mapped to its port, also after a fatal start error |
| Orchestration.NothingBlocks | pkg/drivers/local_processes/orchestration.go:63-73 | answering a request never blocks the loop and gives the recorded port; a waiter's result always has a taker |
| Clients.ReplyIsRecorded | pkg/drivers/local_processes/orchestration.go:136-139 | the reply sends the port recorded for the account of the client, if there is a result channel, and changes nothing else |
| Clients.ClientsAreRequests | pkg/drivers/local_processes/orchestration.go:57-68 | in every reachable state the clients are the requests that have arrived, with their accounts and result channels |
| Clients.GotIsRecorded | pkg/drivers/local_processes/orchestration.go:63-73 | a port that a client has received was the one recorded for the account it asked for, at the moment of the reply |
| Clients.AnsweredOnce | pkg/drivers/local_processes/orchestration.go:123-139 | no client is answered twice |
| Clients.AnswerStays | pkg/drivers/local_processes/orchestration.go:63-73 | a port that was sent to a client waits in its channel until the client has read it |
| Restarts.CrashIsRepaired | pkg/drivers/local_processes/orchestration.go:104-107 | while the inner context is alive, an exited process can always be reported, and the next request for the account starts another process and gets its port |
| Restarts.ChildExitsByItself | pkg/drivers/local_processes/process.go:145-164 | nothing the orchestrator does makes a process exit but by its own doing |
| Restarts.FaithfulRun | pkg/drivers/local_processes/process.go:156-173 | no process is interrupted, and no exit goes unreported, before the inner context was cancelled |
| Orchestration.ReturnedMeansExited | pkg/drivers/local_processes/orchestration.go:112-118 | when Run returns, all processes have exited and all goroutines are gone; it returns true exactly if all starts succeeded |
| Orchestration.FailedStartGoesOn | pkg/drivers/local_processes/orchestration.go:128-140 | after a failed start the port is recorded, only the inner context is cancelled, and the loop goes on |
| Shutdown.EntryForever | pkg/drivers/local_processes/process.go:156-173 | once the inner context is cancelled, the entry of an account stays for ever and no process is started for it, unless an exit message for it is already under way |
| Shutdown.FailedStartIsForever | pkg/drivers/local_processes/orchestration.go:128-136 | after a failed start this holds for all accounts, and every process that is still watched is about to be interrupted |
| Orchestration.NoAddAfterWait | pkg/drivers/local_processes/orchestration.go:112-118 | once the loop waits, nothing is started any more and the counter only goes down |
| Orchestration.SamePortExactly | pkg/drivers/local_processes/orchestration.go:123-128 | two processes share a port exactly if a multiple of 65536 start attempts lies between them |
| Orchestration.PortOfAttempt | pkg/drivers/local_processes/orchestration.go:123-128 | the n-th start attempt is made with port 10000 + n modulo 65536 |
| Orchestration.FirstPortsDistinct | pkg/drivers/local_processes/orchestration.go:123-136 | for the first 55535 attempts all recorded ports are distinct and in (10000, nextListenPort] |
| Shutdown.MeasureDecreases | pkg/drivers/local_processes/process.go:135-174 | while the loop waits, whatever processes and goroutines do brings shutdown closer |
| Shutdown.ShutdownExactly | pkg/drivers/local_processes/process.go:170-173 | once the loop waits, Run can still return exactly if no observer is between a passed check of the context and the receipt of its message |
| Shutdown.ShutdownInevitable | pkg/drivers/local_processes/orchestration.go:112-118 | then it cannot help returning: the remaining events are bounded, and it does not come to rest before |
| Shutdown.StuckForever | pkg/drivers/local_processes/process.go:170-173 | an observer in that gap stays blocked, and Run never returns |
| Shutdown.ShutdownCanHang | pkg/drivers/local_processes/process.go:145-174 | such a run exists from the initial state |
| LocalProcesses.ProcessContext.StartRegistry | pkg/drivers/local_processes/process.go:94-143 | adds a process with its two goroutines and two to the counter, or nothing |
| LocalProcesses.ProcessContext.WaiterStep | pkg/drivers/local_processes/process.go:136-139 | the goroutine around the process, statement by statement |
| LocalProcesses.ProcessContext.ObserverStep | pkg/drivers/local_processes/process.go:145-174 | waitOnProcess, statement by statement |
| LocalProcesses.Driver.constructor | pkg/drivers/local_processes/orchestration.go:42-50 | the driver starts in the initial state of the step system |
| LocalProcesses.Driver.ReceiveRequest | pkg/drivers/local_processes/orchestration.go:123-127 | looks up the port or takes the next one, with 16-bit wrap-around |
| LocalProcesses.Driver.Start | pkg/drivers/local_processes/orchestration.go:128-136 | the start attempt; the port is recorded in any case |
| LocalProcesses.Driver.Reply | pkg/drivers/local_processes/orchestration.go:137-139 | answers requests that have a result channel |
| LocalProcesses.Driver.ReceiveExit | pkg/drivers/local_processes/orchestration.go:120-121 | removes the account's entry and lets the observer go on |
| LocalProcesses.Driver.SeeExpiry | pkg/drivers/local_processes/orchestration.go:112-117 | cancels the inner context and starts to wait |
| LocalProcesses.Driver.Run | pkg/drivers/local_processes/orchestration.go:80-142 | under any schedule the objects go through the states of the step system, invariants included |
| Strings.SplitJoin | pkg/auth/scope.go:60-78 | splitting undoes joining exactly if no part contains the separator |
| Scopes.ComponentExactly | pkg/auth/scope.go:30-31 | the grammar of name components, read as a condition on characters and their neighbours |
| Scopes.RepoNameExactly | pkg/auth/scope.go:30-31 | a repository name is valid exactly if every part between slashes is a component |
| Scopes.NameExactly | pkg/auth/scope.go:30-31 | repository names by characters: letters and digits, and the signs . _ - and / neither at an end nor next to each other |
| Scopes.ParseScope | pkg/auth/scope.go:55-106 | returns the scope or the error of the parsing specification, with the checks in the same order |
| Scopes.AcceptedExactly | pkg/auth/scope.go:55-106 | the accepted inputs are exactly the catalog scopes, and repository scopes with a valid name of at most 256 characters and only pull and push, at least one of them |
| Scopes.RepositoryAccepted | pkg/auth/scope.go:73-95 | an accepted repository scope has the name and the actions as written, in their order |
| Scopes.CatalogAccepted | pkg/auth/scope.go:82-87 | an accepted catalog scope has the action * whatever was written, and no account |
| Scopes.RejectedByColons | pkg/auth/scope.go:56-72 | empty input, a missing type, and none, one, or more than two colons: each error exactly for its inputs |
| Scopes.RejectedByFields | pkg/auth/scope.go:82-103 | for three fields: unsupported resource, a name of more than 256 characters, an invalid name, and an action other than pull and push, each exactly for its inputs |
| Scopes.ThreeFields | pkg/auth/scope.go:60-72 | every other input is three fields without colons, so that these are all the errors |
| Scopes.RoundTrip | pkg/auth/scope.go:148-154 | parsing what was printed gives the same scope, for every accepted input |
| Scopes.RepositoryPrintsBack | pkg/auth/scope.go:148-154 | a repository scope is printed exactly as it was written |
| Scopes.AccountNameIsComponent | pkg/auth/scope.go:119-124 | the account name is a non-empty component, and all of the repository name before the first slash |
| Scopes.Contains | pkg/auth/scope.go:128-145 | true exactly for the same resource with no action missing |
| Tokens.Contains | pkg/auth/token.go:50-57 | true exactly if one scope of the token covers the given one |
| Tokens.IncludesAccessTo | pkg/auth/token.go:120-131 | true exactly if one scope has the action on the resource |
| Tokens.IncludesIsPermits | pkg/auth/token.go:50-131 | the two agree on single actions |
| Tokens.PermitsIsIncludesEach | pkg/auth/token.go:50-131 | for a token with one scope, containing a scope is including each of its actions |
| Tokens.FilterRepoActions | pkg/api/auth/token.go:102-111 | the permitted actions in their order: pull for those who may view the account, push for those who may change it, and nothing else |
| Tokens.FilteredExactly | pkg/api/auth/token.go:102-111 | pull remains exactly if it was requested and the user may view accounts of the tenant, push exactly if it was requested and the user may change them, and nothing else remains |
| Tokens.FilteredInOrder | pkg/api/auth/token.go:102-111 | permitted actions remain as often as requested and in the order of the request |
| Tokens.CompileCatalogAccess | pkg/api/auth/token.go:113-132 | one scope for each viewable account, in their order |
| Tokens.ViewableExactly | pkg/api/auth/token.go:113-132 | a scope is among them exactly if it is for viewing an account that the user may view |
| Tokens.ViewableInOrder | pkg/api/auth/token.go:113-132 | the scopes have the order of the accounts, one for each viewable account |
| Tokens.ToToken | pkg/auth/request.go:115-130 | the token has the scope and the compiled scopes, as far as they have actions |
| Tokens.HandleGetAuth | pkg/api/auth/token.go:54-99 | issues the token specified, for each kind of scope and with or without account |
| Tokens.TokenIsOwn | pkg/auth/request.go:115-130 | the token is for the user who asked for it, whatever the scope |
| Tokens.RepositoryToken | pkg/api/auth/token.go:86-91 | the token has the repository with the filtered actions, or nothing if none is left |
| Tokens.CatalogToken | pkg/api/auth/token.go:72-82 | the token has the catalog with the action *, and after it the viewable accounts |
| Tokens.RepositoryTokenExactly | pkg/api/auth/token.go:72-111 | a repository token permits a scope exactly if the resource matches and every action was requested and is pull with the permission to view, or push with the permission to change, the account |
| Tokens.CatalogTokenExactly | pkg/api/auth/token.go:72-132 | a catalog token permits viewing exactly the accounts that the user may view, the catalog, and nothing else |
| Tokens.OtherTokenEmpty | pkg/api/auth/token.go:81-92 | without a usable scope the token is empty |
| Tokens.RequestToToken | pkg/auth/request.go:85-96 | from the text of the request: pull and push are permitted exactly on the repository asked for, if asked for, to those who may view or change, respectively, the account named before the first slash |
| Accounts.InvKept | pkg/api/keppel/accounts.go:105-180 | every statement of every handler keeps the invariants of the accounts table |
| Accounts.AccountsSound | pkg/api/keppel/accounts.go:122-179 | in all interleavings: committed accounts were set up first and have no reserved name; a 200 names a committed account of the tenant asked for; a 409 means another tenant has it |
| Accounts.TenantNeverChanges | pkg/api/keppel/accounts.go:144-177 | a committed account keeps its tenant for ever |
| Accounts.NeverBothSucceed | pkg/api/keppel/accounts.go:144-177 | of two requests for one name with different tenants at most one ever succeeds |
| Accounts.KnownAccountReplies | pkg/api/keppel/accounts.go:144-179 | whatever other requests do in between: a request for an existing account, none of whose calls fails, is answered 200 for the same tenant and 409 for another one |
| Accounts.OneHolderKept | pkg/keppel/database.go:31-41 | the primary key: at most one open transaction holds a row of a name |
| Accounts.BothMayFindNothing | pkg/api/keppel/accounts.go:144-155 | the lookup does not exclude conflicts: two such requests can both have found nothing |
| Accounts.Api.HandlePutAccount | pkg/api/keppel/accounts.go:105-180 | for every way in which its calls may fail: the exact reply, 200 exactly if the account is committed with the tenant or was created and the commit reported, 409 exactly if another tenant has it, 400, 422, 401, 403 for the first check that fails, 500 for failing calls; and the exact rows and role assignments left behind. It takes the statements of the step system |

## Left out

- Postgres itself, the creation and migration of the databases, and SQL texts: tables are maps with primary keys. Queries that only read do not fail in the model, except for the lookup of an account.
- Columns for modification times and segment hashes, and the width of the INT column for segment numbers.
- Authentication and container setup in Swift, MD5 sums, temporary URLs (URLFor), and HTTP. A manifest without segments is assumed to read as empty, and an upload that replaces an object is assumed to do so in one step.
- Random locations: a parameter of the calls, assumed to occur nowhere yet. ObjectNames assumes 16 hexadecimal digits.
- Relative paths, with which mkdirAll does not end, and paths with "." or "..": paths are sequences of components.
- Calls to the storage driver at the same time: calls are executed one after the other; only writers stay open in between.
- Two open writers on one path; put, delete and move at or above the path of an open writer; writing after a commit or a cancel; putting onto a directory: the specification does not cover them. Exactness says what some of them do to the tree.
- Damage.DamageStays: calls at and above the damaged path are described as far as they delete. A file that is put or moved to a path above it, where a directory is missing, keeps the damaged path from being mended, since a file cannot hold it.
- Leaks.LeakExactly: is about calls that succeed. A failed call leaves nothing unreferenced either, except for a failed Cancel, whose writer is gone nevertheless.
- Writers.BufferedWriter.PassOn: the buffered writer of the Go standard library is modelled from its documented behaviour, since its source is not part of this model.
- Shutdown.ShutdownExactly: is about what can still happen; that a child exits once it is interrupted, and that the scheduler lets every goroutine run, is assumed.
- Orchestration.InvKept: starting a process, adding to the WaitGroup and launching the goroutines is one step.
- The actual child processes, their environment and configuration files, and log messages.
- Polling by ensureAllRegistriesAreRunning: it is a source of arbitrary requests without a result channel.
- Decoding of credentials and query strings, signing and checking of tokens, and the expiry of tokens.
- Permissions of users: an arbitrary fixed predicate on tenants.
- Strings are sequences of characters. For names outside of ASCII the length in bytes can differ, which only decides between two errors.
- Accounts.AccountsSound: role assignments that were made in a transaction which is then rolled back stay recorded; a setup that fails is taken to have made none.
- The read-only handlers for accounts, the proxy to the registries, routing and error tables: they would only add easy members.
