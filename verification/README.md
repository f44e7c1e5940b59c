# A verified model of the coding agent harness

The harness lets a language model change a Python repository under supervision: it parses a proposed patch, judges it by
policy, applies it as one transaction, tests the result with pytest, and decides from the evidence whether to go on, stop,
pause for a human or report success. A web demonstration runs fixed scenarios in worker processes under one lock, and a
SQLite store keeps tasks, approvals, intents and leases. This project models those parts in Dafny and proves what they
promise, for all inputs, all runs and all patterns of failure.

`dafny verify dfyconfig.toml` checks everything. The modules, in the order in which they build on one another:

| part | modules |
|---|---|
| texts and bytes | `Base`, `Utf8`, `Lines` |
| from diff text to plans, and back | `PatchModels`, `PatchParser`, `PatchPaths`, `PatchRoundTrip`, `PatchGit`, `PatchConcat` |
| policy | `Policy`, `PatchSeverity` |
| patch transaction | `Workspaces`, `Rollback`, `PatchLayout`, `Applier`, `PatchTransaction`, `PatchNesting` |
| test evidence | `WorkspaceHash`, `Capture`, `TestRunner`, `PytestParser`, `Feedback` |
| agent loop | `Harness`, `HarnessRuns`, `HarnessGovernance`, `HarnessOutcomes`, `HarnessSteps`, `HarnessLoop` |
| traces | `Trace`, `TraceEntries`, `TraceContract`, `TraceVerdicts` |
| demo runs | `RunProtocol`, `RunSafety`, `RunFailures`, `RunService`, `RunInterleaving`, `DemoScenarios` |
| state store | `StateStore`, `StateStoreEffects`, `StateStoreRuns` |

Code that works step by step is a method or a class here too, proved against a mathematical definition (`Prepared`,
`Patched`, `StepOf`, `TraceOf`, `Satisfies`, `LedgerOf`, `Effect`), and the promises are lemmas about that definition.
Lemmas named `…Exactly` say what such a definition comes to in terms of its inputs alone, without its own parts.

## How failure is modelled

- The workspace is a tree of files and directories. A call fails when the tree does not allow it: reading or replacing a
  directory, making a directory where a file is, putting a file back where a directory has come to be. Beyond that a
  `World` decides, call by call, whether a call raises, whether a replacement that raises took effect, and what other
  processes do in between. Nothing is assumed of it unless a contract says so: `Calm` (nobody interferes and temporary
  names are unused), `FaultFree` and `AtMostOneFault` (calls fail, or all but one do, only by the shape of the tree).
- A demo run's `World` answers every call (lock, clock, directories, worker, files) as a function of all calls before it,
  so every pattern of failure is covered. `Safe` says which calls are permitted in which state and `Problem` which failure
  a call stands for; both are stated without reference to the code that is proved to follow them, and `Fails` tells the
  failures from the calls alone.
- A statement of the state store fails when its fault function says so; a transaction may fail at any of its statements.
- Collaborators of the agent loop answer arbitrarily, or raise: the model call, reading the snapshot, resolving safety
  facts (a `ValueError` there is an answer of its own), every tool and test run, applying a patch, and hashing the
  workspace afterwards. An exception leaves the stored session as it was. Building the context, judging by policy, and
  loading and saving a session are assumed not to raise.

## What is taken as given

- SHA-256 is injective: a digest is its content. Fingerprints are the tuple of the fields that the code hashes.
- The regular expressions of the pytest parser, `str.casefold`, lenient decoding and summary normalisation are arbitrary
  functions (`TextRules`, `fold`). Texts are sequences of Unicode scalar values, so lone surrogates do not occur.
- `path.exists()` followed by a read is one call, and so are creating, writing and syncing a temporary file. Temporary
  names are new. Creating a request root makes a directory that did not exist in that identity before.
- `sorted` over the directory walk gives a sorted listing without repeats.
- What the draining threads read is a list of chunks; since they are joined with a time limit, it may be less than what
  the process wrote.
- `process_created` and releasing the lock do not fail; closing a file raises at most `OSError`. The handle says truly
  whether there is a process.
- Lease times are numbers counted from 0 (the schema stores text), statements autocommit outside transactions (as in the
  connection that the store opens itself), and a rollback succeeds.
- Exceptions that are not `Exception` (such as an interrupt) do not occur.

## Where documentation and code differ

The model follows the code.

- The repository's `README.md:165` says that unknown test outcomes pause for a human. When a test process did not end by
  itself, this holds after a patch if and only if the workspace changed during the run or there was an earlier result
  (`UnendedTestPauses`); otherwise it is ordinary feedback and the task goes on deciding (`FirstTimeoutIsFeedback`).
- Its `README.md:162` says that every allowed patch forces a full pytest run. It does exactly when the outcome of applying
  the patch is certain and hashing the workspace afterwards does not raise; a patch that failed or was refused by its
  pre-image check is followed by a full test as well (`EveryLifeIsGoverned`).
- A patch may be accepted whose paths lie below one another or below other files. Not all of them can be written, and of
  those not all can be rolled back (`FatedToApply`, `ApplyThenRollBack` give the exact conditions); compensation itself
  may raise and leave the patch half done (`Trapped`, `PatchNesting`).
- A diff whose header names two different files is accepted, but planned for the new file with the old one's content as
  its pre-image; applying it is a conflict unless the new file already holds that (`RenamedSection`, `RenamingConflicts`).
- A deleted line that starts with `-- ` reads as a file header (`RoundTripExactly` gives the exact domain of the round
  trip, `DeletedCommentIsMisread` an input outside it).
- A trace shows a test's verdict from its one-line summary alone, so a failing test whose message is `pytest passed` is
  shown as passed (`VerdictShownExactly` gives the exact condition). The session's status does not depend on this.
- A lease is acquired with a clock that was read before the transaction, which may wait for another connection. A renewal
  that waits may then go through beside a lease taken meanwhile (`LateRenewalIntrudes`); `OneLeaseExactly` says when there
  is at most one, and `AtMostOneLease` that it holds if readings come in the order of the transactions.
- In a demo run the finalizer tries once more to end a worker that could not be confirmed dead. If that succeeds the root
  is cleaned up although the code stays `termination_unconfirmed`; `CleanedOrSetAside` is stated in terms of the
  confirmation, not of the code. The worker's exit code is never looked at.

## Model

| member | source | states |
|---|---|---|
| `Utf8.DecodeEncode` | src/coding_agent_harness/patching/parser.py:24-27 | decoding undoes UTF-8 encoding, for every text |
| `Utf8.EncodeDecode` | src/coding_agent_harness/patching/parser.py:27 | a byte string that decodes is the encoding of what it decodes to, so no two byte strings decode alike |
| `Utf8.AsciiInEncode` | src/coding_agent_harness/patching/parser.py:25 | a byte below 0x80 (such as CR) occurs in an encoding exactly when that character occurs in the text |
| `Utf8.Examples` | src/coding_agent_harness/patching/parser.py:24-27 | the byte sequences that section 7 of RFC 3629 gives for one character of each length |
| `Lines.SplitAppend` | src/coding_agent_harness/patching/parser.py:28 | `splitlines(keepends=True)` of a text ending in a newline and anything after it is the two splits one after the other |
| `Lines.SplitConcat` | src/coding_agent_harness/patching/parser.py:28 | splitting the concatenation of newline-terminated lines gives those lines back |
| `Lines.JoinSplit` | src/coding_agent_harness/patching/parser.py:17 | joining the parts of a split by the same separator restores the text |
| `PatchPaths.SplitLinesExactly` | src/coding_agent_harness/patching/parser.py:28 | `splitlines(keepends=True)` of any text: the lines make up the text, each has a line end only at its end (a carriage return and newline being one), and each but the last has one |
| `PatchPaths.SplitOnExactly` | src/coding_agent_harness/patching/parser.py:17 | the parts of a split are exactly the texts between two separators or ends of the text |
| `PatchPaths.SafePartsExactly` | src/coding_agent_harness/patching/parser.py:17-19 | a path is safe if and only if no text between two separators or ends of it is empty, `.` or `..` |
| `PatchPaths.ParsePathExactly` | src/coding_agent_harness/patching/parser.py:9-20 | every header value: `/dev/null` names no file; a leading slash or backslash, a drive colon, a NUL or an unsafe part is refused; otherwise the path is the text before the first tab without a leading `a/` or `b/`, with forward slashes |
| `PatchParser.ScanFrom` | src/coding_agent_harness/patching/parser.py:52-68 | the inner scanning loop gathers exactly the hunk that the recursive scanner defines, adds its added and deleted lines to the counters, and stops at the next file header or `diff --git` line, or reports an invalid hunk exactly when the scanner does; `ScanBody` says what that is |
| `PatchParser.SectionFrom` | src/coding_agent_harness/patching/parser.py:36-76 | one round of the outer loop yields the same path, plan and end position as the recursive reading of one file section, or the same error |
| `PatchParser.PrepareFromLines` | src/coding_agent_harness/patching/parser.py:29-80 | the whole scanner loop equals the recursive definition on every list of lines |
| `PatchParser.Prepare` | src/coding_agent_harness/patching/parser.py:23-80 | the imperative `prepare` computes exactly the patch, or the error, of its mathematical definition `Prepared`, on every byte string and snapshot; `PrepareInvertsGit`, `RoundTripExactly` and `PreparedIsSound` say what that is |
| `PatchRoundTrip.ParsePathOfHeader` | src/coding_agent_harness/patching/parser.py:9-20 | a path written after `a/` or `b/` is read back as itself if and only if it is safe (no empty, `.` or `..` part, no tab, NUL or backslash) |
| `PatchRoundTrip.ScanEdits` | src/coding_agent_harness/patching/parser.py:53-68 | scanning rendered edits gathers exactly those edits when no deleted line starts with `-- ` |
| `PatchRoundTrip.SidesOfEdits` | src/coding_agent_harness/patching/parser.py:69-74 | the old and new sides of the gathered hunk are the kept and deleted, and the kept and added lines; the counts are exact |
| `PatchRoundTrip.SectionOfScript` | src/coding_agent_harness/patching/parser.py:33-76 | the rendering of one script is read as that script's plan if the script fits the snapshot and is refused if not |
| `PatchRoundTrip.PrepareInvertsRendering` | src/coding_agent_harness/patching/parser.py:23-80 | for every list of whole-file scripts without header lookalikes, preparing the rendered diff succeeds exactly when the scripts fit the snapshot and name distinct files, and then gives one plan a script in order, with exact images and counts |
| `PatchRoundTrip.PlansAreHeaders` | src/coding_agent_harness/patching/parser.py:32-77 | an accepted diff has exactly as many plans as lines that look like a file header |
| `PatchRoundTrip.RoundTripExactly` | src/coding_agent_harness/patching/parser.py:53-76 | the exact domain of the round trip: the rendered diff is prepared as the patch its scripts describe if and only if there is a script, all fit, and no deleted line starts with `-- ` |
| `PatchRoundTrip.DeletedCommentIsMisread` | src/coding_agent_harness/patching/parser.py:53-73 | a concrete input outside that domain: deleting the line `-- old` is refused as a context mismatch |
| `PatchRoundTrip.FormFeedIsMisread` | src/coding_agent_harness/patching/parser.py:28 | a concrete input with a line break other than newline: an added line holding a form feed is refused as an invalid hunk |
| `PatchGit.ScanBody` | src/coding_agent_harness/patching/parser.py:53-68 | of a section's lines up to the next `---` or `diff --git` line the scanner gathers exactly the lines of text, passes over hunk headers, `\ No newline` markers and blank lines wherever they are, and refuses any other line |
| `PatchGit.PreambleSkipped` | src/coding_agent_harness/patching/parser.py:32-35 | lines before a file header, none of them one, change nothing |
| `PatchGit.SectionOfGit` | src/coding_agent_harness/patching/parser.py:36-76 | one section is read as its plan, or refused with the reason that its path, its operation, its lines and the snapshot give: duplicate, missing or existing target, stray line, not UTF-8, or other text |
| `PatchGit.PrepareInvertsGit` | src/coding_agent_harness/patching/parser.py:23-80 | for every diff as git writes it (`diff --git` and further lines before each header, markers between the lines), `prepare` gives the patch its sections ask for, or the reason of the first section refused |
| `PatchGit.RefusedExactly` | src/coding_agent_harness/patching/parser.py:42-73 | no section is refused if and only if all scripts fit the snapshot, name distinct files, and no line is stray |
| `PatchGit.GitRoundTripExactly` | src/coding_agent_harness/patching/parser.py:23-80 | the exact domain of that round trip: the diff is prepared as the patch of its sections if and only if there is one, none is refused, and no deleted line starts with `-- ` |
| `PatchGit.SizesOfPatch` | src/coding_agent_harness/patching/parser.py:79 | the sizes reported for such a patch are its number of files and of lines marked `+` and `-` |
| `PatchGit.RenamedSection` | src/coding_agent_harness/patching/parser.py:36-76 | a section whose header names two different files is compared with the old file if there is one, and planned as a modification of the new one with the old one's content as pre-image; nothing is planned for the old file |
| `PatchConcat.ParseSectionsAppend` | src/coding_agent_harness/patching/parser.py:32-76 | reading two texts in a row, the second starting at a header, is reading the second with the paths of the first already taken |
| `PatchConcat.ParseSectionsSeen` | src/coding_agent_harness/patching/parser.py:42-44 | taking more paths beforehand refuses exactly the diffs that use one of them and changes nothing else |
| `PatchConcat.SectionIsSound` | src/coding_agent_harness/patching/parser.py:42-76 | the plan of a file section is for the new path, or the old one if there is none; its operation follows from which of the two is missing; its pre-image is what the old path holds in the snapshot, and decodes to the old side of its text; its post-image encodes the new side |
| `PatchConcat.PreparedIsSound` | src/coding_agent_harness/patching/parser.py:42-80 | whatever the diff, an accepted patch has at least one plan, distinct paths, hashes of its own images, each plan planned from the snapshot in that way, and facts that count the plans and say whether a path is a test asset (`tests/…`, `…_test.py`, `…/conftest.py`) or sensitive (`harness-data/…`, `.env…`, `….pem`, `….key`) |
| `PatchConcat.AcceptedText` | src/coding_agent_harness/patching/parser.py:25-28 | an accepted text has no carriage return and ends in a newline, and is read line by line |
| `PatchConcat.PrepareConcatenates` | src/coding_agent_harness/patching/parser.py:32-80 | two accepted diffs, the second starting at a header, are accepted together if and only if they name disjoint files, and then give the concatenated plans and summed facts |
| `Policy.Resolve` | src/coding_agent_harness/adapters/runtime/action_executor.py:78-95 | the loop that raises the three safety flags ends with each flag true exactly if some plan escapes, goes through a symlink, or has a NUL in the first 8192 bytes of an image |
| `Policy.VerdictByFacts` | src/coding_agent_harness/security/policy.py:62-94 | deny if and only if some protective fact holds or a hard limit (20 files, 2000 lines, 1 MiB) is exceeded; approval if and only if not that and a soft limit (5 files, 300 lines) is exceeded or a source deletion, sensitive path or dependency file is reported |
| `Policy.ReasonByFacts` | src/coding_agent_harness/security/policy.py:62-94 | which of several facts is given as the reason, for every combination of facts: the protection of tests before everything else |
| `Policy.NoFactsAllowed` | src/coding_agent_harness/core/harness.py:126-128 | an action that is not a patch, judged on no facts, is allowed |
| `Policy.MoreFactsNoMoreLenient` | src/coding_agent_harness/security/policy.py:62-94 | facts that report everything another set does, and perhaps more, are never judged more leniently |
| `Policy.JointVerdict` | src/coding_agent_harness/security/policy.py:62-94 | the verdict on joined facts is at least the stricter of the two, and exactly that while the summed sizes stay within the limits |
| `PatchSeverity.FactsOfTwo` | src/coding_agent_harness/core/patch_policy.py:12-29 | the policy facts of two diffs accepted together are the join of the facts of each |
| `PatchSeverity.LargerPatchNoMoreLenient` | src/coding_agent_harness/core/patch_policy.py:12-29 | end to end from diff text to verdict: two accepted diffs about different files, written one after the other, are judged at least as strictly as the stricter one |
| `PatchSeverity.BinaryExactly` | src/coding_agent_harness/adapters/runtime/action_executor.py:87 | a patch counts as binary if and only if an old or new image has a NUL among its first 8192 bytes |
| `PatchSeverity.FactsOfPlans` | src/coding_agent_harness/core/patch_policy.py:8-29 | each policy fact about an accepted diff, from the paths, operations and images of its plans, the tree and the mode |
| `PatchSeverity.VerdictOfDiff` | src/coding_agent_harness/security/policy.py:62-94 | end to end from an accepted diff: denied for the protection of tests if and only if it names a test asset; denied at all if and only if it does that, names protected configuration, leads outside or through a symlink, holds a NUL, is not for real, or is too large; and otherwise when approval is asked for |
| `Rollback.PatchedAt` | src/coding_agent_harness/patching/applier.py:32-47 | putting the new images in place sets exactly the named files, each to its own post-image |
| `Rollback.UndoneAt` | src/coding_agent_harness/patching/rollback.py:14-26 | undoing sets exactly the named files, each to its own pre-image |
| `Rollback.UndoPatched` | src/coding_agent_harness/patching/rollback.py:10-27 | rolling back a patch applied to files that held its pre-images restores the files exactly |
| `Rollback.RestoreOne` | src/coding_agent_harness/patching/rollback.py:15-26 | one round: the pre-image is put back exactly when the post-image is found, a conflict otherwise changes nothing, and at most one careful write is made |
| `Rollback.Rollback` | src/coding_agent_harness/patching/rollback.py:10-27 | for every pattern of faults and interference: every write restores a planned file just seen to hold its post-image; undisturbed success leaves exactly the undone files; a conflict is reported exactly when some file does not hold its post-image, unless a call raised; undisturbed it cannot succeed, and without other failures raises only, if the place of a file has become a directory, and such files stay as they were |
| `Applier.CheckPreImages` | src/coding_agent_harness/patching/applier.py:23-29 | the check loop changes nothing; undisturbed, it reports drift only if the first plan whose place is not as expected is a symlink or a file that is not its pre-image, passes only if every place is as expected, and raises only if that first place is a directory or a call failed |
| `Applier.CheckedExactly` | src/coding_agent_harness/patching/applier.py:23-29 | passing, drift and raising, each exactly by the first plan whose place (no symlink, no directory, holding the pre-image) is not as expected |
| `Applier.InstallOne` | src/coding_agent_harness/patching/applier.py:33-47 | one file: it cannot be written if its place is a directory or a file lies where it needs one; success sets its post-image, makes exactly the missing directories and disturbs no existing or planned file; a failure, even after the replacement took effect, leaves the file with its old or its new image |
| `Applier.InstallAll` | src/coding_agent_harness/patching/applier.py:30-48 | the write loop: success is the patched files with their directories and means no plan was blocked; a failure at plan i leaves new images before it, old ones after it and one of the two at it, and is due to plan i being blocked or to a failing call |
| `Applier.Classify` | src/coding_agent_harness/patching/applier.py:50-61 | the first compensation loop writes nothing, selects exactly the files found done, and stops with an unknown outcome only at a file that holds neither image |
| `Applier.CompensationRestores` | src/coding_agent_harness/patching/applier.py:50-65 | rolling back the files found done, the others being untouched, brings every planned file back to its old image |
| `Applier.Compensate` | src/coding_agent_harness/patching/applier.py:49-65 | a file holding neither image, or a directory in the place of a file, means no write at all and no claim of restoration; `apply_failed` means every file begun holds its old image again; if no call fails and directories are left alone it raises for nothing else, whatever others do to the files, and a conflict met then is an unknown outcome |
| `Applier.Apply` | src/coding_agent_harness/patching/applier.py:19-65 | for every position of I/O faults: unauthorized exactly without authorization; undisturbed, a conflict only if the first plan not as expected is a symlink or not its pre-image, and exactly then if no call fails, and an exception without any write if that first one is a directory; success leaves exactly the patched files, refusal leaves everything, `apply_failed` leaves every planned or pre-existing path with its original content; bystanders always survive; if calls fail only by the shape of the tree the outcome is exactly the fated one; with one other failure a patch that can be laid and undone is applied or leaves the old content, and one that cannot be undone is left midway exactly when the place of a plan begun is a directory; under interference every compensating write lands where the post-image had just been seen |
| `Applier.FatedExactly` | src/coding_agent_harness/patching/applier.py:19-65 | the fated outcome from the plans and the tree alone: unauthorized, conflict, applied, failed and raised, each with its exact condition |
| `Applier.CheckedPasses` | src/coding_agent_harness/patching/applier.py:23-29 | every check passes exactly when no target is a symlink or a directory and every file holds its pre-image |
| `Applier.FirstBlockedDecides` | src/coding_agent_harness/patching/applier.py:49-65 | the first blocked plan decides alone whether compensation is trapped by a directory |
| `PatchLayout.BlockedExactly` | src/coding_agent_harness/patching/applier.py:32-47 | what blocks a plan when it is reached can be seen beforehand: an earlier written path lies below its own, or it writes and an earlier written path or a file that no earlier plan deletes lies above |
| `Applier.TrappedExactly` | src/coding_agent_harness/patching/applier.py:49-55 | compensation is trapped if and only if an earlier written path lies below a path begun by the first such plan; a condition on paths and files alone |
| `PatchLayout.LayableExactly` | src/coding_agent_harness/patching/applier.py:32-47 | a patch whose checks pass is blocked nowhere if and only if every file above a written path is deleted by an earlier plan and no written path lies above another |
| `PatchLayout.UndoableExactly` | src/coding_agent_harness/patching/rollback.py:14-16 | after such a patch the place of a planned file is a directory if and only if a deleted path lies above a written one |
| `PatchTransaction.RenderedPatchMeaning` | src/coding_agent_harness/patching/parser.py:23-80 | a patch rendered from fitting scripts is sound, passes the checks, and turns the snapshot into the snapshot with every script carried out; undoing gives the snapshot back |
| `PatchTransaction.PrepareAndApply` | src/coding_agent_harness/patching/applier.py:19-65 | snapshot, prepare and apply in sequence: a refused diff touches nothing, an applied one leaves exactly the patched snapshot, a failed one the original content; if calls fail only by the shape of the tree, the outcome is exactly the fated one |
| `PatchTransaction.FatedToApply` | src/coding_agent_harness/patching/applier.py:23-65 | a well-formed patch is fated to be applied if and only if its files hold their pre-images, no target is a symlink or a directory, every file above a written path is deleted earlier, and no written path lies above another; one whose checks pass is fated to raise if and only if it ensnares its own compensation |
| `PatchTransaction.ApplyThenRollBack` | src/coding_agent_harness/patching/rollback.py:10-27 | prepare, apply and roll back where calls fail only by the shape of the tree: applied, with exactly the snapshot with every script carried out, if and only if the patch is writable; rolled back to exactly the snapshot if and only if no deleted path lies above a written one, and otherwise the rollback raises |
| `PatchTransaction.RenamingConflicts` | src/coding_agent_harness/patching/applier.py:23-29 | the patch of a section that names an old and a new file is answered with a conflict if and only if the new file does not already hold what the old one does |
| `PatchNesting.DeleteThenCreateBelow` | src/coding_agent_harness/patching/applier.py:32-47 | an accepted patch that can be written and not undone: delete `a`, create `a/b` |
| `PatchNesting.CreateBelowThenDelete` | src/coding_agent_harness/patching/applier.py:38 | an accepted patch that cannot be written: the same in the other order |
| `PatchNesting.CreateBelowThenAbove` | src/coding_agent_harness/patching/applier.py:49-53 | an accepted patch, create `a/b` and create `a`, whose compensation is trapped, so that applying it raises by itself |
| `PatchNesting.NotTakenBack` | src/coding_agent_harness/patching/rollback.py:14-16 | the first of these applied without any failure: rolling back raises and the snapshot is not restored |
| `PatchNesting.DiskErrorAtThird` | src/coding_agent_harness/patching/applier.py:49-53 | the same with a third file that cannot be written: compensation raises and leaves `a` deleted and `a/b` in place |
| `WorkspaceHash.UnstreamStream` | src/coding_agent_harness/adapters/runtime/action_executor.py:41-52 | the length-prefixed stream decodes to the very records it was made of |
| `WorkspaceHash.WorkspaceStream` | src/coding_agent_harness/adapters/runtime/action_executor.py:41-52 | the digest loop feeds exactly the stream of the regular files outside `.git`, in order, nothing at all if the root lies below a `.git`, and fails exactly when a length needs more than eight bytes |
| `WorkspaceHash.StreamOfEntry` | src/coding_agent_harness/adapters/runtime/action_executor.py:43-51 | what each entry of the walk adds: for a regular file outside `.git` the length of its path, the path, the length of its content and the content, in this order; for anything else nothing |
| `WorkspaceHash.EightBytesExactly` | src/coding_agent_harness/adapters/runtime/action_executor.py:47-50 | a length is written in eight bytes, the most significant first |
| `WorkspaceHash.InGitExactly` | src/coding_agent_harness/adapters/runtime/action_executor.py:44 | a path lies below `.git` if and only if that name stands between two separators or ends of it |
| `WorkspaceHash.FilesExactly` | src/coding_agent_harness/adapters/runtime/action_executor.py:43-49 | the files that the hash speaks about are exactly the regular files of the walk outside `.git`, each with its content |
| `WorkspaceHash.SortedUnique` | src/coding_agent_harness/adapters/runtime/action_executor.py:43 | a sorted listing of hashed files is determined by the path-to-content map |
| `WorkspaceHash.SameHashSameFiles` | src/coding_agent_harness/adapters/runtime/action_executor.py:41-52 | two states of a workspace hash alike if and only if they hold the same files outside `.git`, or the workspace itself lies below a directory of that name |
| `Capture.TruncationStep` | src/coding_agent_harness/adapters/process/runner.py:58-68 | truncating what was kept together with the next chunk is truncating the whole stream at once |
| `Capture.BoundedCapture.constructor` | src/coding_agent_harness/adapters/process/runner.py:51-56 | a new capture stands for the empty stream |
| `Capture.BoundedCapture.Feed` | src/coding_agent_harness/adapters/process/runner.py:58-68 | after a feed the capture shows the one-shot truncation of everything fed so far, and `truncated` says whether that exceeded the limit |
| `Capture.BoundedCapture.Drain` | src/coding_agent_harness/adapters/process/runner.py:137-142 | the same after any sequence of chunks |
| `Capture.UntruncatedIsWhole` | src/coding_agent_harness/adapters/process/runner.py:62-68 | the shown value is the whole stream exactly when that fits; otherwise it is exactly as long as the limit, its first half the start of the stream and the rest its end |
| `TestRunner.Launch` | src/coding_agent_harness/adapters/process/runner.py:119-159 | the result has the process's exit code, the truncation of each stream with its flag, and always satisfies the result model |
| `TestRunner.LaunchExactly` | src/coding_agent_harness/adapters/process/runner.py:119-159 | for every process: its exit code, completed exactly if there is one and timed out otherwise; of each stream all of it, or its first and last half-megabyte with the flag set |
| `TestRunner.RunPytest` | src/coding_agent_harness/adapters/process/pytest_runner.py:87-125 | the sequence of reassignments of the outcome computes the defined test run on every launch result |
| `TestRunner.RunExactly` | src/coding_agent_harness/adapters/process/pytest_runner.py:87-125 | each outcome of a test run with its exact condition on the launch status, the exit code, the workspace before and after, and there being output that is not blank |
| `TestRunner.RunIsValid` | src/coding_agent_harness/domain/models.py:191-217 | no launch makes the runner build a test run that the model's own consistency checks reject |
| `PytestParser.PassedIffEvidence` | src/coding_agent_harness/feedback/pytest_parser.py:55-75 | a pass is reported if and only if the process completed with exit code 0, the workspace hashes agree, nothing was truncated, there is output, no failure or collection marker, and a passed count |
| `PytestParser.UnreliableIffNotEnded` | src/coding_agent_harness/feedback/pytest_parser.py:59-60 | on an undrifted workspace, an environment error is reported exactly when the process did not end by itself |
| `PytestParser.OutcomeExactly` | src/coding_agent_harness/feedback/pytest_parser.py:55-75 | each parsed outcome with its exact condition: environment error when the process did not end by itself, else failing tests before collection errors before a pass, all of complete output only, and otherwise unparseable |
| `PytestParser.FailureExactly` | src/coding_agent_harness/feedback/pytest_parser.py:63-69 | a failing result names exactly the failing tests, in ascending order and each once, the normalized first detail, and of the frames the first twenty in that order |
| `PytestParser.DetailExactly` | src/coding_agent_harness/feedback/pytest_parser.py:66 | the detail is that of the first failure that has one, or a fixed text if none has |
| `PytestParser.SortedSetExactly` | src/coding_agent_harness/feedback/pytest_parser.py:65-68 | `sorted(set(xs))` has the same strings, each once, in ascending order |
| `PytestParser.PassTracedBack` | src/coding_agent_harness/feedback/pytest_parser.py:55-75 | a reported pass traced back to the process and the files: exit code 0, the text judged is everything that was read, and the files outside `.git` are the same before and after |
| `Feedback.FindMatchFinds` | src/coding_agent_harness/feedback/engine.py:23-25 | the history search finds a result exactly if one has the same fingerprint |
| `Feedback.CompareEqual` | src/coding_agent_harness/feedback/engine.py:26-36 | equal fingerprints on the same source are no progress, on changed source merely changed |
| `Feedback.NoProgressExactly` | src/coding_agent_harness/feedback/engine.py:23-34 | a failing result is a loop exactly if an earlier result but the last has its fingerprint, and no progress exactly if it is no loop and repeats the last one on an unchanged source |
| `Feedback.FindMatchIn` | src/coding_agent_harness/feedback/engine.py:23-25 | a loop is matched with the first earlier result that shows the same failure |
| `Feedback.SameFailureExactly` | src/coding_agent_harness/feedback/fingerprint.py:5-13 | two results show the same failure if and only if phase, outcome, exception, summary, node ids and frames agree, the last two in any order |
| `Feedback.DirectionExactly` | src/coding_agent_harness/feedback/engine.py:26-36 | the direction of two failures, from which failing tests are new and which are gone: progress, regression, no progress and changed, each with its exact condition |
| `Feedback.DecisionExactly` | src/coding_agent_harness/feedback/engine.py:13-37 | every field of the decision on every result, and that there is none exactly for a failure with nothing to compare it with |
| `Feedback.RaisesExactly` | src/coding_agent_harness/domain/models.py:240-265 | when the engine raises: exactly on such a failure, on a summary that is not one safe line, or when a failure would be compared or matched with a result of its own run |
| `HarnessRuns.PerformAllAppend` | src/coding_agent_harness/core/harness.py:79-83 | a task's life can be taken up where another left it |
| `HarnessRuns.StepKeepsInvariant` | src/coding_agent_harness/core/harness.py:85-177 | each step keeps the session invariant, and one that stays deciding has used exactly one action |
| `HarnessRuns.EveryLifeKeepsInvariant` | src/coding_agent_harness/core/harness.py:157-177 | over every sequence of steps and resumes: counts within budget, `feedback_count` is the length of `result_history`, `previous_result` its last, and, unless stopped, failing results with equal fingerprints are adjacent and on different source revisions |
| `HarnessGovernance.EachFailureAtMostTwice` | src/coding_agent_harness/feedback/engine.py:23-36 | results without forbidden repeats hold at most two failing results a fingerprint |
| `HarnessGovernance.FailuresBounded` | src/coding_agent_harness/core/harness.py:157-171 | a task that has not been stopped has at most twice as many failing results as distinct failing fingerprints |
| `HarnessGovernance.StepCalls` | src/coding_agent_harness/core/harness.py:85-163 | one step's calls are governed, and it asks the model once at its start or does nothing at all |
| `HarnessGovernance.EveryLifeIsGoverned` | src/coding_agent_harness/core/harness.py:101-148 | over every life: each executed patch was prepared and allowed on facts of that same patch just before; it is followed by one full test exactly when its outcome is certain and the execution returned; full tests happen for no other reason; tools run only on actions that policy allows; the model was asked once for every counted action or failed step |
| `HarnessOutcomes.EveryHistoryIsPaired` | src/coding_agent_harness/core/harness.py:143-146 | in every life each `apply_patch` entry is immediately followed by a `full_test` entry, and conversely |
| `HarnessOutcomes.SuccessIsEarned` | src/coding_agent_harness/core/harness.py:150-168 | a step ends in success only on passing evidence of a run that was not focused |
| `HarnessOutcomes.EverySuccessIsEarned` | src/coding_agent_harness/core/harness.py:150-168 | a task that has succeeded did so in one identifiable step on passing evidence, and its session has not changed since |
| `HarnessOutcomes.EverySuccessIsTested` | src/coding_agent_harness/core/harness.py:150-168 | end to end, with tools that do not claim test runs of their own: a task that succeeded did so in one step whose test process ended with exit code 0, whose whole captured output was judged and passed, and which left the files of the workspace as they were |
| `HarnessOutcomes.CarryOut` | src/coding_agent_harness/core/harness.py:139-148 | an allowed patch carried out on a real workspace: an unknown outcome is not tested and pauses the task (or the step raises with the workspace hash), and cannot happen when nobody interferes; what is tested is the patched, the restored or the untouched workspace |
| `HarnessOutcomes.UnendedTestPauses` | src/coding_agent_harness/core/harness.py:139-163 | the exact condition under which a test process that did not end by itself pauses the task: after a patch if and only if the workspace changed during the run or there was an earlier result, after `run_tests` if and only if one of these holds or the launch status is unknown |
| `HarnessOutcomes.FirstTimeoutIsFeedback` | src/coding_agent_harness/core/harness.py:158-160 | a concrete first full test that timed out, on a workspace that did not change, and leaves the task deciding |
| `HarnessSteps.NothingAsked` | src/coding_agent_harness/core/harness.py:86-90 | a task that is not deciding is left as it is, and one without actions or feedback left is stopped, before the model is asked |
| `HarnessSteps.RefusedReply` | src/coding_agent_harness/core/harness.py:102-108 | an answer that is no action is counted and noted, and stops the task exactly if it was the last action allowed |
| `HarnessSteps.TooLongToNote` | src/coding_agent_harness/core/harness.py:179-181 | one too long for the history makes the step raise and leaves the session as it was |
| `HarnessSteps.HumanAsked` | src/coding_agent_harness/core/harness.py:109-111 | a request for a human is counted and noted and pauses the task |
| `HarnessSteps.UnpreparedPatch` | src/coding_agent_harness/core/harness.py:113-125 | a patch that cannot be prepared or resolved is noted with one of two messages, and the task goes on deciding |
| `HarnessSteps.DeniedPatch` | src/coding_agent_harness/core/harness.py:128-135 | a denied patch is noted with its reason, not executed, and stops the task exactly if it was the last action allowed: the whole session, reason and calls |
| `HarnessSteps.TestPatchDenied` | src/coding_agent_harness/core/harness.py:128-135 | an accepted diff that names a test asset is denied as `test_asset_protection`, whatever else it does |
| `HarnessSteps.PatchAwaitsApproval` | src/coding_agent_harness/core/harness.py:136-138 | a patch that needs approval waits for it, counted but neither noted nor executed |
| `HarnessSteps.PatchRaises` | src/coding_agent_harness/core/harness.py:139 | an allowed patch whose execution raises leaves the session as it was and is not tested |
| `HarnessSteps.PatchUnknown` | src/coding_agent_harness/core/harness.py:140-142 | an allowed patch of unknown outcome pauses the task untested and unnoted |
| `HarnessSteps.PatchTested` | src/coding_agent_harness/core/harness.py:139-163 | an allowed patch of known outcome, applied or not: both entries noted, the calls made in order, a pause on a changed workspace, and otherwise the result taken in |
| `HarnessSteps.TestsRun` | src/coding_agent_harness/core/harness.py:139-163 | requested tests: noted, with a pause on a changed workspace or an unknown outcome, and otherwise the result taken in for a focused or a full run |
| `HarnessSteps.ToolRun` | src/coding_agent_harness/core/harness.py:139-149 | any other tool is noted with its summary, and the task goes on deciding |
| `HarnessSteps.ExecutionTakenIn` | src/coding_agent_harness/core/harness.py:157-177 | what a result makes of a session, whole: it is recorded; a pass of a run that was not focused succeeds, a later environment error or unparseable output pauses, a failure seen before the last result or again on unchanged source stops, the last feedback allowed stops, and anything else goes on deciding |
| `HarnessSteps.PassingPatchSucceeds` | src/coding_agent_harness/core/harness.py:144-167 | the converse of `SuccessIsEarned`: whatever came before, an allowed patch carried out with a known outcome and passing evidence from its full test end in success |
| `HarnessSteps.PassingRunSucceeds` | src/coding_agent_harness/core/harness.py:157-177 | and so do requested full tests with passing evidence, while a focused run with it is feedback that only the budget can turn into a stop |
| `HarnessSteps.SucceedsExactly` | src/coding_agent_harness/core/harness.py:85-177 | when a step whose tests are run by pytest ends in success: if and only if there is passing evidence and it follows a request for full tests, or a patch prepared, allowed and carried out with a known outcome |
| `HarnessSteps.ExceptionsChangeNothing` | src/coding_agent_harness/core/harness.py:85-139 | an exception from the model call, the snapshot, the safety resolver or a tool ends the step and leaves the session as it was, the action uncounted |
| `HarnessSteps.TestsRaise` | src/coding_agent_harness/core/harness.py:144-145 | a full test that raises does so too, although the patch has been carried out |
| `HarnessLoop.InMemorySessionStore.Save` | src/coding_agent_harness/core/harness.py:61-62 | saving replaces that task's session and no other |
| `HarnessLoop.HarnessCore.Gate` | src/coding_agent_harness/core/harness.py:165-177 | the gate stores and reports what the feedback kind, the phase and the budget call for |
| `HarnessLoop.HarnessCore.TakeIn` | src/coding_agent_harness/core/harness.py:147-163 | taking in an execution updates the store as the step function says, drift and unparsed results included |
| `HarnessLoop.HarnessCore.JudgeAndExecute` | src/coding_agent_harness/core/harness.py:128-148 | judging, executing and testing make exactly the specified calls in order and store the specified session |
| `HarnessLoop.HarnessCore.StepReply` | src/coding_agent_harness/core/harness.py:101-128 | what follows the model's answer, for protocol errors, human requests, patches and tools |
| `HarnessLoop.HarnessCore.StepPatch` | src/coding_agent_harness/core/harness.py:112-128 | preparing a patch by the real scanner, resolving its safety and putting it to the policy |
| `HarnessLoop.HarnessCore.Step` | src/coding_agent_harness/core/harness.py:85-163 | one step on the store refines the step function on sessions: new session, outcome and calls; an exception leaves the store as it was |
| `HarnessLoop.StepProgress` | src/coding_agent_harness/core/harness.py:79-100 | whatever the session, a step that leaves it deciding used one of the remaining actions |
| `HarnessLoop.HarnessCore.Run` | src/coding_agent_harness/core/harness.py:79-83 | the loop ends whatever the collaborators answer, within the remaining actions plus one steps, in the session that many steps lead to, which is not deciding |
| `HarnessLoop.ApplicationService.RunSession` | src/coding_agent_harness/application/service.py:14-18 | running a session stores it and leaves what its steps lead to |
| `HarnessLoop.ApplicationService.ResumeTask` | src/coding_agent_harness/application/service.py:25-32 | only a task paused for a human is resumed, anything else changes nothing; a resumed one runs on from where it was, so the results over whole lives apply |
| `Trace.BuildTraceEvents` | src/coding_agent_harness/web/worker.py:252-315 | the loop over the history computes the defined trace, or fails exactly when that does |
| `Trace.TraceExists` | src/coding_agent_harness/web/worker.py:258-313 | a trace can be built exactly from histories made of patches, human requests, tests with a verdict and denials protecting the tests |
| `Trace.ToldCoherent` | src/coding_agent_harness/web/worker.py:273-293 | events are numbered from 0, each test is followed by its feedback and each feedback preceded by its test, and `initial_failure` marks exactly a first test that failed |
| `Trace.BuiltTraceIsCoherent` | src/coding_agent_harness/web/worker.py:252-315 | every built trace is coherent and has exactly one terminal status, at its end, that of the session |
| `TraceEntries.EveryEntryShown` | src/coding_agent_harness/web/worker.py:252-315 | each history entry is shown where the events of those before it end, as what it is: a patch, a human request, a test with its verdict and whether it is the first failure, or a denial for the protection of tests; the status comes last |
| `TraceVerdicts.VerdictShownExactly` | src/coding_agent_harness/web/worker.py:240-249 | the verdict a trace shows for a test is the parser's if and only if it is not a failing test whose own message reads, case apart, like one of the reserved summaries |
| `TraceVerdicts.FailureShownAsPassed` | src/coding_agent_harness/web/worker.py:240-249 | inputs for which it is not: a failing run whose one failure reads `pytest passed` is shown as passed |
| `TraceVerdicts.FailedLineShownAsPassed` | src/coding_agent_harness/web/worker.py:240-249 | the same for one concrete line of output and exit code 1, through the test runner and the parser |
| `TraceContract.TerminalEvents` | src/coding_agent_harness/web/trace.py:145-149 | the list of terminal events has the single element i exactly when position i holds the only terminal status |
| `TraceContract.Counts` | src/coding_agent_harness/web/trace.py:129-131 | the counting loop ends with the number of events of every type |
| `TraceContract.Validate` | src/coding_agent_harness/web/trace.py:121-152 | validation succeeds if and only if the trace meets the contract: length, numbering, counts, transitions, one terminal status at the end with the required status |
| `TraceContract.SatisfiesExactly` | src/coding_agent_harness/web/trace.py:121-152 | when a trace meets a contract, in terms of the trace: its length, its numbering, how many positions hold each type, which events follow which, and the one terminal status, last and as required |
| `TraceContract.FromEvents` | src/coding_agent_harness/web/trace.py:159-177 | the method computes the view of exactly the traces whose only terminal status is their last event, and the view passes its own validator |
| `TraceContract.ContractGivesView` | src/coding_agent_harness/web/trace.py:145-177 | `from_events` makes a view of every trace that meets a contract, with the status the contract requires |
| `TraceContract.BuiltTraceGivesView` | src/coding_agent_harness/web/trace.py:169-177 | `from_events` makes a view of every built trace, with the session's status |
| `TraceContract.FeedbackContractExactly` | src/coding_agent_harness/demo/scenarios.py:65-97 | a built trace of a paired history meets the `feedback_success` contract if and only if the history is two patches, each with its full test, and the session succeeded |
| `TraceContract.DeniedContractExactly` | src/coding_agent_harness/demo/scenarios.py:100-125 | the `governance_denied` contract is met if and only if the history is one denial protecting the tests and the session stopped |
| `TraceContract.PauseContractExactly` | src/coding_agent_harness/demo/scenarios.py:128-147 | the `human_review_pause` contract is met if and only if the history is one human request and the session paused |
| `RunProtocol.ReportedNext` | src/coding_agent_harness/web/run_service.py:633-637 | preferring by rank step by step reports the first of the gravest failures |
| `RunService.DemoRun.ConfirmGone` | src/coding_agent_harness/web/run_service.py:612-617 | only a confirmation that answers true counts; a raised or false one is a failure |
| `RunService.DemoRun.TerminateAndConfirm` | src/coding_agent_harness/web/run_service.py:619-631 | true exactly if the worker's end is confirmed; otherwise at least one failure is added, all of them `termination_unconfirmed` |
| `RunService.DemoRun.CreateRequestRoot` | src/coding_agent_harness/web/run_service.py:537-555 | a complete new root, or no root or one whose removal was attempted, with that attempt's success and the failures its exception stands for, after at most 16 tries |
| `RunService.DemoRun.CreateContents` | src/coding_agent_harness/web/run_service.py:545-554 | a root whose contents cannot be made is cleaned up, and a failure of that too is told apart |
| `RunService.DemoRun.Accepts` | src/coding_agent_harness/web/run_service.py:566-579 | the checks on a decoded result accept it exactly if it names the scenario, has at most 64 events and the status that the scenario expects and its contract requires, and meets the contract |
| `RunService.DemoRun.ReadWorkerResult` | src/coding_agent_harness/web/run_service.py:557-583 | the file stays open exactly when the result is acceptable for the scenario, contract included; otherwise it is closed and one failure is added |
| `RunService.DemoRun.Supervise` | src/coding_agent_harness/web/run_service.py:404-439 | waiting, killing, confirming and reading under any failure: the pending result stands for the failures so far, and a success has earned its view |
| `RunService.DemoRun.Body` | src/coding_agent_harness/web/run_service.py:375-443 | the body up to any exception: variables agree with the outside world, and the pending result, after the handler's preference, stands for the failures so far |
| `RunService.DemoRun.FinishWorker` | src/coding_agent_harness/web/run_service.py:445-467 | files first, then exactly one more attempt at a worker not confirmed dead, then the handles; a worker still unconfirmed makes the result `termination_unconfirmed` |
| `RunService.DemoRun.FinishDirectory` | src/coding_agent_harness/web/run_service.py:469-488 | the root is cleaned up if no worker may be alive in it and set aside otherwise |
| `RunService.DemoRun.Finish` | src/coding_agent_harness/web/run_service.py:444-492 | after the finalizer nothing is held or open, and a root is in place only if its removal or isolation was attempted and failed; on success it has been removed |
| `RunService.DemoRunService.RunScenario` | src/coding_agent_harness/web/run_service.py:361-501 | in every world: each call is safe where it is made and answered by that world, all is settled, the code reported is the first of least rank, `_prefer` is never reached with `busy`, and a view is returned if and only if no call is a failure, from an accepted result of a worker that ended by itself before the deadline, after its end was confirmed and its root cleaned up; in a world without faults in which the worker writes a fitting result for a registered scenario, exactly that result's view is returned |
| `RunSafety.AlwaysConsistent` | src/coding_agent_harness/web/run_service.py:444-492 | in every state that safe calls lead to, a live worker's root has not been removed and a root is set aside only with a worker given up on |
| `RunSafety.CleanedOrSetAside` | src/coding_agent_harness/web/run_service.py:469-488 | a settled run has tried to clean its root if and only if it made one and its worker was never started or is confirmed dead, and succeeded unless `cleanup_failed` is among its failures; it tried to set it aside if and only if the worker was started and never confirmed; never both; and then the code is `termination_unconfirmed` |
| `RunSafety.LockDiscipline` | src/coding_agent_harness/web/run_service.py:376-379 | the lock is tried once and first, and released once and last if and only if it was acquired; a run refused the lock makes no other call |
| `RunSafety.BusyDoesNothing` | src/coding_agent_harness/web/run_service.py:376-377 | `busy` is among a run's failures exactly when being refused the lock was all it did |
| `RunSafety.ViewEvidence` | src/coding_agent_harness/web/run_service.py:444-501 | what a returned view stands on: a started and confirmed worker, its handles closed, its root removed, no timeout and no failed kill |
| `RunFailures.FailuresExactly` | src/coding_agent_harness/web/run_service.py:375-492 | a run has had a failure of some kind if and only if one of its calls is one, told from the calls alone: for each of the seven codes which calls, answers and clock readings (60 seconds after the first) are that |
| `RunFailures.ReportedExactly` | src/coding_agent_harness/web/run_service.py:58-66 | which failure is reported: an unconfirmed end of the worker if there is one, else a failed cleanup, else the first failure of the run |
| `RunFailures.KillsAreAwaited` | src/coding_agent_harness/web/run_service.py:619-631 | each attempt to end the worker is followed at once by waiting for its root process; the worker's end is asked for only after both succeeded, or before any attempt after it left by itself within the 60 seconds |
| `RunFailures.SetAsideAfterKills` | src/coding_agent_harness/web/run_service.py:450-460 | a root is set aside only after the worker has been asked to end, and twice if it was late or its end could not be confirmed although it seemed to have left |
| `RunService.NothingFails` | src/coding_agent_harness/web/run_service.py:375-492 | in a world where the lock is free, every call succeeds, the clock stays within 60 seconds and the worker writes a fitting result for a registered scenario, no call of the run is a failure |
| `RunInterleaving.InterleavedIsLawful` | src/coding_agent_harness/web/run_service.py:361-492 | any number of callers, each at any point of what `RunScenario` ensures of its calls, interleaved in any way, with a lock granted only when free and directories new when made: every act is safe in the state its own caller's calls have led to |
| `RunInterleaving.HolderHolds` | src/coding_agent_harness/web/run_service.py:376-379 | at every point the lock is held by the one caller that acquired and has not released it |
| `RunInterleaving.MutualExclusion` | src/coding_agent_harness/web/run_service.py:376-379 | at most one caller is between acquisition and release |
| `RunInterleaving.OthersOnlyTry` | src/coding_agent_harness/web/run_service.py:376-379 | while a caller holds the lock all others can do is fail to get it: no root, no process |
| `RunInterleaving.RootsAreOwn` | src/coding_agent_harness/web/run_service.py:537-555 | a root a run has is one that it made itself |
| `RunInterleaving.NoLiveRootRemoved` | src/coding_agent_harness/web/run_service.py:474-481 | in every interleaving, whenever a root is removed no caller has a worker there whose end is unconfirmed |
| `DemoScenarios.SmallEditAllowed` | src/coding_agent_harness/demo/scenarios.py:150-178 | a small change of one ordinary file, written as a diff, is prepared and allowed |
| `DemoScenarios.FeedbackSucceeds` | src/coding_agent_harness/demo/scenarios.py:220-231 | `feedback_success` through the agent loop: a first patch whose full test fails and a second whose full test passes end in success after two actions, with exactly these four entries |
| `DemoScenarios.DenialStops` | src/coding_agent_harness/demo/scenarios.py:232-242 | `governance_denied`: a patch to a test, the only action allowed, is denied and stops the task |
| `DemoScenarios.RequestPauses` | src/coding_agent_harness/demo/scenarios.py:243-258 | `human_review_pause`: a request for a human pauses the task |
| `DemoScenarios.FeedbackWritten` | src/coding_agent_harness/web/worker.py:470-499 | the seven events built of the first of these sessions, which the service accepts for its scenario |
| `DemoScenarios.DenialWritten` | src/coding_agent_harness/web/worker.py:470-499 | the three events of the second |
| `DemoScenarios.PauseWritten` | src/coding_agent_harness/web/worker.py:470-499 | the two events of the third |
| `DemoScenarios.Demonstrate` | src/coding_agent_harness/web/run_service.py:361-501 | a run of the service over the three fixed scenarios returns exactly the view of the trace written, if nothing fails |
| `StateStore.SQLiteStateStore.Rollback` | src/coding_agent_harness/adapters/sqlite/state_store.py:142-144 | the tables are those at the start of the open transaction, if one is open |
| `StateStore.SQLiteStateStore.CreateTask` | src/coding_agent_harness/adapters/sqlite/state_store.py:31-32 | a task is inserted once; a second insertion is an integrity error and changes nothing |
| `StateStore.SQLiteStateStore.CompareAndSetTaskStatus` | src/coding_agent_harness/adapters/sqlite/state_store.py:49-51 | the status moves exactly when it was the expected one |
| `StateStore.SQLiteStateStore.CreateAction` | src/coding_agent_harness/adapters/sqlite/state_store.py:53-54 | an action is inserted once and only for a task there is |
| `StateStore.SQLiteStateStore.CompareAndSetActionStatus` | src/coding_agent_harness/adapters/sqlite/state_store.py:62-64 | the status moves exactly when it was the expected one |
| `StateStore.SQLiteStateStore.CreateApproval` | src/coding_agent_harness/adapters/sqlite/state_store.py:99-100 | an approval is inserted once and only for an action there is |
| `StateStore.SQLiteStateStore.RecordApprovalDecision` | src/coding_agent_harness/adapters/sqlite/state_store.py:108-109 | a decision is recorded only on a pending approval and is silently dropped otherwise |
| `StateStore.SQLiteStateStore.LogIntent` | src/coding_agent_harness/adapters/sqlite/state_store.py:111-115 | an intent is inserted once a key and only for an action there is |
| `StateStore.SQLiteStateStore.RecoverInflight` | src/coding_agent_harness/adapters/sqlite/state_store.py:149-150 | exactly the executing actions get an unknown outcome |
| `StateStore.SQLiteStateStore.ConsumeApproval` | src/coding_agent_harness/adapters/sqlite/state_store.py:117-144 | for a failure of any statement: the specified effect, or a database error and no effect; without failures never a database error |
| `StateStore.SQLiteStateStore.AnyActive` | src/coding_agent_harness/adapters/sqlite/state_store.py:78-81 | the one row fetched has an unexpired lease, and none is fetched only if there is none |
| `StateStore.SQLiteStateStore.AcquireLease` | src/coding_agent_harness/adapters/sqlite/state_store.py:66-97 | for a failure of any statement and whichever active row is fetched: the specified effect or none |
| `StateStoreEffects.TaskCreated` | src/coding_agent_harness/adapters/sqlite/state_store.py:31-32 | row by row: a new task with that status and no lease, or an integrity error, and nothing else changed |
| `StateStoreEffects.TaskMoved` | src/coding_agent_harness/adapters/sqlite/state_store.py:49-51 | row by row: that task's status, its lease kept, and nothing else changed |
| `StateStoreEffects.ActionCreated` | src/coding_agent_harness/adapters/sqlite/state_store.py:53-54 | row by row: a new action with that status, only once and under a task there is |
| `StateStoreEffects.ActionMoved` | src/coding_agent_harness/adapters/sqlite/state_store.py:62-64 | row by row: that action's status exactly from the expected one |
| `StateStoreEffects.ApprovalCreated` | src/coding_agent_harness/adapters/sqlite/state_store.py:99-100 | row by row: a new approval with that status, only once and for an action there is |
| `StateStoreEffects.DecisionRecorded` | src/coding_agent_harness/adapters/sqlite/state_store.py:108-109 | the decision stored is the one given, on a pending approval and no other row; otherwise nothing changes |
| `StateStoreEffects.IntentLogged` | src/coding_agent_harness/adapters/sqlite/state_store.py:111-115 | that intent is added, once and for an action there is, and nothing else changed |
| `StateStoreEffects.InflightRecovered` | src/coding_agent_harness/adapters/sqlite/state_store.py:149-150 | every executing action gets an unknown outcome, every other row stays |
| `StateStoreEffects.ApprovalConsumed` | src/coding_agent_harness/adapters/sqlite/state_store.py:117-141 | the reply by the states of approval, action and intent, and on success exactly those three rows changed |
| `StateStoreEffects.GrantedOrDenied` | src/coding_agent_harness/adapters/sqlite/state_store.py:99-141 | an approval from its creation on: consumed, its action executing and its intent on record, if and only if the decision was to approve |
| `StateStoreEffects.LeaseTaken` | src/coding_agent_harness/adapters/sqlite/state_store.py:66-97 | a lease is granted only on a task whose own has run out or is the owner's, and after it has run out only while no other task has one; it is refused only for lack of that; it lasts from the reading for the given time, one that ends just then being unexpired, and nothing else changes |
| `StateStoreRuns.OneIntentEver` | src/coding_agent_harness/adapters/sqlite/state_store.py:111-139 | over every sequence of operations a key's intent is inserted at most once, and is there exactly if it was |
| `StateStoreRuns.ConsumedAtMostOnce` | src/coding_agent_harness/adapters/sqlite/state_store.py:117-141 | `consume_approval` answers true at most once a key in every run |
| `StateStoreRuns.ConsumptionIsAllOrNothing` | src/coding_agent_harness/adapters/sqlite/state_store.py:117-144 | true, which without failures means approved, waiting, no intent and the right target, moves approval, action and intent together and nothing else; any other answer leaves all tables as they were |
| `StateStoreRuns.ReferencesHold` | src/coding_agent_harness/adapters/sqlite/schema.sql:3-12 | in every reachable store approvals and intents belong to actions and actions to tasks |
| `StateStoreRuns.ConsumedStays` | src/coding_agent_harness/adapters/sqlite/state_store.py:108-141 | a consumed approval stays consumed in every run |
| `StateStoreRuns.CrashAfterConsumption` | src/coding_agent_harness/adapters/sqlite/state_store.py:149-150 | after a crash between consumption and outcome, recovery leaves the action with an unknown outcome and the approval consumed, and it is never consumed again |
| `StateStoreRuns.AnyRowWillDo` | src/coding_agent_harness/adapters/sqlite/state_store.py:78-91 | when at most one lease is unexpired, looking at any one such row decides as looking at all of them would |
| `StateStoreRuns.OnlyRenewalsGetIn` | src/coding_agent_harness/adapters/sqlite/state_store.py:78-91 | while another task has an unexpired lease, a lease can be taken if and only if the task's own is unexpired too at the time read and has the same owner |
| `StateStoreRuns.StepLease` | src/coding_agent_harness/adapters/sqlite/state_store.py:66-97 | an operation leaves at most one unexpired lease at the time of its transaction if and only if it does not take one that outlasts the transaction while another task has one |
| `StateStoreRuns.OneLeaseExactly` | src/coding_agent_harness/adapters/sqlite/state_store.py:66-97 | in real time, with readings taken any time before their transactions, at most one lease is unexpired at every transaction of a run if and only if no operation intrudes in that way |
| `StateStoreRuns.AtMostOneLease` | src/coding_agent_harness/adapters/sqlite/state_store.py:66-97 | if clock readings come in the order of the transactions, at most one task, with one owner, has an unexpired lease in every reachable store at every time from the latest reading on |
| `StateStoreRuns.LeaseInForce` | src/coding_agent_harness/adapters/sqlite/state_store.py:86-91 | in whatever order clocks are read, a lease stays in the store as it was taken up to its end, unless its owner takes it again |
| `StateStoreRuns.OnlyRenewalsIntrude` | src/coding_agent_harness/adapters/sqlite/state_store.py:66-97 | in whatever order clocks are read, nobody else takes a lease having read a time up to its end, except by renewing a lease on another task that is unexpired at that reading too |
| `StateStoreRuns.LeaseExcludesOthers` | src/coding_agent_harness/adapters/sqlite/state_store.py:66-97 | if clock readings come in the order of the transactions, no other task or owner takes a lease at any time up to its end |
| `StateStoreRuns.LateRenewalIntrudes` | src/coding_agent_harness/adapters/sqlite/state_store.py:67-71 | a whole run in real time, no clock going back, whose last transaction waited for its turn: a renewal read at 101 goes through at 104 after another task was leased at 103, and two leases are unexpired |
| `StateStoreRuns.ClockSetBack` | src/coding_agent_harness/adapters/sqlite/state_store.py:67-91 | a whole run in which nobody intrudes but the clock goes back, and two leases are unexpired at the latest reading |

## Left out

- RenamedSection: sections with two different file names are covered one at a time, and are not among the sections of the round trips.
- ScanEdits, PrepareInvertsRendering, RoundTripExactly: texts with a line break other than newline inside a line are outside the scripts considered; `FormFeedIsMisread` shows such an input being refused.
- Compensate, Apply: leftover temporary files and created parent directories are not taken back, and what is restored is the files; not covered is a change made between the check loop and the write loop, which the code does not look for again.
- Launch: the two draining threads run one after the other, and what they miss after their time limit is not modelled.
- RunPytest: artifact storage, the clock, argument checks and the cleaning of the environment.
- ParsePytest: the regular expressions themselves, redaction and summary normalisation.
- EveryLifeIsGoverned: what is in the context built for the model, and parsing its JSON answer into an action.
- RunScenario: the contents of the worker's command line, environment and configuration, JSON decoding and size limit of the result file, and the removal of a directory tree step by step.
- NoLiveRootRemoved: that a worker whose end was confirmed is really gone, which is what the operating system calls behind the confirmation are trusted for.
- AcquireLease: text comparison of lease times, and connections with an implicit open transaction.
- The read-only queries of the state store, migrations, audit events, memory and artifact tables.
- The session store backed by files, configuration resolution, the action dispatcher, trust and approval bindings: thin maps and plain equality.
- Process boundaries, Git worktrees, access control lists, the HTTP application, templates, the command line, the model client and the keyring: foreign calls and user interface.
