# A Dafny model of the integration test framework's shell, stream and process code

The framework starts commands on targets through shells (in a container, over SSH, from a generated launcher), reads what
they print through channels and queues, and manages the life of their processes. This project models these parts in Dafny 4.11
and proves what each of them is there for. `dafny verify dfyconfig.toml` checks the whole project.

## What is modelled

| file | code | main results |
|---|---|---|
| `ShellGrammar.dfy` | the POSIX token scanner (IEEE Std 1003.1, sections 2.2.1 to 2.2.3 and 2.3) | the independent reference that all generated shell text is read back with; unquoted text is one literal word if and only if it holds nothing special |
| `ShellQuoting.dfy` | `shlex.quote`, the nested commands of the Docker target, the QEMU target and the SSH client | printing and then scanning gives back exactly the arguments, on both levels, if and only if the binary path leaves the scanner outside of quotes, escapes and comments |
| `Launcher.dfy` | the launcher script of the Bazel rule | escaping and then scanning gives back exactly the arguments, if and only if none holds a `$` or a backquote; import paths without repetitions, in order |
| `Utf8.dfy` | UTF-8 (RFC 3629) and decoding with replacement | encoding undoes decoding exactly on well-formed bytes, also chunk by chunk |
| `ChannelLines.dfy` | the incremental line splitter | for every cut into chunks the result is the one-shot `splitlines` of the whole |
| `PythonShlex.dfy` | `shlex.split`, with which docker-py cuts the text of `exec_run` | splitting quoted and joined arguments gives back the arguments |
| `SshChannel.dfy` | an SSH channel over an arbitrary schedule | what has arrived and what was read, accounted for step by step of the schedule; a wait that nothing ends takes its whole length |
| `SshReadLoop.dfy` | the read loop with deadline and drain phase, and its callers | for every schedule: lines are those of what was read; every pass within the deadline looks at each captured stream, and at every end, by the deadline too, 32768 bytes for each pass have been read of what was waiting before; waits stay within the deadline, and the loop ends |
| `SshLoss.dfy` | what the loop loses at its end | a normal end has read exactly what was delivered before the last check, and nothing is lost if and only if the schedule is silent from then on, which has been the case for a whole wait; a command that never ends times out with its output |
| `SshExecute.dfy` | `execute` on top of it | the output is byte for byte what was read if and only if no chunk cuts a character; schedules on which that is so, and one on which it is not |
| `LineQueue.dfy` | the bounded queue, as a class with a ghost history | every item has exactly one fate, deliveries follow put order, puts keep the newest items that the bound allows, nothing is evicted or skipped if and only if the producer is never too far ahead |
| `QueueMonitor.dfy` | its lock and condition variable, as a transition system with any number of threads | no wakeup is lost in any run, waiters are notified in the order in which they came, the mode of a call decides who waits and who gives up; every run is one of the sequential queue |
| `Matching.dfy` | `read_cond`, `read_until`, `mark` | the shortest prefix in which any, or all, of the expressions are matched is consumed; greedy matching is complete and earliest |
| `ShellCommandProtocol.dfy` | `run_sh_cmd_output` | every outcome is decided by the first line with the marker that is not taken for an echo; exit code and output come back if and only if the last line does not contain the command; which commands can return at all |
| `ConsoleQueue.dfy` | the matchers on top of the queue | `mark` and `run_sh_cmd_output` decide about the lines that were put, when the reader keeps up |
| `TerminalCleanup.dfy` | `try_to_decode` | what both passes remove, byte by byte; every carriage return in the result is followed by a line feed |
| `AsyncOutput.dfy` | the output threads, `get_output` and the PID line of asynchronous commands | the exact output, line by line, for every cut into chunks, and so its visible characters; when the PID is read correctly |
| `QemuAsync.dfy` | `execute_async` of the QEMU target over the channel | the first line is the PID, and the output is exactly what follows it, stripped chunk by chunk |
| `AsyncProcess.dfy` | `wait` and `stop` of both handles, `WrappedProcess` | what each call does, look by look and sleep by sleep; safety over all sequences of calls |
| `SigtermHandlers.dfy` | `ProcessWrapper` and the one SIGTERM handler | the handler is restored through any nesting, with kills, restarts, signals and exceptions inside; exactly when it is after a failed start, an exit that raises, and a second entry |
| `SftpTree.dfy`, `SftpMkdir.dfy`, `SftpCopy.dfy` | `walk`, `upload_dir`, `download_dir`, and the unquoted shell command that makes remote directories | upload and then download gives the tree minus its empty directories, each file in a directory that was made; the upload raises if and only if a directory is not plain, where the words of all commands are known |
| `Text.dfy` | Python's string operations | join and split undo each other, stripping leaves the middle, decimal print and parse |

Code that changes state step by step is a class or a method with loops: the channel and its read loop, the queue, the matchers, the
process handles, the wrappers with the shared signal table, the copy loops. Expressions and generators are functions. Everything
foreign is an environment: before every call on a channel or a process an arbitrary schedule (`env: nat -> EnvStep`, universally
quantified) may deliver bytes, let the command exit, let time pass or make the call fail. Matching a line against an
expression is an arbitrary predicate. Times are in milliseconds.

In shell words a symbol is literal or *active*: a character that the shell may still interpret (`$`, a backquote, and unquoted
`*`, `?`, `[`, `~`, `{`). "Exactly the arguments" means that every symbol is literal and is the argument's own character.

## Where the code does not do what one would expect

- score/itf/core/com/ssh.py:300-302 says that draining goes on until the end of the stream. The code stops at the first look after the
  exit that finds nothing buffered, even when the end was not received. It has then waited for 500 ms, or the time left, without anything
  arriving, or for 50 ms after an error (`DrainWaits`). What is delivered after such a wait is lost, although the call ends normally (`LateBytesAreLost`,
  `LateRun`); nothing is lost if and only if the schedule is silent from the last check on (`FinishedReadsAll`), and nothing is when the end of the
  streams was what ended the wait (`EndOfStreamReadsAll`).
- `execute` decodes chunk by chunk. A text of more than 32768 bytes comes back changed when a read cuts one of its characters (`CutRun`).
- `run_sh_cmd_output` takes the line with the exit code for an echo if it contains the command (`RoundTrip`). A command such as `true` is
  fine, but one that is part of `XTF_DONE=`, such as `=` or the empty one, returns on no stream of lines, and all others do on some
  (`ReturnsExactly`).
- `upload` does not quote the remote directory that it hands to the shell (score/itf/core/com/sftp.py:123-124). A directory with a
  blank becomes two words (`BlankSplitsDirectory`) and its upload raises (`BlankUploadRaises`). A directory, absolute or relative, that is not there and
  whose command is known word by word is made if and only if nothing in its name means anything to the shell (`MadeExactlyWhenPlain`).
- The first pass of `try_to_decode` takes the byte behind a stray carriage return along, whatever it is. If that is an escape, the rest of a mode switch stays in
  the line (`RemoveCrFirst`, `StrayCrCutsMode`).
- The Docker target takes the PID from the first chunk on stdout alone. A chunk that ends among its digits gives a smaller number
  without any error (`DockerPid`, if and only if).
- A `WrappedProcess` that does not wait and finds its command already gone reads the exit code without joining the output thread, and leaves
  the SSH session of a QEMU target open. Whether it will is known before the call (`HandleProcessExit`, `Exit`, if and only if).
- A `ProcessWrapper` restores no handler when its start fails. Entered again while it is in use, it restores the original handler if and
  only if that is the one in force at the second entry (`BlockRestoresExactly`, `ReentryRestoresExactly`).

## Model

| member | source | states |
|---|---|---|
| ShellGrammar.RunConcat | score/itf/plugins/docker.py:162-172 | scanning a text in two parts is scanning it as a whole, which is what lets a command be put together from pieces |
| ShellGrammar.Characters | score/itf/core/com/ssh.py:175 | the blanks, operators and special characters of the scanner, listed |
| ShellGrammar.Escapes | bazel/py_itf_test.bzl:87 | what a backslash does outside of quotes and inside of double quotes, which is what the launcher relies on |
| ShellGrammar.ScanAfter | score/itf/core/com/ssh.py:175 | text after a finished prefix keeps the tokens that it has on its own, and its errors |
| ShellGrammar.LiteralWord | score/itf/core/com/sftp.py:123-124 | unquoted text is one literal word if and only if it has no blank, operator, quote, backslash, expansion or leading # |
| ShellQuoting.QuoteScan | score/itf/plugins/docker.py:147 | a quoted argument adds exactly its own characters to the current word, wherever the scanner is outside of quotes |
| ShellQuoting.QuoteForm | score/itf/plugins/docker.py:147 | a text comes back unchanged if and only if it is not empty and all its characters are safe, and otherwise in single quotes |
| ShellQuoting.SafeIsListed | score/itf/plugins/docker.py:147 | the safe characters, listed |
| ShellQuoting.QuotedArgsScan | score/itf/plugins/docker.py:162 | quoted arguments joined by blanks scan to exactly these arguments, empty ones and line feeds included |
| ShellQuoting.CommandTokens | score/itf/plugins/docker.py:162 | one or more arguments follow the tokens of the binary path, each as one literal word, if and only if that path leaves the scanner outside of quotes, escapes and comments |
| ShellQuoting.CommandWithoutArgs | score/itf/plugins/qemu/qemu_target.py:164-166 | without arguments the trailing blank changes no token |
| ShellQuoting.CommandScan | score/itf/plugins/qemu/qemu_target.py:164-166 | both cases together, for every list of arguments |
| ShellQuoting.DockerNested | score/itf/plugins/docker.py:160-175 | the outer shell sees the inner command as one literal word, and the inner shell sees the binary path and exactly the arguments |
| PythonShlex.SplitJoined | score/itf/plugins/docker.py:147 | `shlex.split` of quoted arguments joined by blanks gives exactly these arguments |
| PythonShlex.QuoteRun | score/itf/plugins/docker.py:147 | a quoted text adds exactly its own characters to the word that `shlex.split` is building |
| PythonShlex.Characters | score/itf/plugins/docker.py:147 | where words end, and what a backslash does |
| PythonShlex.DockerExecuteWords | score/itf/plugins/docker.py:146-147 | the text of `execute`, cut by `shlex.split`, is `/bin/sh`, `-c` and the command as one word |
| ShellQuoting.CommandWithEtcKeepsCommand | score/itf/core/com/ssh.py:173-178 | the login shell gets one literal word, in which the command keeps its tokens behind the profile prefix, and its scan errors |
| ShellQuoting.QemuNested | score/itf/plugins/qemu/qemu_target.py:164-177 | both levels for the login shell: profile prefix, PID echo, `cd` with the directory as one literal word, then the binary path and exactly the arguments |
| ShellQuoting.FixedTexts | score/itf/plugins/docker.py:172 | the prefix of the model is the literal text of the source |
| ShellQuoting.FixedTestText | score/itf/core/com/ssh.py:175 | the same for the test of the profile |
| ShellQuoting.FixedSourceText | score/itf/core/com/ssh.py:175 | the same for sourcing it |
| ShellQuoting.FixedChangeDirectory | score/itf/plugins/qemu/qemu_target.py:174-176 | the same for the change of directory |
| Launcher.EscapeDoubleCons | bazel/py_itf_test.bzl:87 | the two replacements in sequence escape each character on its own: backslashes first, so that none is escaped twice |
| Launcher.DoubleQuoteScan | bazel/py_itf_test.bzl:87 | between double quotes only `$` and backquotes of the argument stay active, everything else is literal |
| Launcher.LauncherRoundTrip | bazel/py_itf_test.bzl:87 | every argument comes back as one word, in order |
| Launcher.LauncherLiteral | bazel/py_itf_test.bzl:87 | the arguments come back exactly if and only if none holds a `$` or a backquote |
| Launcher.ExecLineWords | bazel/py_itf_test.bzl:102-108 | the exec line scans to the program, the arguments and the caller's own arguments |
| Launcher.FixedExecLine | bazel/py_itf_test.bzl:102-108 | the exec line of the model is the literal text of the source, workspace before binary |
| Launcher.ExecHeadWords | bazel/py_itf_test.bzl:102-108 | names without quotes and backslashes make the program one word: the runfiles directory, the workspace and the binary |
| Launcher.UniqueImports | bazel/py_itf_test.bzl:78-83 | the loop computes the first occurrences |
| Launcher.UniqueImportsMeaning | bazel/py_itf_test.bzl:78-83 | nothing lost, nothing invented, nothing twice, in the order of first occurrence |
| Utf8.DecodeEncoded | score/itf/plugins/qemu/qemu_target.py:141 | decoding gives back every text that was encoded, and encodings are well formed |
| Utf8.EncodeDecoded | score/itf/core/com/ssh.py:223 | decoding with replacement and encoding again is the identity if and only if the bytes are well formed (RFC 3629, section 4) |
| Utf8.CutCharacter | score/itf/core/com/ssh.py:223 | the beginning of a character that is not continued is replaced as a whole, by one U+FFFD, and decoding goes on behind it |
| Utf8.CutBetweenChunks | score/itf/core/com/ssh.py:223 | a character cut between two chunks becomes one U+FFFD in the first and one for each of its other bytes in the second |
| Utf8.StrayByte | score/itf/core/com/ssh.py:223 | a byte that cannot start a character is replaced on its own |
| Utf8.ChunkwiseFidelity | score/itf/core/com/ssh.py:223 | decoded chunk by chunk the bytes survive if and only if every chunk is well formed on its own |
| ChannelLines.SplitLinesUnique | score/itf/core/com/ssh.py:224 | only one cut of a text has terminated lines, no cut terminator and nothing else, and `splitlines` finds it |
| ChannelLines.SplitLinesMeaning | score/itf/core/com/ssh.py:224 | `splitlines` gives such a cut, and its lines join to the text |
| ChannelLines.BreakIsListed | score/itf/core/com/ssh.py:224 | the line boundaries of `splitlines`, listed |
| ChannelLines.SplitLinesAppend | score/itf/core/com/ssh.py:223-225 | when a text grows only its last line can change, and not if that ends in a line feed |
| ChannelLines.PartialIsOneLine | score/itf/core/com/ssh.py:225-228 | what is held back is at most one line and never ends in a line feed |
| ChannelLines.FlushHoldBack | score/itf/core/com/ssh.py:353-357 | flushing what is held back gives the lines of the whole text |
| ChannelLines.FeedHoldBack | score/itf/core/com/ssh.py:217-229 | one more chunk leads to the state that the longer text gives at once |
| ChannelLines.ChunkingIndependence | score/itf/core/com/ssh.py:217-229 | for every cut into chunks, between `\r` and `\n` too, the splitter ends in the state of the whole text |
| ChannelLines.FlushedLines | score/itf/core/com/ssh.py:347-357 | folding over any chunks and flushing is one-shot `splitlines` |
| SshChannel.NextValid | score/itf/core/com/ssh.py:271-345 | in every step of every schedule, what has been read and what is buffered are together exactly what was delivered |
| SshChannel.ReadyValid | score/itf/core/com/ssh.py:278 | a readiness check that finds nothing means that all that was delivered before it has been read |
| SshChannel.RecvValid | score/itf/core/com/ssh.py:279 | a read moves the next bytes from the buffer to what was read, or raises and moves nothing |
| SshChannel.CompleteExactly | score/itf/core/com/ssh.py:299-333 | deliveries are complete by a step if and only if the schedule is silent from that step on |
| SshChannel.Channel.SetCombineStderr | score/itf/core/com/ssh.py:257-260 | merged, what is buffered for stderr follows what is buffered for stdout and stderr is empty; from then on every step delivers to stdout what it delivers to either, and otherwise each stream keeps its own |
| SshChannel.WaitValid | score/itf/core/com/ssh.py:303-308 | a wait, and the sleep after one that fails, reads nothing and keeps the account of what arrived |
| SshReadLoop.ReadReady | score/itf/core/com/ssh.py:278-297 | the code does what the specification of one look says, state, lines and partials included |
| SshReadLoop.Iterate | score/itf/core/com/ssh.py:271-345 | the code does what the specification of one pass says |
| SshReadLoop.AskForExit | score/itf/core/com/ssh.py:299-345 | the same for its second half: drain, wait, or neither |
| SshReadLoop.DrainOnce | score/itf/core/com/ssh.py:299-333 | the same for the look after the exit |
| SshReadLoop.RunLoop | score/itf/core/com/ssh.py:271-345 | the loop is the specification's run, and ends because the clock advances |
| SshReadLoop.LookBothKeeps | score/itf/core/com/ssh.py:278-297 | a look keeps the lines those of what was read; when it finds nothing, every captured stream is drained |
| SshReadLoop.PassKeeps | score/itf/core/com/ssh.py:271-345 | a pass keeps the account, the lines and the bound on the waits, and stops only for the reason it gives |
| SshReadLoop.RunKeeps | score/itf/core/com/ssh.py:271-345 | so does a whole run |
| SshReadLoop.PassLooks | score/itf/core/com/ssh.py:271-297 | a pass that begins within the deadline and does not fail looks at every captured stream, and reads all that is waiting there or at least 32768 bytes of it |
| SshReadLoop.PassTimesOut | score/itf/core/com/ssh.py:272-274 | a pass ends by the deadline if and only if its own reading of the clock is past it, and then reads nothing |
| SshReadLoop.IdlePassWaits | score/itf/core/com/ssh.py:335-345 | a pass that goes on without having read anything has waited 500 ms or the time left, and slept 50 ms or the time left if that wait failed |
| SshReadLoop.WaitingIsRead | score/itf/core/com/ssh.py:278-297 | a pass that finds something waiting at its start reads it and does not wait |
| SshReadLoop.FailedLookSparesStderr | score/itf/core/com/ssh.py:278-297 | stdout comes first: a look that fails has read nothing from stderr |
| SshReadLoop.RunReads | score/itf/core/com/ssh.py:271-357 | however a run ends, what was waiting behind any of its passes has been read, up to 32768 bytes for each pass that went on from there |
| SshReadLoop.ReadOutputWithTimeout | score/itf/core/com/ssh.py:232-357 | for every schedule: both exits return the `splitlines` of exactly what was read per stream; at every exit, the one by the deadline too, 32768 bytes for each later pass have been read of what was waiting on each captured stream; a normal end saw the exit status and has read exactly what was delivered before the last check of each captured stream, which came after that; a timeout comes only after the deadline, any other exception if and only if a read raised; no wait reaches beyond the deadline; stderr is merged into stdout unless wanted separately |
| SshReadLoop.DrainWaits | score/itf/core/com/ssh.py:299-333 | the loop stops after the exit only behind a wait of 500 ms or the time left in which nothing arrived, or a pause of 50 ms after an error, or the end of the streams |
| SshLoss.NothingLost | score/itf/core/com/ssh.py:299-333 | a drained stream has given up all that is ever delivered if and only if the schedule is silent from its last check on |
| SshLoss.FinishedReadsAll | score/itf/core/com/ssh.py:271-357 | the same at the end of every run that ends normally, for each captured stream |
| SshLoss.SilentBeforeExitReadsAll | score/itf/core/com/ssh.py:271-357 | a condition on the schedule alone: a stream that is silent since before the command exited has been read to its end whenever the call ends normally |
| SshLoss.EndOfStreamReadsAll | score/itf/core/com/ssh.py:299-333 | a normal end whose last wait was ended by the end of the streams has read everything |
| SshLoss.QuietExit | score/itf/core/com/ssh.py:271-333 | when the command exits at once and nothing arrives in nine steps, whatever time they take, the call has ended normally by then |
| SshLoss.LateBytesAreLost | score/itf/core/com/ssh.py:299-333 | whatever is delivered after such a beginning, and so after the wait, is lost although the call ends normally, contrary to the comment |
| SshLoss.LateRun | score/itf/core/com/ssh.py:299-333 | a schedule of this kind: a whole wait of 500 ms or the time left passes after the exit, and the output comes after it |
| SshLoss.TimeoutKeepsOutput | score/itf/core/com/ssh.py:272-297 | a command that never exits times out, and what each captured stream brought before the first pass comes back: all of it, or 32768 bytes |
| SshLoss.EnoughPassesReadAll | score/itf/core/com/ssh.py:271-357 | with enough passes left at 32768 bytes each, nothing that had arrived by some pass is missing at the end, however the run ends |
| SshReadLoop.ExecuteCommandOutput | score/itf/core/com/ssh.py:178-197 | the exit status, or -1 unless the loop ended normally; the channel is closed in every case, and both streams were read as far as the passes allowed |
| SshExecute.Execute | score/itf/plugins/qemu/qemu_target.py:129-142 | the output is byte for byte what was read if and only if every chunk is well-formed UTF-8, which is so when all deliveries are and eight steps never bring more than one read takes; on a normal end that is exactly what was delivered before the last check |
| SshExecute.GentleRun | score/itf/core/com/ssh.py:278-297 | on such schedules every chunk that is read is well formed |
| SshExecute.CutRun | score/itf/core/com/ssh.py:278-280 | a well-formed text whose first 32768 bytes are not: delivered at once, its first chunk is ill formed |
| SshExecute.CutTextIsText | score/itf/core/com/ssh.py:279 | there is such a text for every limit |
| SshExecute.WellFormedChunks | score/itf/core/com/ssh.py:223 | the well-formed chunks are exactly those cut at character boundaries of a text |
| SshExecute.JoinedLines | score/itf/plugins/qemu/qemu_target.py:141 | joining the lines gives back the text |
| LineQueue.Conservation | score/itf/core/process/console.py:330-369 | in every run: one fate for each item put, `get` returns exactly the delivered items in put order, and the contents are a bounded suffix of the puts |
| LineQueue.StepDelivers | score/itf/core/process/console.py:347-365 | only `get` delivers, and it delivers the oldest queued item |
| LineQueue.PutKeepsNewest | score/itf/core/process/console.py:340-345 | a put leaves the longest suffix that the bound allows of what was queued and the new item; only what is dropped by that counts as evicted, and no other fate changes |
| LineQueue.BurstKeepsNewest | score/itf/core/process/console.py:340-345 | any number of puts at any point of a run leave the newest items of what was queued and what was put |
| LineQueue.PutsAlone | score/itf/core/process/console.py:340-345 | with puts alone the contents are the last items put, as many as the bound allows |
| LineQueue.NoEviction | score/itf/core/process/console.py:342-343 | nothing is evicted if and only if the producer is never more than the bound ahead, and the bound is then invisible |
| LineQueue.NothingSkipped | score/itf/core/process/console.py:340-365 | without clears, what `get` returned and what is queued are what was put, in order and without gaps, if and only if the reader keeps up |
| LineQueue.ClearStartsAfresh | score/itf/core/process/console.py:367-369 | after a clear the queue behaves like a new one: nothing from before is delivered |
| LineQueue.LineReaderQueue.constructor | score/itf/core/process/console.py:330-338 | starts empty with the given bound |
| LineQueue.LineReaderQueue.Put | score/itf/core/process/console.py:340-345 | one step of the history; afterwards the queue is the longest suffix that the bound allows of what was there and the new item |
| LineQueue.LineReaderQueue.GetNoWait | score/itf/core/process/console.py:347-365 | the oldest item, which is gone then, or Empty and no change |
| LineQueue.LineReaderQueue.Clear | score/itf/core/process/console.py:367-369 | empties the queue; every queued item counts as cleared |
| QueueMonitor.InvariantKept | score/itf/core/process/console.py:340-369 | every step of every thread keeps the accounting of queued items against notified consumers |
| QueueMonitor.NotifyKeepsInvariant | score/itf/core/process/console.py:345 | notifying moves the oldest waiter, also one that has timed out, to the notified ones |
| QueueMonitor.ResumeKeepsInvariant | score/itf/core/process/console.py:353-363 | a consumer that was notified, timed out or both looks at the queue again |
| QueueMonitor.ReachableInvariant | score/itf/core/process/console.py:337-369 | the invariant holds in every reachable state |
| QueueMonitor.NoLostWakeup | score/itf/core/process/console.py:340-369 | while anyone is in the wait set and the lock is free, there are no more items than notified consumers |
| QueueMonitor.QueuedItemsAreTaken | score/itf/core/process/console.py:347-365 | with an item queued and a consumer parked, some notified consumer can take the lock and then the oldest item |
| QueueMonitor.ResumedConsumerTakes | score/itf/core/process/console.py:347-365 | a notified consumer that resumes finds and takes the oldest item |
| QueueMonitor.RefinesQueue | score/itf/core/process/console.py:340-369 | whatever the interleaving, the queue goes through a run of the sequential queue |
| QueueMonitor.EmptyQueueDecides | score/itf/core/process/console.py:347-363 | in every reachable state: on an empty queue a consumer can raise Empty if and only if it called without blocking or with a timeout, and can wait if and only if it blocks; only a wait with a timeout expires |
| QueueMonitor.HolderGoesOn | score/itf/core/process/console.py:340-369 | who holds the lock can always go on, and in `get` neither waits nor gives up while an item is queued |
| QueueMonitor.WaitersInOrder | score/itf/core/process/console.py:345 | whatever else runs, a waiter with i others in front of it that does not time out is notified by the next i + 1 calls of notify |
| Matching.LineSource.GetLine | score/itf/core/process/console.py:312-313 | the next line, or nothing when the wait expires |
| Matching.ReadCond | score/itf/core/process/console.py:272-288 | true after exactly the shortest non-empty run of lines that meets the condition, leaving the rest queued; false only when the wait expires, and then no prefix met it. With `any`: the last line consumed is the first that matches one of the expressions; with `all`: it is the first behind which every expression has been matched by some line |
| Matching.AnyMeans | score/itf/core/process/console.py:280-287 | `any` holds of some lines if and only if one of them matches one of the expressions |
| Matching.AllMeans | score/itf/core/process/console.py:280-287 | `all` holds of them if and only if each expression is matched by one of them |
| Matching.ReadUntil | score/itf/core/process/console.py:293-295 | stops behind the first matching line |
| Matching.Mark | score/itf/core/process/console.py:119-129 | a time point for each message, set if and only if the message was found, not before its line and never decreasing |
| Matching.FoundGoesOn | score/itf/core/process/console.py:119-129 | the first matching line is taken, and the next message is looked for behind it |
| Matching.NotFoundGoesOn | score/itf/core/process/console.py:119-129 | a message that is not found before the wait expires has no position, and the next one is looked for behind the expiry |
| Matching.FoundPositionsEmbed | score/itf/core/process/console.py:119-129 | the positions that are used are strictly increasing and match |
| Matching.GreedyIsEarliest | score/itf/core/process/console.py:119-129 | no other strictly increasing positions come earlier, at any message |
| Matching.MarkIsComplete | score/itf/core/process/console.py:119-129 | the first n messages are all found if and only if they match at some strictly increasing positions, for every n |
| ShellCommandProtocol.RunShCmdOutput | score/itf/core/process/console.py:69-98 | the loop computes the outcome that the line protocol defines |
| ShellCommandProtocol.OutputIsCollected | score/itf/core/process/console.py:89-98 | output lines are collected in order, echoes of the command are skipped |
| ShellCommandProtocol.FinishDoneLine | score/itf/core/process/console.py:92-96 | the line with the marker splits into the last piece of output and the decimal exit code, and both come back |
| ShellCommandProtocol.FirstEndDecides | score/itf/core/process/console.py:86-98 | the first line with the marker that does not contain the command decides the outcome, with the output before it, echoes left out |
| ShellCommandProtocol.TimesOutExactly | score/itf/core/process/console.py:80-87 | the call times out if and only if no such line arrives before the wait expires |
| ShellCommandProtocol.FinishExactly | score/itf/core/process/console.py:92-96 | the deciding line gives the number between `XTF_DONE=` and the next one, if any; an exception if there is no `XTF_DONE=` or no number |
| ShellCommandProtocol.EchoIsSkipped | score/itf/core/process/console.py:77 | the line that is written to the shell, when it is echoed, is skipped |
| ShellCommandProtocol.UsualRun | score/itf/core/process/console.py:69-98 | echo, lines without the marker, and the line with the code: the code and the stripped output come back |
| ShellCommandProtocol.DoneLineDecides | score/itf/core/process/console.py:89-96 | that line ends the call unless it contains the command |
| ShellCommandProtocol.RoundTrip | score/itf/core/process/console.py:69-98 | for every mix of output and echoes: the exit code and the stripped output if the last line does not contain the command, else reading goes on |
| ShellCommandProtocol.MarkerPartNeverReturns | score/itf/core/process/console.py:89-90 | a command that is part of the marker always times out |
| ShellCommandProtocol.DonePartNeverReturns | score/itf/core/process/console.py:89-96 | a command that is part of the marker with its equals sign returns on no stream |
| ShellCommandProtocol.ReturnsExactly | score/itf/core/process/console.py:89-96 | some stream of lines lets the call return if and only if the command is no part of the marker with its equals sign |
| ConsoleQueue.SeesLinesPut | score/itf/core/process/console.py:312-316 | when the reader keeps up since a clear, the lines it gets are the first ones that were put since, and none from before |
| ConsoleQueue.MarkOnQueue | score/itf/core/process/console.py:119-129 | behind the clear with which it begins, `mark` finds its first n messages if and only if they match at increasing positions among the lines put since, as far as they were read |
| ConsoleQueue.CommandOnQueue | score/itf/core/process/console.py:69-98 | when since the clear output, echoes and the line with the code are put and read, `run_sh_cmd_output` returns that code and output |
| TerminalCleanup.RemoveCrCleans | score/itf/core/process/console.py:382 | after the first pass every carriage return is followed by a line feed or is last |
| TerminalCleanup.RemoveCrIdempotent | score/itf/core/process/console.py:382 | the first pass changes a text if and only if it has a stray carriage return, and is idempotent |
| TerminalCleanup.RemoveCrFirst | score/itf/core/process/console.py:382 | the first carriage return goes together with the byte behind it, and stays in front of a line feed and at the end; the pass then goes on behind |
| TerminalCleanup.PrivateModesKeepCr | score/itf/core/process/console.py:385 | removing escape sequences separates no carriage return from its line feed |
| TerminalCleanup.PrivateModeIs | score/itf/core/process/console.py:385 | the match of the second pattern is found if and only if there is one: escape, `[?`, digits and semicolons, and `h` or `l` |
| TerminalCleanup.ModesRemoved | score/itf/core/process/console.py:385 | such a sequence is removed as a whole, and a byte that starts none stays |
| TerminalCleanup.CleanText | score/itf/core/process/console.py:380-386 | in the result every carriage return is immediately followed by a line feed |
| TerminalCleanup.PlainText | score/itf/core/process/console.py:380-386 | text without carriage returns and escapes loses only its final line feeds; each other byte is its character, or U+FFFD beyond ASCII |
| TerminalCleanup.TerminalLine | score/itf/core/process/console.py:380-386 | a line with mode switches around it and `\r\n` at its end comes back as its own text |
| TerminalCleanup.StrayCrCutsMode | score/itf/core/process/console.py:382-386 | the passes run in this order: behind a stray carriage return a mode switch loses its escape and its rest stays in the text |
| AsyncOutput.ProcessText | score/itf/plugins/docker.py:184-188 | appended are the lines of the stripped text that are not empty |
| AsyncOutput.NonEmptyKeeps | score/itf/plugins/docker.py:186 | exactly the lines that are not empty are kept |
| AsyncOutput.ShownLinesMeaning | score/itf/plugins/docker.py:184-188 | no kept line is empty or holds a line feed, and they hold the visible characters of the text |
| AsyncOutput.OutputIsLines | score/itf/plugins/docker.py:131-133 | `get_output` is the collected lines, each with a line feed behind it |
| AsyncOutput.OutputSplits | score/itf/plugins/docker.py:131-133 | the output splits at line feeds into exactly these lines, and nothing behind the last one |
| AsyncOutput.OutputOfTexts | score/itf/plugins/qemu/qemu_target.py:109-111 | for the QEMU target: the output is every chunk, decoded and stripped, with a line feed behind it |
| AsyncOutput.NonSpaceOutput | score/itf/plugins/docker.py:131-133 | `get_output` shows the visible characters of the collected lines |
| AsyncOutput.DockerLog | score/itf/plugins/docker.py:204-209 | the thread appends the lines of both streams in order of arrival, up to the first chunk that cannot be decoded |
| AsyncOutput.LoggedTextsAre | score/itf/plugins/docker.py:204-209 | the texts that it adds, item by item and stdout before stderr; the first item that cannot be decoded is the last |
| AsyncOutput.FirstStdoutIs | score/itf/plugins/docker.py:190-199 | which item decides about the PID, and the texts of early stderr, of the rest of that chunk and of the thread, in this order |
| AsyncOutput.DockerCollect | score/itf/plugins/docker.py:190-214 | over a whole run: no PID if and only if stdout stays empty, a decoding error if and only if a chunk up to the first text on stdout is not well-formed UTF-8, an error if the first line is no number; otherwise the lines are exactly those of what followed the PID line, and of early stderr, up to the first chunk that cannot be decoded, and the output splits into them |
| AsyncOutput.DockerPid | score/itf/plugins/docker.py:190-199 | the PID is read correctly if and only if the first chunk on stdout holds all of its digits; cut earlier it is a smaller number |
| QemuAsync.RecvBlocking | score/itf/plugins/qemu/qemu_target.py:183 | a blocking read gives the next bytes, nothing at the end of the stream, or fails |
| QemuAsync.ReadPidLine | score/itf/plugins/qemu/qemu_target.py:181-186 | takes from the channel the bytes up to the first line feed, and that line feed, and no more; without one, all bytes up to the end |
| QemuAsync.FirstLine | score/itf/plugins/qemu/qemu_target.py:181-213 | the line that was read is the first line of all that ever arrives, and what is logged or still buffered is what follows it |
| QemuAsync.StartThread | score/itf/plugins/qemu/qemu_target.py:188-218 | the line is parsed, and the output of the thread is exactly what is read behind it, stripped chunk by chunk |
| QemuAsync.ExecuteAsync | score/itf/plugins/qemu/qemu_target.py:171-218 | over the channel: when a PID, a line feed and output arrive, the PID comes back and the thread logs that output, all of it that was delivered when the exit was seen |
| AsyncOutput.PidRoundTrip | score/itf/plugins/qemu/qemu_target.py:175-188 | the PID that the shell echoes comes back, and the rest of the stream is left |
| AsyncOutput.RecvAndProcess | score/itf/plugins/qemu/qemu_target.py:194-201 | one chunk of at most 4096 bytes: the lines of its stripped text are appended, empty ones too |
| AsyncOutput.NextNotHigher | score/itf/plugins/qemu/qemu_target.py:203-213 | once the schedule is silent, each chunk makes the buffer shorter, so the thread ends |
| AsyncOutput.LogOnce | score/itf/plugins/qemu/qemu_target.py:203-213 | one round: a chunk is logged, or the exit is looked for; a round that goes on has read a chunk or slept for 100 ms |
| AsyncOutput.AsyncLog | score/itf/plugins/qemu/qemu_target.py:193-213 | for every schedule: the output is exactly what was read since the thread started, each chunk stripped and with a line feed behind it, and so shows its visible characters; a normal end has read all that was delivered when the exit status was seen |
| AsyncOutput.DrainAfterExit | score/itf/plugins/qemu/qemu_target.py:207-211 | after the exit the buffer is read to its end |
| AsyncProcess.AsyncHandle.Wait | score/itf/plugins/qemu/qemu_target.py:57-74 | looks at a running command with 100 ms of sleep behind each until the exit, then join, exit code, close, in this order and nothing else; or a timeout, after the time was up and while the command was running; no sleep is begun after the time is up |
| AsyncProcess.AsyncHandle.Poll | score/itf/plugins/qemu/qemu_target.py:64-70 | its loop: looks and sleeps in turn, up to the first look that shows the exit or comes too late |
| AsyncProcess.AsyncHandle.Stop | score/itf/plugins/qemu/qemu_target.py:76-93 | TERM, at most five times a second of sleep and a look, one more look; KILL and a wait if and only if all six show a running command; then join, exit code, close |
| AsyncProcess.AsyncHandle.TimeToStop | score/itf/plugins/docker.py:113-117 | the grace period of five seconds, ended by the first observation of the exit |
| AsyncProcess.AsyncHandle.KillAndWait | score/itf/plugins/docker.py:118-123 | KILL and a wait of fifteen seconds; a timeout only if the command survives it |
| AsyncProcess.AsyncHandle.WaitAgain | score/itf/plugins/docker.py:121-123 | the wait after KILL: no sleep is begun after fifteen seconds, and at its end the thread is joined and the code read once more |
| AsyncProcess.AsyncHandle.Conclude | score/itf/plugins/docker.py:105-106 | the exit code is read after the output thread was joined |
| AsyncProcess.AsyncHandle.CloseSession | score/itf/plugins/qemu/qemu_target.py:95-101 | closes the session the first time only |
| AsyncProcess.Drive | score/itf/plugins/qemu/qemu_target.py:57-93 | any sequence of `wait` and `stop` calls keeps the order safe; every result is the final exit code of a stopped command |
| AsyncProcess.ClosedOnce | score/itf/plugins/qemu/qemu_target.py:95-101 | in such a run the session is closed at most once, and right after the exit code that followed a join |
| AsyncProcess.KillIsLastResort | score/itf/plugins/docker.py:108-123 | in such a run every KILL follows TERM, five seconds of sleep and six observations of a running command |
| AsyncProcess.ExitJoins | score/itf/core/process/wrapped_process.py:87-93 | the output thread is joined if and only if the block waits or its command is not gone at the first look |
| AsyncProcess.WrappedProcess.HandleProcessExit | score/itf/core/process/wrapped_process.py:87-93 | a wait, or one look and then a stop or just the exit code; told from the state before the call, the session stays open if and only if the block does not wait and the command will be gone at that look |
| AsyncProcess.WrappedProcess.StopUnlessGone | score/itf/core/process/wrapped_process.py:90-93 | its second half: one look, then a stop or just the exit code |
| AsyncProcess.WrappedProcess.CheckExitCode | score/itf/core/process/wrapped_process.py:95-123 | no error if and only if the code is 0, 143, the expected one, or 137 where no clean shutdown is enforced; which error the codes 55, 137, 139 and 134 give |
| AsyncProcess.WrappedProcess.Exit | score/itf/core/process/wrapped_process.py:63-66 | a block that ends normally leaves a stopped command with an acceptable code; the thread is joined and the session closed if and only if the block waits or the command is not gone beforehand |
| SigtermHandlers.ProcessWrapper.StartProcess | score/itf/core/process/process_wrapper.py:73-100 | saves the handler in force and installs its own, also when the start then fails |
| SigtermHandlers.ProcessWrapper.KillProcess | score/itf/core/process/process_wrapper.py:102-140 | puts the saved handler back, except when it raises |
| SigtermHandlers.ProcessWrapper.RestartProcess | score/itf/core/process/process_wrapper.py:178-184 | what is saved again is what the kill has just put back |
| SigtermHandlers.ProcessWrapper.WaitTimesOut | score/itf/core/process/process_wrapper.py:162-167 | a timed-out wait kills and raises |
| SigtermHandlers.RunOne | score/itf/core/process/process_wrapper.py:62-71 | one command on the objects has the meaning that the state machine gives it |
| SigtermHandlers.RunAll | score/itf/core/process/process_wrapper.py:62-71 | the same for whole programs of nested blocks |
| SigtermHandlers.SavedHandlerStays | score/itf/core/process/process_wrapper.py:73-75 | whatever is done to any wrappers, a started wrapper keeps the handler saved at its first start, unless a block enters it again |
| SigtermHandlers.StoppedInside | score/itf/core/process/process_wrapper.py:69-71 | in a block, a kill, the signal and a wait that times out put back the handler from before the block unless stopping the process fails; the wait raises in any case |
| SigtermHandlers.RestartedInside | score/itf/core/process/process_wrapper.py:178-184 | a restart in a block leaves the own handler in force and the saved one that from before the block |
| SigtermHandlers.SignalIsKill | score/itf/core/process/process_wrapper.py:69-71 | the signal is a kill of the wrapper whose handler is in force, and nothing under a handler from outside |
| SigtermHandlers.NotStarted | score/itf/core/process/process_wrapper.py:102-103 | a wrapper without a process cannot be killed, waited for or restarted; these raise and change nothing |
| SigtermHandlers.TrySwallows | score/itf/core/process/process_wrapper.py:62-67 | an exception that is caught around a block ends what follows in the block, and nothing behind it |
| SigtermHandlers.BlockRestoresHandler | score/itf/core/process/process_wrapper.py:62-67 | a block whose exit returns puts back the handler from before it, whatever happened inside, exceptions included |
| SigtermHandlers.WellNestedRestores | score/itf/core/process/process_wrapper.py:62-67 | any sequence of such blocks, nested to any depth, leaves the original handler |
| SigtermHandlers.BlockRestoresExactly | score/itf/core/process/process_wrapper.py:62-100 | a block restores the handler if and only if its start works and its exit returns, or the handler that is left happens to be the same |
| SigtermHandlers.ReentrySaves | score/itf/core/process/process_wrapper.py:73-75 | a second entry saves the handler that it finds, whatever follows |
| SigtermHandlers.ReentryRestoresExactly | score/itf/core/process/process_wrapper.py:62-75 | with a second entry inside its own block and anything around it, the outer block restores the handler if and only if it is the one in force at that entry, or the entry is never reached |
| SigtermHandlers.ReentryLosesHandler | score/itf/core/process/process_wrapper.py:73-75 | directly nested blocks on one wrapper leave its own handler behind |
| SigtermHandlers.FailedStartLeavesHandler | score/itf/core/process/process_wrapper.py:73-98 | after a failed start the wrapper's own handler stays installed |
| SftpTree.WalkVisits | score/itf/core/com/sftp.py:90-108 | every file of the tree is visited exactly once, and nothing else |
| SftpTree.WalkFoldersVisits | score/itf/core/com/sftp.py:105-108 | the same for the recursion into the folders |
| SftpTree.WalkIsTopDown | score/itf/core/com/sftp.py:90-108 | every visit lists the files of its directory in the order of the listing; no directory comes behind one of its subdirectories, or twice |
| SftpTree.SameFilesSameTree | score/itf/core/com/sftp.py:181-195 | a tree without empty directories is determined by its files |
| SftpTree.PruneKeepsFiles | score/itf/core/com/sftp.py:181-195 | leaving out empty directories changes no file |
| SftpTree.PutFiles | score/itf/core/com/sftp.py:110-127 | writing one file changes that path and no other |
| SftpTree.RoomForFile | score/itf/core/com/sftp.py:110-127 | files of one tree are never in each other's way |
| SftpCopy.RelocatedPath | score/itf/core/com/sftp.py:183-186 | relative path and join move every file path to the same place below the new root |
| SftpCopy.TargetIsBelowRoot | score/itf/core/com/sftp.py:118-127 | the directory that is made for a file, as a path, is the root followed by the directory of the file, whether or not the root ends in a slash: the one that the file is put into |
| SftpMkdir.MkdirWords | score/itf/core/com/sftp.py:123-124 | `test` and `mkdir` get the words that the unquoted directory stands for; for a plain directory that is the directory itself |
| SftpMkdir.BlankSplitsDirectory | score/itf/core/com/sftp.py:123-124 | a directory with a blank becomes two |
| SftpMkdir.BlankMeansTwo | score/itf/core/com/sftp.py:123-124 | what is made are the directories on the way to each of the two |
| SftpMkdir.EnteredMeans | score/itf/core/com/sftp.py:123-124 | `mkdir -p` is given a directory and all those that its prefixes lead to |
| SftpMkdir.UpAndBack | score/itf/core/com/sftp.py:123-124 | a component that is entered and left with `..` makes no difference |
| SftpMkdir.FixedMkdirText | score/itf/core/com/sftp.py:124 | the command of the model is the literal text of the source |
| SftpMkdir.MadeByHasFewer | score/itf/core/com/sftp.py:123-124 | whatever directories such a command makes, their names hold fewer special characters than the one that was meant |
| SftpMkdir.MadeExactlyWhenPlain | score/itf/core/com/sftp.py:123-126 | a directory, absolute or relative, that is not there and whose command is known word by word is made, and the upload goes on, if and only if it is plain |
| SftpMkdir.BlankIsNotMade | score/itf/core/com/sftp.py:123-126 | a directory with a blank in its name is not there after its command |
| SftpMkdir.PlainShellIsShell | score/itf/core/com/sftp.py:123-124 | what is required of the remote shell is met by one that makes exactly the words |
| SftpCopy.CopyFile | score/itf/core/com/sftp.py:118-127 | the directory's command is given, and one file is copied if and only if its exit code is zero and the directory is there afterwards, which is the one that the file is put into |
| SftpCopy.OneMore | score/itf/core/com/sftp.py:118-127 | what is known about the copies so far extends to one file more |
| SftpCopy.CopyFiles | score/itf/core/com/sftp.py:189-195 | the destination holds exactly the visited files, each in a directory that is there, or the first directory that was not made ends the copy |
| SftpCopy.CompleteCopy | score/itf/core/com/sftp.py:181-195 | when all files are copied the destination is the source minus its empty directories |
| SftpCopy.CopyDir | score/itf/core/com/sftp.py:181-195 | the whole loop gives that tree, or nothing for a tree without files, and afterwards the directory of every file is among those that exist; to the remote side it raises if and only if the directory of some file is not plain, where all commands are known word by word, and never when all are plain |
| SftpCopy.UploadThenDownload | score/itf/core/com/sftp.py:181-195 | up and down again gives the same tree minus empty directories, under the same conditions |
| SftpCopy.BlankUploadRaises | score/itf/core/com/sftp.py:118-127 | a file in a directory with a blank: the upload raises, whatever the shell is |
| Text.JoinSplit | score/itf/plugins/docker.py:185 | joining what was split gives the text back |
| Text.SplitJoin | score/itf/plugins/docker.py:185 | joined parts without the separator come back when split |
| Text.SplitParts | score/itf/plugins/docker.py:185 | no part holds the separator |
| Text.StripIsMiddle | score/itf/core/process/console.py:96 | what is between white space at both ends is what stripping leaves |
| Text.StripPartsOf | score/itf/core/process/console.py:96 | and every text is such a middle between white space |
| Text.SpaceIsListed | score/itf/core/process/console.py:96 | the white space of `strip`, listed |
| Text.ParseDecimal | score/itf/core/process/console.py:95 | reading a printed number gives the number |
| Text.PaddedParse | score/itf/core/process/console.py:95 | a number with white space around it is read |
| Text.SignedParse | score/itf/core/process/console.py:95 | and one with a sign, and white space around that |
| Text.DigitsParse | score/itf/core/process/console.py:95 | text with anything but digits and underscores is no number |

## Left out

- Foreign code (paramiko, docker-py, `subprocess`, the delivery of signals, files, logging, pytest): environment steps and outcomes only.
- The connection set-up of the SSH client, its retries, and errors of `exec_command` itself.
- What the shell makes of active symbols: expansions are marked, not performed. `[`, `~` and `{` are marked wherever they stand unquoted. Operators of several
  characters are scanned character by character, and reserved words and redirections are not parsed.
- ShellQuoting.CommandTokens: the scanner knows the word rules of POSIX alone. `$'...'`, quotes inside `$( )` and backquotes, and here-documents in a binary path move the end
  of words in ways that it does not follow, so such paths are outside of the statement.
- ShellQuoting.DockerNested: the inner shell is bash, for which the same holds of the binary path; the quoted arguments contain no such text outside of single quotes.
- SshExecute.Execute: for chunks that cut a character in two the bytes differ, because decoding is done per chunk; the exact condition is proved.
- SshReadLoop.ReadOutputWithTimeout: waits are measured from the time read at the head of the loop, as the code computes them, and two readings of the clock differ by at
  least a millisecond, which is what makes the loop end. Whatever is ready gives at least one byte, so the test for empty data is not modelled.
- AsyncOutput.AsyncLog: it ends only because the schedule is required to let the command exit and fall silent at some point. The lines of the output depend on the cut into chunks, since the code strips and splits every chunk on its own.
- QemuAsync.ExecuteAsync: the schedule is also required to end the streams at some point, and nothing arrives behind the end. A read that waits too long is one that the schedule lets fail.
- SshChannel.WaitValid: the sleep after a wait that fails takes its whole length. A wait may take longer than its length, by the time that the schedule lets pass.
- Matching.ReadCond: how a line matches an expression (`_check_msg`, regular expressions) is an arbitrary predicate.
- The thread that strips lines and fills the queue (`LineReader.run`), its callbacks and log files; the branches of `try_to_decode` and `try_to_encode` for other types; the `ValueError` for a negative timeout.
- QueueMonitor.NoLostWakeup: a consumer with a timeout may give up at any time, which allows more runs than the clock does.
- AsyncProcess.AsyncHandle.Wait: one class stands for both handles, with a flag for the SSH session, since they share every other line; that joining the output thread could block is not modelled.
- SigtermHandlers.BlockRestoresHandler: a signal arrives between two operations, never in the middle of a start or a kill; handlers from outside do nothing.
- SftpCopy.CopyDir: that the directories are still there at the end is not stated when a command was not known word by word, which might have taken one away.
- SftpCopy.UploadThenDownload: the destination is empty at first and writable. What the shell does with a command that is not known word by word (expansions, operators,
  open quotes, comments or `..` in the directory, or a directory that starts with `-` or `#`) is left open, and the login directory is taken to be plain. Links, times and permissions are not modelled.
- SftpTree.WalkVisits: the order of a listing is arbitrary, of which the sorted one is an instance; visits of `os.walk` without files do nothing and are not listed.
- The argument list of the launcher, its environment and `$(location)` expansion; its other lines.
- `int()` reads only ASCII digits here, with signs, blanks and single underscores.
- DLT, the QEMU configuration and command line, pings, target capabilities, timestamps: simple or foreign.
