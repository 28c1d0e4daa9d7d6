# steamcmd session driver — Dafny model

This project models the Go package `steamcmd`, which drives an interactive `steamcmd`
child process. A command goes in as a line on the child's stdin. The package then
reads the child's stdout and stderr until the child prints its prompt again. Four
modules cover it:

- `Strings` models the Go library functions the code relies on:
  - `strings.Index`, `strings.HasSuffix` and `strings.Join`;
  - `fmt`'s `%d` rendering of an `int`, with a parser that proves it can be read back.
- `Framing` covers the stream framing:
  - the 15-byte prompt marker `ESC[1m \n Steam> ESC[0m`;
  - the scanner split rule `splitFunc`;
  - the reader pump `copyLinesToChan`, which runs the split rule over the child's output and sends the tokens in order;
  - the writer pump `copyChanToWriter`, which writes each line followed by a newline.
- `Protocol` covers the request/response protocol:
  - `WaitForSuffix` and `WaitForPrompt`, which drain the stdout and stderr channels until a stdout token ends with a suffix;
  - `Exec`, which sends a command, waits for the prompt and fails when anything came on stderr;
  - `Close` and `NewSessionIO`.
- `Steamcmd` covers the `Session` layer:
  - username defaulting in `NewSessionFactory`;
  - the exact command line each operation sends;
  - the prefix each operation puts on `Exec`'s error.

Modelling choices:
- **Bytes.** A Go string or byte slice is a `string` in which each `char` stands for one byte. Every Go operation used here works byte by byte, so nothing depends on encoding.
- **The child's output.** The child is an oracle. Its whole stdout and stderr are given when a `SessionIO` is built. The reader pumps turn them into the tokens queued on the two channels.
- **The `select`.** The `select` in `WaitForSuffix` is driven by a schedule:
  - each schedule entry is one completed `select` and names the channel it prefers;
  - if the preferred channel is empty, the other one is served;
  - if both channels are empty, or the schedule is used up, the call blocks forever;
  - a schedule that is too short therefore also makes a call block; `Protocol.CollectReturns` shows that this never happens when the awaited token is pending and the schedule has an entry for every pending token.
- **Results.** A call's result is a `Reply`: a value, an error message, or `Hang` for a call that never returns.
- **Errors.** A Go error is its message text. Wrapping with `%w` is the prefix followed by the inner message.
- **Sessions.** A `SessionIO` records the command lines sent to stdin (`stdinLines`) and the tokens still pending on each channel. `Session` operations are stated against `SessionIO.Exec`: exact line sent, channels consumed, reply wrapped.

### How the split rule cuts the stream

- **Marker versus newline.** A newline that comes before the prompt marker does not end a line. In `splitFunc`, `useNewline` is set at session_io.go:28 and then reset to false at line 30 without condition. So whenever the marker is anywhere in the buffer, the buffer is cut at the marker. The lemma `Framing.SplitIgnoresEarlierNewline` shows `"a\nb"` coming out as one token before the marker.
- **Output written together with the prompt.** For the same reason, a child that writes `Logging in...\n` and then the prompt in one write yields two tokens: `"Logging in...\n"` with its newline kept, then the marker. The lemma `Protocol.ExecOutputThenPrompt` shows this for any output without the marker.
- **Chunking.** How the child's output is split into reads can change the tokens. The lemma `Framing.SplitPartialMarker` shows a buffer holding only the first five bytes of the marker, through its newline, being emitted as a 4-byte line. The model therefore runs the scanner over the whole stream at once and claims nothing about chunking.
- **Every byte is accounted for.** A marker-free stretch is exactly its tokens, each followed by the newline that ended it, and then the unterminated tail (`Framing.TokenizeNoPrompt`): no token drops, repeats or reorders bytes. The tail itself is never sent: `splitFunc` returns no token for it even at end of stream (session_io.go:24-25), so a final line without a newline is lost. Up to the first marker, output is one token, then the marker, and the scan goes on afresh after it (`Framing.TokenizeThroughPrompt`).

## Model

| member | source | states |
|---|---|---|
| `Strings.IndexOf` | session_io.go:19-20 | `strings.Index` returns -1 or an offset at which the whole pattern fits inside the string |
| `Strings.IndexOfSpec` | session_io.go:19-20 | `strings.Index` is -1 exactly when the pattern does not occur, and otherwise the leftmost offset at which it occurs |
| `Strings.HasSuffix` | session_io.go:148 | `strings.HasSuffix`: the last bytes of the string are the suffix, characterised by `Strings.HasSuffixSpec`; used by every lemma about the wait's stopping token (`Protocol.CollectStopsAtSuffix`, `Protocol.CollectReturns`) |
| `Strings.HasSuffixSpec` | session_io.go:148 | `strings.HasSuffix` holds exactly when the string is some string followed by the suffix |
| `Strings.Join` | session_io.go:183 | `strings.Join` with a newline: joining, plus one final newline, is the writer's framing (`Framing.JoinLines`), so the joined lines can be read back in order (`Protocol.ExecFailureLines`) |
| `Strings.Decimal` | session.go:62 | `%d` of an `int`: read back exactly and free of spaces and newlines (`Strings.DecimalRoundTrip`); a sign only for negatives and no leading zero (`Strings.DecimalCanonical`) |
| `Strings.DecimalRoundTrip` | session.go:62 | `%d` of any integer reads back as that integer and holds no space or newline, so it cannot run into the next argument; `Strings.DecimalCanonical` adds that the text is the canonical numeral |
| `Strings.DecimalCanonical` | session.go:62 | `%d` writes a minus sign exactly for a negative value, then digits with no leading zero, and 0 as the single digit `0`; with `Strings.DecimalRoundTrip` this fixes the text for every value |
| `Framing.SplitContract` | session_io.go:16-44 | no token exactly when the buffer holds neither a newline nor the marker, and then nothing is consumed; a token is a prefix of the buffer with 0 < advance ≤ length; the advance is the token's length, or one more when a newline follows the token; a token that contains the marker is the marker |
| `Framing.Split` | session_io.go:16-44 | `splitFunc`, characterised for every buffer by `Framing.SplitContract` and, case by case, by `Framing.SplitAtMarkerStart`, `Framing.SplitBeforeMarker`, `Framing.SplitAtNewline` and `Framing.SplitNeedsMoreData` |
| `Framing.SplitNone` | session_io.go:24-25 | a split that yields no token saw neither a newline nor the marker in the buffer |
| `Framing.SplitTokenMarker` | session_io.go:35-43 | a token that contains the marker is exactly the marker |
| `Framing.SplitNeedsMoreData` | session_io.go:24-25 | with neither a newline nor the marker in the buffer, advance is 0 and there is no token, whatever `atEOF` is |
| `Framing.SplitAtMarkerStart` | session_io.go:39-40 | a buffer starting with the marker yields the marker and consumes its 15 bytes |
| `Framing.SplitBeforeMarker` | session_io.go:26-43 | a marker first found at offset k > 0 gives advance k and token `data[..k]`, even when a newline comes earlier |
| `Framing.SplitAtNewline` | session_io.go:31-36 | without the marker, the first newline at n gives advance n + 1 and token `data[..n]`, which has no newline |
| `Framing.SplitIgnoresEarlierNewline` | session_io.go:26-30 | `"a\nb"` followed by the marker gives the token `"a\nb"`: the newline before the marker is ignored |
| `Framing.SplitPartialMarker` | session_io.go:31-36 | the first five bytes of the marker, through its newline, are emitted as a 4-byte line; the marker is not recognised across reads |
| `Framing.TokenizeRest` | session_io.go:46-58 | what the scanner leaves unsent is a suffix of the stream |
| `Framing.Tokenize` | session_io.go:46-58 | the scan loop as repeated `splitFunc`; the pump's loop is proved to compute it (`Framing.CopyLinesToChan`); what it leaves and sends is stated by `Framing.TokenizeRest`, `Framing.TokenizeRestClean`, `Framing.TokenizeTokens`, and its conservation of the stream by `Framing.TokenizeNoPrompt` and `Framing.TokenizeThroughPrompt` |
| `Framing.TokenizeRestClean` | session_io.go:24-25 | the unsent suffix holds neither a newline nor the marker, so no further token could be cut from it |
| `Framing.TokenizeTokens` | session_io.go:36-43 | every token sent is the marker or free of it |
| `Framing.CopyLinesToChan` | session_io.go:46-58 | the pump's loop sends exactly the tokens of repeated splitting, in order, and leaves the unterminated tail unsent |
| `Framing.TokenizeBeforePrompt` | session_io.go:26-43 | a marker-free stretch followed by the marker scans as that whole stretch (if non-empty), newlines included, then the marker, with nothing left |
| `Framing.TokenizeAtPrompt` | session_io.go:39-40 | the marker alone scans as one marker token with nothing left |
| `Framing.TokenizeNoPrompt` | session_io.go:16-58 | a marker-free stream is given back by its tokens, each followed by the newline that ended it, then the unsent tail: the tokens drop, repeat and reorder nothing, and only that tail, which the pump never sends, is missing from what reaches the channel |
| `Framing.TokenizeThroughPrompt` | session_io.go:16-58 | in `x` + marker + `y`, with `x` marker-free, the tokens are `x` (if non-empty), the marker, then the tokens of `y` as if scanned alone |
| `Framing.CopyChanToWriter` | session_io.go:70-77 | the writer's output is the framing of the lines received: each line followed by a newline, in receipt order |
| `Framing.Frame` | session_io.go:76 | the bytes the writer pump writes: each line then a newline; the pump's loop computes it (`Framing.CopyChanToWriter`), it is `strings.Join` plus a final newline (`Framing.JoinLines`), and newline-free lines are read back from it (`Framing.UnframeFrame`) |
| `Framing.JoinLines` | session_io.go:76 | lines joined with newlines, plus one final newline, are exactly what the writer writes for them |
| `Framing.UnframeFrame` | session_io.go:71-76 | lines that hold no newline are read back from the writer's output unchanged and in order |
| `Protocol.Serve` | session_io.go:145-153 | each `select` receives from a channel that holds a token; with nothing on stderr it receives from stdout |
| `Protocol.CollectDone` | session_io.go:143-164 | a wait that returns has taken a prefix of each channel in arrival order; its last stdout token is the first one ending with the suffix; stderr tokens never stop it |
| `Protocol.Collect` | session_io.go:143-164 | the `WaitForSuffix` loop over the channels and the schedule; the loop is proved to compute it (`Protocol.SessionIO.WaitForSuffix`); a returning wait is characterised by `Protocol.CollectDone`, a blocked one by `Protocol.CollectStuck`, and when each happens by `Protocol.CollectNeedsSuffix` and `Protocol.CollectReturns` |
| `Protocol.CollectTakesPrefixes` | session_io.go:145-153 | each channel is split into the tokens the wait received, in arrival order, and the tokens it left |
| `Protocol.CollectStopsAtSuffix` | session_io.go:146-157 | the wait's stdout ends with the first token that ends with the suffix |
| `Protocol.CollectCountsSelects` | session_io.go:143-159 | each `select` of a returning wait takes exactly one token, so tokens gathered equal schedule entries used |
| `Protocol.CollectStuck` | session_io.go:143-159 | a wait that blocks has used up the schedule or both channels, has consumed a prefix of each, and has seen no stdout token ending with the suffix |
| `Protocol.CollectWithoutStderr` | session_io.go:143-164 | with nothing on stderr, the wait returns exactly the stdout tokens up to and including the first one ending with the suffix, and leaves the rest queued |
| `Protocol.CollectNeedsSuffix` | session_io.go:143-159 | a wait returns only if some stdout token ends with the suffix; there is no timeout |
| `Protocol.CollectReturns` | session_io.go:143-164 | the converse of `CollectNeedsSuffix`: with a stdout token ending with the suffix pending and a `select` scheduled for every pending token, the wait returns, whatever stderr is interleaved |
| `Protocol.ExecFailureLines` | session_io.go:183 | `Exec`'s error text is `failed to execute command: ` followed by the stderr lines, from which the lines can be read back in order |
| `Protocol.ExecFailure` | session_io.go:183 | `Exec`'s error text: the fixed prefix, then the collected stderr lines joined with newlines, from which they read back in order (`Protocol.ExecFailureLines`) |
| `Protocol.ExecReply` | session_io.go:177-186 | success has empty stderr, ends at the first prompt token, and its stdout is a prefix of what was pending; once the prompt comes, it fails exactly when stderr tokens arrived, and its message is `failed to execute command: ` followed by exactly the stderr tokens the wait collected, joined in arrival order; it blocks exactly when the wait does |
| `Protocol.ExecAnswers` | session_io.go:171-187 | `Exec` blocks only for want of a prompt: with a prompt token pending and a `select` scheduled for every pending token it returns a value or an error |
| `Protocol.ExecSucceedsWithoutStderr` | session_io.go:182-186 | with no stderr output, `Exec` returns the stdout tokens up to and including the prompt |
| `Protocol.ExecFailsOnStderr` | session_io.go:182-183 | a stderr line served before the prompt fails the command with `failed to execute command: ` and that line |
| `Protocol.ExecOutputThenPrompt` | session_io.go:16-44 | output written together with the prompt reaches `Exec` as one token holding all of it, its newlines included, then the marker, and `Exec` returns both |
| `Protocol.ExecLineThenPrompt` | session_io.go:175-186 | a token without the marker followed by the marker, with nothing on stderr, is exactly what `Exec` returns |
| `Protocol.SessionIO.constructor` | session_io.go:83-103 | a fresh session has sent nothing; its channels hold the pumped tokens of the child's stdout and stderr |
| `Protocol.SessionIO.WaitForSuffix` | session_io.go:139-165 | the loop's result and the channels it leaves are those of the wait; it never returns an error; it blocks exactly when the wait does; nothing is sent |
| `Protocol.SessionIO.WaitForPrompt` | session_io.go:167-169 | the wait for the prompt marker |
| `Protocol.SessionIO.Exec` | session_io.go:171-187 | exactly `command` is sent, and `command` plus a newline is written to stdin; the reply is `ExecReply` of the channels as they stood; the prompt wait consumes the channels |
| `Protocol.SessionIO.Close` | session_io.go:189-198 | exactly `quit` is sent, without waiting for output; the channels are untouched; the result is always nil |
| `Protocol.NewSessionIO` | session_io.go:110-123 | the session is handed out only after the first prompt, with nothing sent and the startup output consumed; it blocks if the prompt never comes; it never returns an error |
| `Steamcmd.NewSessionFactory` | session.go:8-16 | an empty username becomes `anonymous`; any other is kept |
| `Steamcmd.NewSessionFactoryIdempotent` | session.go:8-16 | a factory's username is never empty, so defaulting it again changes nothing |
| `Steamcmd.SessionFactory.New` | session.go:22-24 | the session created logs in with the factory's username and starts as `NewSession` does |
| `Steamcmd.NewSession` | session.go:26-36 | the session pairs a freshly started `SessionIO` with the username given; it blocks when the first prompt never comes |
| `Steamcmd.LoginLineParses` | session.go:44 | the login line reads back as `login` of exactly the username |
| `Steamcmd.LoginLine` | session.go:44 | `login` followed by the username; it reads back as exactly that username (`Steamcmd.LoginLineParses`) |
| `Steamcmd.ForceInstallDirLine` | session.go:53 | `force_install_dir` followed by the directory; it reads back as exactly that directory (`Steamcmd.ForceInstallDirLineParses`) |
| `Steamcmd.AppUpdateLine` | session.go:62-65 | `app_update`, the app id in `%d` form, and ` validate` when asked; it reads back as the id and the flag (`Steamcmd.AppUpdateLineParses`) |
| `Steamcmd.InstallModLine` | session.go:75 | `workshop_download_item`, then the app id and the mod id in `%d` form; it reads back as both ids in order (`Steamcmd.InstallModLineParses`) |
| `Steamcmd.ForceInstallDirLineParses` | session.go:53 | the install-directory line reads back as exactly the directory given |
| `Steamcmd.AppUpdateLineParses` | session.go:62-65 | the app-update line reads back as the app id, with `validate` present exactly when asked |
| `Steamcmd.InstallModLineParses` | session.go:75 | the mod-install line reads back as the app id and then the mod id |
| `Steamcmd.Wrap` | session.go:45-49 | an operation succeeds exactly when its `Exec` did, blocks exactly when it did, and otherwise fails with its own prefix before `Exec`'s message |
| `Steamcmd.AppUpdateReportsStderr` | session.go:67-69 | a stderr line before the prompt surfaces as `failed to execute app update command: failed to execute command: ` followed by that line |
| `Steamcmd.Session.constructor` | session.go:32-35 | a session holds the given `SessionIO` and username |
| `Steamcmd.Session.Login` | session.go:43-50 | sends exactly `login <username>`; the result is the wrapped `Exec` reply with prefix `failed to execute login command: ` |
| `Steamcmd.Session.ForceInstallDir` | session.go:52-59 | sends exactly `force_install_dir <dir>`; the wrapped reply has prefix `failed to force install dir <dir>: ` |
| `Steamcmd.Session.AppUpdate` | session.go:61-72 | sends `app_update <appID>`, plus ` validate` exactly when asked; the wrapped reply has prefix `failed to execute app update command: ` |
| `Steamcmd.Session.InstallMod` | session.go:74-82 | sends `workshop_download_item <appID> <modID>`; the wrapped reply has prefix `failed to execute install mod command: ` |
| `Steamcmd.Session.Close` | session.go:84-86 | returns what `SessionIO.Close` returns, which is always nil, after sending `quit` |

## Left out

- Process spawning is not modelled: `exec.CommandContext`, pipe creation, `cmd.Start`, `cmd.Wait` and context cancellation (session_io.go:80-108, 195) are operating-system I/O. So `NewSessionIO`'s pipe and start errors never occur in the model. The `failed to create session IO` branch of `NewSession` is kept but cannot be reached.
- Goroutines, channel blocking and capacities (0 and 100), and the mutex in `Exec` and `Close` are not modelled. These are concurrency. Calls are modelled as sequential, and the order of a `select` comes from the given schedule.
- The child is an oracle: its output is fixed in advance and does not depend on the commands it receives.
- The `time.Sleep` delays and the `fmt.Println` logging (session_io.go:55, 64, 74, 158, 194) are not modelled. Neither changes any result.
- `bufio.Scanner` internals (read chunking, buffer growth, the maximum token size) are not modelled. The scanner is repeated `splitFunc` over the whole stream in memory. How the tokens depend on chunking is shown but not modelled.
- The branch at session_io.go:60-66 is not modelled. `scanner.Err()` is nil whenever `Scan()` returns true, so that branch is never taken.
- The `failed to gather output` branch of `Exec` (session_io.go:178-180) is not modelled. `WaitForPrompt` never returns an error, so the branch is unreachable.
- `splitFunc`'s error result is not represented, because it is always nil.
- Go's `%w` wrapping chains are not modelled beyond their message text.
- Integer width: Go's `int` is 64 bits wide, but the model uses unbounded integers. Every 64-bit value renders the same way in both.
- Blocking: a call that blocks forever is modelled as returning `Hang`. The state it leaves is where the wait stopped.
- Session fields: the Go struct's exported fields could be reassigned by callers. The model keeps them constant.
