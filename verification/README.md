# parakeet, modelled in Dafny

parakeet turns an IRC log file into a single HTML page. This project models
its core:

- **parseLog** (module `LogParser`): the raw log text is cut on `"\n"`;
  a line is a chat line when it contains `"] <"` and `">"`, every other line
  (joins, quits, nick changes, actions, blank lines) is skipped; a chat line
  is sliced into date `line[1:Index("] <")]`, sender
  `line[Index("<")+1:Index(">")]` and content `line[Index("> ")+2:]`; the
  first chat line whose date does not parse ends the loop, and what was
  collected so far is returned without an error.
- **trimSuffixes** (module `ChannelName`): each listed suffix is trimmed once,
  in list order; the channel name is the base name of the input file with
  `".txt"` and then `".log"` trimmed.
- **Context.colorUsername** (module `Colorize`): the colour table of the
  page, the 13-colour palette, and the `&lt;<span …>sender</span>&gt;`
  fragment; `ColorAll` runs it over a page's senders in order.

Supporting modules: `Wrappers` (`Option`, `Result`), `GoStrings` (Go's
`strings.Index`, `Contains`, `TrimSuffix` and `Split` on a one-character
separator, each with a contract that characterises it, plus the helpers
`HasSuffix` and `Join`, which are plain definitions) and `Scenarios` (the
repository's unit-test inputs, stated as lemmas).

Modelling choices:

- Strings are `seq<char>` and positions count characters, where Go counts
  bytes. The markers the parser searches for are ASCII, so slicing at a
  found marker (plus the marker's own length) cuts the same text in both.
  The fixed offset `1` in the date slice (parakeet.go:114), and in the
  content slice when `"> "` is absent (parakeet.go:116), is different: it
  skips one byte in Go but one character here. The model therefore agrees
  with Go on chat lines whose first character is ASCII, as the `'['` of a
  well-formed log line is.
- `time.Parse(time.RFC3339, …)` is the parameter `parseTime: String ->
  Option<T>` over an abstract time type `T`; `applyURLs` is the parameter
  `applyURLs: String -> String`. The model assumes nothing about either;
  the scenario lemmas state what they need of them (dates that parse, how
  the rewritten sample splits into lines) as preconditions.
- A Go slice-out-of-range panic is an explicit `Failure(SliceOutOfRange(line))`.
  The code panics on a chat line that starts with `"] <"` (the date slice
  `line[1:0]`) or whose first `'>'` comes before its first `'<'` (the sender
  slice). parseLog is meant to report an error only when reading fails
  (parakeet.go:99-102, 130); these panics escape it instead. The model
  follows the code (`LogParser.SliceFields`, `Scenarios.CrashingLines`).
- The sender is meant to be the name inside `<…>` after `"] <"`; the code
  cuts at the first `'>'` anywhere in the line, and may produce an empty
  sender (`"[d] <> x"`). The model follows the code.
- `rand.Intn(len(c.Colors)-1)` becomes an index argument `i` with
  `i < |colors| - 1`, so the last palette colour, `"navy"`, is never handed
  out (`Colorize.NavyNeverAssigned`); with fewer than two colours `rand.Intn`
  panics, modelled as `Failure(IntnNonPositive)`.
- The loop is written once, generic over a per-line verdict
  (`Skip | Crash | Stop | Emit`); `LogParser.Classify` is the verdict
  parseLog's body gives a line, and `LogParser.ParseLines` is the loop run
  with it.

## Model

| member | source | states |
|---|---|---|
| GoStrings.Index | parakeet.go:114-116 | `strings.Index`: -1 exactly when the substring occurs nowhere; otherwise it occurs at the result and at no earlier position |
| GoStrings.Contains | parakeet.go:109 | `strings.Contains` holds exactly when the substring occurs at some position |
| GoStrings.TrimSuffix | parakeet.go:135 | `strings.TrimSuffix` gives a prefix of the input; with the suffix present, result plus suffix is the input; without it, the input is returned unchanged |
| GoStrings.TrimSuffixOfAppend | parakeet.go:135 | trimming a suffix undoes appending it |
| GoStrings.Split | parakeet.go:107 | `strings.Split` on `"\n"` gives at least one piece, no piece holds a newline, and joining the pieces with newlines gives back the text |
| GoStrings.SplitJoin | parakeet.go:107 | splitting the newline-join of newline-free lines gives back exactly those lines |
| LogParser.SliceFields | parakeet.go:114-116 | on a chat line, the three slices are out of range exactly when the line starts with `"] <"` or a `'>'` precedes its first `'<'` |
| LogParser.PanicCondition | parakeet.go:115 | the sender slice's bounds are reversed exactly when a `'>'` precedes the first `'<'` |
| LogParser.DateField | parakeet.go:114 | the date is the text from the second character up to the first `"] <"` |
| LogParser.SenderField | parakeet.go:115 | the sender lies strictly between the first `'<'` and the first `'>'` of the line |
| LogParser.ContentField | parakeet.go:116 | the content is the suffix after the first `"> "`, or everything but the first character when there is none |
| LogParser.Classify | parakeet.go:107-127 | a line is skipped exactly when it is not a chat line, crashes exactly on the panic condition, stops the loop exactly when its date does not parse, and otherwise yields the message made of the parsed date, sender and content |
| LogParser.RunLines | parakeet.go:107-128 | the loop yields at most one message per line, and a failure is the crash of one of the lines |
| LogParser.ParseLog | parakeet.go:93-131 | the channel keeps the given name, has at most as many messages as the URL-rewritten text has lines, and a failure names a chat line of that text on which the slicing panics |
| LogParser.ChatLineChars | parakeet.go:109 | a line passes the filter exactly when `"] <"` occurs in it at some position and some character of it is `'>'` |
| LogParser.Kept | parakeet.go:109-111 | the lines the loop looks at are drawn from the input, at most one per line, and a line is among them exactly when it is in the input and not skipped |
| LogParser.KeptSingle | parakeet.go:109-111 | a single line is looked at exactly when it is not skipped |
| LogParser.KeptAppend | parakeet.go:107-111 | the lines looked at in a concatenation are those of the first part followed by those of the second, so with `KeptSingle` the list keeps input order and repeats |
| LogParser.Cutoff | parakeet.go:118-121 | the longest run of chat lines from the start that all yield a message |
| LogParser.RunLinesSpec | parakeet.go:107-128 | reference definition of the loop: the result is the messages of the chat lines before the first one that does not yield a message; it is a failure exactly when that line crashes, with that line as the error |
| LogParser.ParseLinesSpec | parakeet.go:107-128 | parseLog's loop on the split lines looks at exactly the chat lines and returns the messages of those before the first one that does not yield a message, failing exactly when that line panics |
| LogParser.SkippedLineIgnored | parakeet.go:109-111 | removing a skipped line anywhere does not change the loop's result |
| LogParser.StopLineEndsLoop | parakeet.go:118-121 | everything after a line whose date does not parse is ignored |
| LogParser.NonChatLineIgnored | parakeet.go:108-111 | removing a line that lacks `"] <"` or `">"` does not change parseLog's messages |
| LogParser.BadDateStops | parakeet.go:118-121 | a sliceable chat line with an unparsable date discards itself and every later line |
| LogParser.SliceFormatted | parakeet.go:113-116 | a line `"[" + date + "] <" + sender + "> " + content` with no `'<'`/`'>'` in the date and no `'>'` in the sender is a chat line and slices back into exactly that date, sender and content |
| LogParser.ClassifyFormatted | parakeet.go:113-127 | such a line yields the message of its parsed date, sender and content, or stops the loop when the date does not parse |
| ChannelName.ChannelNameOf | parakeet.go:53 | the channel name is a prefix of the file's base name, at most eight characters shorter, and equal to it when it ends in neither `".txt"` nor `".log"` |
| ChannelName.PlainNameUnchanged | parakeet.go:53 | a base name ending in neither `".txt"` nor `".log"` is the channel name as it stands |
| ChannelName.TrimSuffixes | parakeet.go:133-139 | the result is a prefix of the input, shorter by at most the total length of the suffixes |
| ChannelName.NoListedSuffixUnchanged | parakeet.go:133-139 | a name ending in none of the suffixes is returned unchanged |
| ChannelName.TrimSuffixesAppend | parakeet.go:134-136 | trimming a concatenated list is trimming by the first list, then by the second |
| ChannelName.ListedSuffixTrimmed | parakeet.go:133-139 | appending one listed suffix to a plain name and trimming gives back the name, when no earlier suffix matches first |
| Colorize.NewContext | parakeet.go:72-79 | a page starts with the 13-colour palette, whose last colour is `"navy"`, and an empty colour table, so every table entry is a palette colour other than the last |
| Colorize.Fragment | parakeet.go:157 | the fragment is `&lt;<span style="color: `, the colour, `; font-weight: bold;">`, the sender and `</span>&gt;`, each at its fixed position |
| Colorize.ColorUsername | parakeet.go:148-158 | a known sender keeps its colour and the table is unchanged; a new sender gets `colors[i]`, which is never the last colour, and no other entry changes; `rand.Intn` panics exactly when a new sender meets fewer than two colours; the fragment wraps the sender in its colour |
| Colorize.ColorUsernameKeepsTable | parakeet.go:153-154 | every colour in the table is a palette colour other than the last, before and after a call |
| Colorize.ColorAll | parakeet.go:71-89 | rendering a page's senders in order succeeds with two or more colours, adds exactly those senders to the table, changes no earlier entry, and each fragment shows its sender in the colour the table ends with |
| Colorize.SameSenderSameFragment | parakeet.go:150-157 | two messages by the same sender get the same fragment |
| Colorize.ColorAllKeepsTable | parakeet.go:148-155 | over a whole page, the table holds only palette colours other than the last |
| Colorize.NavyNeverAssigned | parakeet.go:72-77 | starting from the page's palette, rendering always succeeds and no sender is ever coloured `"navy"` |
| Scenarios.EventLineSkipped | parakeet.go:108-111 | an event line `"[" + date + "] *" + …` with no `']'` in the date or the event text is never a chat line, and is a single line when neither part holds a newline |
| Scenarios.TestLogLines | parakeet_test.go:8-22 | the sample log splits into its fifteen lines |
| Scenarios.TestLinesParse | parakeet_test.go:8-22 | the sample lines, as they stand, give exactly the three chat messages when their dates parse |
| Scenarios.ParseLogThreeChats | parakeet.go:93-131 | parseLog on a text whose rewritten lines are three message-yielding chat lines between non-chat lines returns the given name and exactly those three messages in order |
| Scenarios.TestLogParses | parakeet_test.go:24-56 | parseLog on the sample log named `"#test-channel"` succeeds with that name and three messages with the expected senders and the expected first two contents; the third content is whatever URL rewriting makes of it |
| Scenarios.CrashingLines | parakeet.go:114-115 | `"] <bob> hi"` and `"[x>] <bob> hi"` crash the parser |
| Scenarios.TestTrimSuffixesListed | parakeet_test.go:106-111 | `"#test-channel.txt"` and `"#test-channel.log"` trim to `"#test-channel"` |
| Scenarios.TestTrimSuffixesUnlisted | parakeet_test.go:112-114 | `"#test-channel.bin"`, which ends in no listed suffix, is unchanged |
| Scenarios.FragmentEndsWithSender | parakeet_test.go:82-87 | for any colour and sender, the fragment ends with `; font-weight: bold;">`, the sender's name and `</span>&gt;` |

## Left out

- `main` (parakeet.go:41-69): flag parsing, opening and creating files,
  `filepath.Base` and the exit codes are I/O; only the trimming of the base
  name is modelled (`ChannelName.ChannelNameOf`).
- The `ioutil.ReadAll` error path of parseLog (parakeet.go:99-102): reading is
  I/O, and the model starts from the text already read.
- `applyURLs` (parakeet.go:141-146): the URL regular expression of xurls is a
  foreign library; it is a parameter of `LogParser.ParseLog`.
- `time.Parse` with the RFC 3339 layout: a parameter; which dates parse is not
  modelled.
- The HTML template, its parsing and execution (parakeet.go:19-20, 81-90):
  `Colorize.ColorAll` stands for the template's calls to colorUsername, one
  per message in order; the rest of the page is not modelled.
- `math/rand`: the random index is an argument of `Colorize.ColorUsername`.
- Byte positions: Go slices by byte, the model by character. On a chat line
  whose first character is not ASCII the date (and, without `"> "`, the
  content) differ: for `"é2021-03-01T13:25:17.928Z] <bob> hi"` Go's date
  starts with the second byte of `é`, its parse fails and the loop stops,
  while the model's date is the well-formed timestamp. Go's UTF-8 encoding
  is not modelled.
- LogParser.ParseLog: states the crash line and the message bound, not the
  messages themselves; the messages are characterised on the split lines by
  `LogParser.RunLinesSpec`, since they depend on the unmodelled `applyURLs`.
- Scenarios.TestLogParses: the third message's expected content in the test
  (parakeet_test.go:57) is the URL as written, while parseLog rewrites URLs
  into anchors first; with the rewriting a parameter, the lemma assumes it
  changes only the third chat line's content, and claims that content as
  the rewritten one rather than the test's literal.
