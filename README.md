# Portfolio terminal: a Dafny model

The portfolio page shows a fake shell. The `Terminal` class in `script.js` reads a
typed line, trims it and lower-cases it, and records it in a command history. It
echoes the line after the prompt `kenzo@whitehat:~$`. It then splits the line on
single spaces and looks the first word up in a fixed table of seventeen commands.
A registered word runs its handler on the remaining words; any other word is
meant to print "Command not found". As written, the lookup also finds two names
every JavaScript object inherits, `constructor` and `__proto__`. The model keeps
that lookup as `Commands.DispatchAsWritten`, and the terminal runs the corrected
`Commands.Dispatch` (see Findings). The arrow keys walk a cursor over the
history. Some commands open one of the page's content sections after a short
delay, and `blogs` downloads a post.

The model has six modules:

- `Wrappers`: the optional value used by lookups.
- `Text`: ECMAScript `trim`, `toLowerCase` on ASCII letters, and `split(' ')` with
  the join that undoes it.
- `History`: the history cursor as a pure transition function.
- `Sections`: the page's sections as a map from element id to "shown".
- `Commands`: the command table, the handlers' output, dispatch, and the lookup
  as the source writes it (see Findings).
- `TerminalApp`: the `Terminal` class. Its fields are the input text, the output
  lines, the history, the cursor and the sections; its methods update them in place.

Fixed output text is modelled as the browser shows it: tags such as `<span>`,
`<b>` and `<a>` are dropped and entities such as `&lt;` are decoded, so the blog
footer is `Type blog <slug> to read a post.` and a profile line is `├── Cantina`.
Text the user typed is kept literally, although the source inserts it as HTML
without escaping it (see Left out). A handler's effect is an
`Effect` value: whether it empties the output, the lines it appends, and a
`Deferred` action. The deferred action is a section
opened after 500 ms, a post to download, or the window closed after 1000 ms.
`ExecuteCommand` returns the deferred action instead of starting a timer, and
`RunDeferred` performs it when it is due, taking a download's outcome (loaded
or failed) as a parameter. The date and time printed by
`date` come in as a `Clock` parameter.

## Model

| member | source | states |
|---|---|---|
| Text.Trim | script.js:110 | the result has no space at either end and is the slice of the line between a run of leading and a run of trailing ECMAScript white space or line terminators |
| Text.TrimFixpoint | script.js:110 | trimming leaves a line unchanged exactly when it has no space at either end |
| Text.TrimEmpty | script.js:110 | trimming leaves nothing exactly when the line is all spaces, which is the blank-line case `executeCommand` drops |
| Text.ToLower | script.js:110 | same length; every upper-case ASCII letter becomes its lower-case twin and every other character is kept |
| Text.LowerFixpoint | script.js:110 | a line without upper-case letters is its own lower-case form |
| Text.Normalize | script.js:110 | the command line is trimmed, has no upper-case letter, is no longer than the input, and is empty exactly when the input is all spaces |
| Text.NormalizeIdempotent | script.js:110 | normalising twice is normalising once |
| Text.NormalIsFixpoint | script.js:110-116 | a history entry (non-empty, trimmed, lower-case) is exactly a non-empty line that normalisation leaves unchanged; every non-blank line normalises to one |
| Text.Split | script.js:123 | `split(' ')` gives at least one part and no part contains a space |
| Text.Join | script.js:123 | the first part starts the joined line, followed by the separator when there are more parts |
| Text.JoinSplit | script.js:123 | joining the parts of a split with single spaces gives the line back |
| Text.SplitJoin | script.js:123 | splitting a join of space-free parts gives the parts back |
| Text.SplitNoSep | script.js:123 | a space-free line is one part |
| Text.SplitAfterWord | script.js:123 | a space-free word followed by a space is the first part, and the rest splits on its own |
| History.Navigate | script.js:151-165 | Up moves back one entry only when the cursor is above 0; Down moves forward one entry, from the last entry to the blank line after it, and stops there; a move loads the entry under the cursor (blank past the end); no move changes nothing; the cursor stays within -1 and the history length |
| History.UpRecallsLatest | script.js:116-117 | right after a command is entered, Up recalls that command |
| History.UpThenDown | script.js:151-161 | Down undoes Up from any entry after the oldest |
| History.DownThenUp | script.js:151-161 | Up undoes Down from any entry |
| History.Replay | script.js:151-165 | any run of arrow keys keeps the cursor within its bounds |
| History.UpsReachOldest | script.js:152-154 | enough Up presses reach the oldest entry and show it |
| History.UpsStayAtOldest | script.js:152-154 | at the oldest entry Up changes nothing |
| Sections.Opened | script.js:365-376 | the same sections exist afterwards, and a section is shown exactly when it is the requested one |
| Sections.OpenedShowsOnlyId | script.js:365-376 | after opening, the shown set is the requested id if the page has it, and empty otherwise |
| Sections.OpenedAtMostOne | script.js:365-376 | at most one section is shown after an open |
| Sections.OpenedForgetsPrevious | script.js:365-376 | what was shown before an open does not matter |
| Sections.OpenedIdempotent | script.js:365-376 | opening the same section twice is opening it once |
| Commands.EveryCommandRegistered | script.js:58-76 | every command is in the table under its name |
| Commands.TableMatchesNames | script.js:58-76 | every word in the table is the name of the command it runs |
| Commands.Resolve | script.js:125 | a word resolves exactly when the table has it, and to the command of that name |
| Commands.Apply | script.js:134-139 | a clearing effect leaves only its own lines; any other effect keeps the old output as a prefix and is followed by exactly its own lines |
| Commands.HelpLine | script.js:169-182 | a help line is a four-character branch followed by the command and its description; the branch is the closing `└── ` exactly when the line is the last and `├── ` exactly when it is not |
| Commands.HelpLines | script.js:168-183 | a title line, then for each advertised command in order exactly its `HelpLine`: the branch, the command and its description; only the last uses the closing branch `└── `, every other one uses `├── ` |
| Commands.AdvertisedWords | script.js:168-183 | help advertises exactly the thirteen words about, experience, skills, blog, contact, clear, exit, whoami, ls, cat, pwd, date, neofetch |
| Commands.HelpAdvertisesBlogButTableHasBlogs | script.js:173 | help advertises `blog`, which the table does not have, and not `blogs`, under which the table registers the blog handler |
| Commands.AdvertisedAreRegistered | script.js:58-76 | every other advertised word is registered |
| Commands.UnadvertisedCommands | script.js:58-76 | the registered words help leaves out are help, projects, blogs, profiles and reviews |
| Commands.FindPost | script.js:231 | `find` by slug: the first post with that slug, or none when no post has it |
| Commands.ListedPostOpens | script.js:219-236 | each listing line shows a post's title, and asking for that post's slug downloads exactly that post after its "Opening blog" line |
| Commands.FooterInstructionFails | script.js:226 | following the footer, `blog` and any slug, is answered with "Command not found" because `blog` is not registered |
| Commands.ShowBlog | script.js:219-236 | no argument or `list` prints the header, the posts in order and the footer and downloads nothing; a download is scheduled exactly when the first argument is a known slug, for that post, after one "Opening blog" line; any other slug gives exactly one "No blog post found" line |
| Commands.ListFiles | script.js:279-291 | with `-la` or `-a` among the arguments, exactly the seven-line long listing, whose last four rows name the four files in order; otherwise the one-line listing |
| Commands.CatFile | script.js:293-327 | a missing or empty first argument prints only the usage line; a known file prints its fixed lines; any other name prints exactly one "No such file or directory" line |
| Commands.ListedFilesAreReadable | script.js:279-327 | the files `ls` lists are exactly the files `cat` can print |
| Commands.CatReadsFirstArgOnly | script.js:294 | `cat` looks only at its first argument |
| Commands.CatHintsNameSectionCommands | script.js:293-327 | the last line of each file names a registered command that opens a section |
| Commands.SkillsFileIsMissing | script.js:199-204 | `skills` announces skills.txt, which `ls` does not list and `cat` rejects |
| Commands.HandleEffects | script.js:185-273 | only `clear` empties the output and only it prints nothing; the five section commands, and only they, announce their file and open the section of the same name after 500 ms; only `blogs` downloads; only `exit` closes the window |
| Commands.ArgumentsIgnoredElsewhere | script.js:58-76 | every handler except blogs, ls and cat ignores its arguments |
| Commands.ArgumentHandlers | script.js:64-70 | `blogs`, `ls` and `cat` pass their arguments to `showBlog`, `listFiles` and `catFile` and print what those select |
| Commands.OnlyDateReadsClock | script.js:333-336 | `date` prints the browser's date and time separated by one space; every other handler's effect does not depend on the clock |
| Commands.HelpOutput | script.js:168-183 | `help` prints the help listing and schedules nothing |
| Commands.ExitOutput | script.js:268-273 | `exit` prints the goodbye line and closes the window after 1000 ms |
| Commands.FixedOutputs | script.js:275-363 | `whoami`, `pwd`, `neofetch`, `profiles` and `reviews` print their own fixed lines and schedule nothing |
| Commands.LineIsWordAndArgs | script.js:123 | a non-blank normalised line has a non-empty, space-free command word, and the word and the arguments joined by spaces give the line back |
| Commands.WordThenRest | script.js:123 | a space-free word then a space: the word is the command word and the rest gives the arguments |
| Commands.WordAlone | script.js:123 | a line without spaces is a command word with no arguments |
| Commands.Dispatch | script.js:123-129 | an unregistered command word gives exactly one "Command not found" line naming it; a registered one runs that command's handler on the remaining space-separated words |
| Commands.BlogIsNotACommand | script.js:123-129 | a line whose command word is `blog` gets "Command not found", whatever follows |
| Commands.BlogsListsPosts | script.js:219-228 | `blogs` alone or `blogs list` lists the posts |
| Commands.ClearEmptiesOutput | script.js:264-266 | a line whose command word is `clear` leaves the output empty, its own echo included |
| Commands.PropertyAsWritten | script.js:125 | the property read finds an own entry exactly for registered words, the inherited `constructor` for "constructor" and the inherited `__proto__` for "__proto__" |
| Commands.DispatchAsWritten | script.js:125-129 | as written, the handler call throws exactly when the command word is `__proto__` |
| Commands.AsWrittenAgreesElsewhere | script.js:125-129 | for every other word than the two inherited names, the lookup as written behaves as `Dispatch` |
| Commands.ConstructorPrintsNothing | script.js:125-126 | as written, the line `constructor` prints nothing, where `Dispatch` prints "Command not found" |
| Commands.ProtoThrows | script.js:125-126 | as written, the line `__proto__` throws, where `Dispatch` prints "Command not found" |
| Commands.InheritedNamesSurviveNormalize | script.js:110 | both inherited names pass through trimming and lower-casing unchanged, so they can be typed |
| Commands.NormalWord | script.js:110 | a word of lower-case letters and underscores is already normalised |
| TerminalApp.Terminal.constructor | script.js:52-56 | the terminal keeps the page's input text, output lines and sections, and starts with an empty history and the cursor at -1 |
| TerminalApp.Terminal.AddOutputLine | script.js:134-139 | one line is appended at the end of the output |
| TerminalApp.Terminal.ClearTerminal | script.js:264-266 | the output is emptied |
| TerminalApp.Terminal.ExecuteCommand | script.js:109-132 | the input is emptied; a blank line changes nothing else; otherwise the normalised line is appended to the history, the cursor moves one past it, the output is the old output plus the echo with the effect of the corrected `Dispatch` applied (so `constructor` and `__proto__` get "Command not found", unlike the source; see Findings), and the command's deferred action is returned; the cursor bounds and the history's normal form are kept |
| TerminalApp.Terminal.Enter | script.js:116-129 | a normalised line is appended to the history, the cursor is set one past it, and the line is echoed and run |
| TerminalApp.Terminal.Run | script.js:123-129 | the output receives the dispatched command's effect |
| TerminalApp.Terminal.Perform | script.js:126 | a clearing handler empties the output, then the handler's lines are appended |
| TerminalApp.Terminal.NavigateHistory | script.js:151-165 | the cursor and the input move as `History.Navigate` says, the history is not touched, and the cursor bounds are kept |
| TerminalApp.Terminal.OpenSection | script.js:365-376 | after closing every section one by one and opening the requested one, the sections are `Sections.Opened` of the old ones |
| TerminalApp.Terminal.RunDeferred | script.js:237-254 | a delayed section opening opens that section; a downloaded post opens `blog-content` when the page has it, and a failed download appends the failure line naming the post's slug; closing the window leaves the terminal's state alone |
| TerminalApp.Terminal.ClickBlogLink | script.js:97-105 | a click on a post link shows the post as `blogs <slug>` would, without echo or history |

## Left out

- `MatrixBackground` is not part of this model. It is canvas drawing driven by `Math.random` and animation frames.
- The download of a post and the `marked` rendering are left out. They are asynchronous network work and a foreign library; the download's outcome comes into `RunDeferred` as a boolean, and the rendered HTML put into the blog section is not modelled.
- TerminalApp.Terminal.RunDeferred: `loaded` stands for the whole promise chain succeeding. A download that arrives but then fails inside the page (a `blog-content` section without a `.section-content` element, or `marked` throwing) reaches the same `catch` and prints the failure line; the model covers that case only when the caller passes `loaded` as false.
- Timers, `scrollToBottom`, `window.close`, `window.open` and `setSelectionRange` are left out as browser I/O. Timers become the `Deferred` value, and `exit`'s window closing is only scheduled.
- `date` reads the wall clock and formats it for the locale; the model takes the formatted date and time as a `Clock` parameter.
- `ContentManager` and its close buttons are not part of this model; they only clear section flags.
- The keydown wiring in `init` (Enter, ArrowUp, ArrowDown) is left out; its targets are `ExecuteCommand` and `NavigateHistory`.
- The HTML markup of output lines is left out. Four lines put typed text into `innerHTML` without escaping: the echo (script.js:120), "Command not found" (script.js:128), "No blog post found" (script.js:233) and the `cat` error (script.js:325). In the browser a typed `<`, `>` or `&` is parsed as markup, so `a&amp;b` is shown as `a&b` and a typed tag such as `<img src=x onerror=...>` runs script in the page. The model keeps typed text literally (while fixed text is modelled as displayed), so `Commands.EchoLine`, `Commands.NotFoundLine`, `Commands.NoPostLine` and `Commands.NoSuchFileLine` give the text before that parsing, not what is displayed.
- `Text.ToLower`: lower-cases only ASCII `A`-`Z`, where `toLowerCase` also maps other Unicode letters. JavaScript strings are UTF-16 code units, while Dafny strings are sequences of characters.
- `Commands.DispatchAsWritten`: models the `TypeError` of `__proto__` as `None`. It does not model that the exception also skips `scrollToBottom`.

## Findings

| source | as written | input that shows it | evidently intended | confidence | as-written member | corrected member |
|---|---|---|---|---|---|---|
| script.js:125-129 | `this.commands[cmd]` is a property read on a plain object, so it also finds properties inherited from `Object.prototype` | the line `constructor` prints nothing (it calls `Object`); the line `__proto__` throws a TypeError after being echoed and recorded | every unregistered word gets the "Command not found" line | high, not executed | Commands.DispatchAsWritten | Commands.Dispatch |
