# Portfolio templates: terminal interpreter, data normalisation and list views

This project is a Dafny model of the logic inside a developer-portfolio web
application that ships three templates. It covers three areas.

- **The terminal template's command interpreter** (`terminal.dfy`, `easter_eggs.dfy`, `terminal_utils.dfy`).
  - A typed line is trimmed, lower-cased and expanded through the shorthand table.
  - It is then dispatched: easter eggs first, then themes and history, then the built-ins, then typo detection or "not found".
  - Supporting pieces are the Levenshtein typo detector, the glitching "command not found" frames, the Konami-code tracker, the command-history cursor, tab completion, the pager and the typing test.
- **Portfolio-data normalisation** (`github_service.dfy`, `portfolio_storage.dfy`, `portfolio_reader.dfy`, `portfolio_data.dfy`, `education.dfy`). This covers:
  - GitHub URL parsing and project enrichment;
  - the API-response normalisation and the default merge of the portfolio store;
  - the reader's `.data` unwrap and featured/other split;
  - the data hook's skill, experience and image normalisation;
  - the education date ranges.
- **List logic inside the view components** (`projects.dfy`, `projects_grid.dfy`, `tech_stack.dfy`, `tech_stack_filter.dfy`). This covers:
  - project search and technology filters, sort orders, toggles and top-N selection;
  - the first template's "show more" grid and technology badges;
  - skill grouping by category, the programming-language filter, proficiency bands and category priority.

Three modules hold shared helpers:
- `text.dfy`: JavaScript string operations and integer-to-string conversion.
- `json.dfy`: loosely typed JavaScript values, property reads, object spread.
- `seqs.dfy`: filters, deduplication, stable sorting by key, subsequences.

## How the model is built

- **The terminal component** is a class.
  - Its fields are the React state: input, command history, history cursor, output, theme, matrix flag, pager, blink, typing test and retro mode.
  - Each event handler is a method with a `modifies` clause. The method states the whole new state.
  - A handler sees the state as it was when the event fired, and its updates land afterwards. So the `history` listing shows the history without the command being run, and the pager pages show the page at the old cursor.
- **The Konami tracker** is a class of its own, since its progress count lives at module level.
- **Randomness** is a parameter: `Math.random` is a stream `nat -> real` of draws in [0, 1). The clock is a `now` parameter.
- **Numbers** are integers. `Math.round(p / q)` is computed exactly on rationals. The results the model keeps that can be NaN or Infinity use a `JsNumber` datatype.
- **Loosely shaped objects** are a `Json` datatype. An object is a sequence of (key, value) pairs in enumeration order, and `undefined` and `null` are distinct values.
- **Loops in the source become methods with loops**, each proved against a specification function: the edit-distance matrix, the typo scan, the glitch text, the blinking frames, the accuracy count, getNestedValue, processSkills, the tech Set, the filter effect and the category grouping.

## Model

| member | source | states |
|---|---|---|
| EasterEggs.PickIndex | src3/utils/easterEggs.ts:122 | `Math.floor(r * n)` for a draw in [0, 1) is a valid index into a list of n items |
| EasterEggs.StartTypingTest | src3/utils/easterEggs.ts:119-124 | the test starts with one of the given quotes and at the given time |
| EasterEggs.CalculateSpeed | src3/utils/easterEggs.ts:127-131 | words per minute, rounded; its meaning is given by SpeedOfInstantFinish and SpeedSlowsWithTime below |
| EasterEggs.SpeedOfInstantFinish | src3/utils/easterEggs.ts:127-131 | the word count is at least one, so zero elapsed time gives Infinity words per minute |
| EasterEggs.SpeedSlowsWithTime | src3/utils/easterEggs.ts:127-131 | for positive times, taking longer never gives a higher rounded speed |
| EasterEggs.RoundingAntitone | src3/utils/easterEggs.ts:130 | the rounded quotient p / q never grows as q grows |
| EasterEggs.ThreeWordsInHalfAMinute | src3/utils/easterEggs.ts:127-131 | a quote with two spaces (three words) typed in 30000 ms gives 6 |
| EasterEggs.EggFor | src3/utils/easterEggs.ts:135-194 | a command takes an easter-egg branch exactly when it is an own key of the misspelling table (length > 2), one of the words coffee, break, launch, rocket, rain, matrix, cow, fortune, 42, sudo, or contains "moo"; the misspelling table is tested first |
| EasterEggs.FortuneReply | src3/utils/easterEggs.ts:168-183 | the fortune reply is the prefix followed by one of the listed fortunes |
| EasterEggs.GenerateRandomResponse | src3/utils/easterEggs.ts:135-194 | non-null exactly for the own keys of the misspelling table, the special words and anything containing "moo"; a misspelling gets its table reply; "fortune" gets one of the fortunes |
| EasterEggs.LevenshteinDistance | src3/utils/easterEggs.ts:213-247 | the matrix loops compute the unit-cost insert/delete/substitute distance |
| EasterEggs.FillRow | src3/utils/easterEggs.ts:230-244 | one pass of the inner loop fills row i of the matrix with the distances of the prefixes |
| EasterEggs.EditDistanceCell | src3/utils/easterEggs.ts:232-241 | the cell recurrence: equal characters copy the diagonal, otherwise 1 + the least of the three neighbours |
| EasterEggs.EditDistanceZeroIff | src3/utils/easterEggs.ts:213-247 | the distance is 0 exactly when the strings are equal |
| EasterEggs.EditDistanceBounds | src3/utils/easterEggs.ts:213-247 | the distance is at most the longer length and at least the difference of the lengths (so an empty side gives the other's length) |
| EasterEggs.EditDistanceSymmetric | src3/utils/easterEggs.ts:213-247 | the distance does not depend on the order of its arguments |
| EasterEggs.EditDistanceAtLeastMissing | src3/utils/easterEggs.ts:213-247 | every character of a that b lacks costs at least one edit |
| EasterEggs.TranspositionIsClose | src3/utils/easterEggs.ts:197-210 | "hepl" is within distance 1 or 2 of "help", so it counts as a typo of it |
| EasterEggs.HasTypo | src3/utils/easterEggs.ts:197-210 | true exactly when the command has 3 or more characters and some valid command is at distance 1 or 2 (an exact match does not count) |
| EasterEggs.GlitchCharFor | src3/utils/easterEggs.ts:257 | the character a draw picks is one of the glitch characters |
| EasterEggs.Glitch | src3/utils/easterEggs.ts:250-265 | the glitched text has the input's length and uses one or two draws per character |
| EasterEggs.GlitchIsGlitchOf | src3/utils/easterEggs.ts:250-265 | each glitched character is the original one or a glitch character |
| EasterEggs.GenerateGlitchText | src3/utils/easterEggs.ts:250-265 | the loop builds exactly the glitched text, consuming draws in order |
| EasterEggs.GlitchWithoutHits | src3/utils/easterEggs.ts:254-262 | when no draw is below 0.2 the text comes back unchanged |
| EasterEggs.GenerateBlinkingEffect | src3/utils/easterEggs.ts:268-290 | exactly 8 frames: frames 0, 2, 4, 6 are "Command not found: cmd", frames 1, 3, 5 are the garbled prefix followed by a glitch of cmd, frame 7 adds the help hint |
| EasterEggs.KonamiProgress | src3/utils/easterEggs.ts:302-318 | the progress count after any run of keys stays below 10 |
| EasterEggs.KonamiProgressMeaning | src3/utils/easterEggs.ts:302-318 | the count is the length of a prefix of the code with which the keys end |
| EasterEggs.KonamiCompletionSound | src3/utils/easterEggs.ts:302-318 | a completion means the last ten keys were exactly the code |
| EasterEggs.KonamiFromStart | src3/utils/easterEggs.ts:302-318 | typing the code from a fresh start completes it on the tenth key and not before |
| EasterEggs.KonamiPrefixProgress | src3/utils/easterEggs.ts:302-318 | after the first n keys of the code the count is n |
| EasterEggs.KonamiExtraKeyRestarts | src3/utils/easterEggs.ts:305-317 | a wrong key resets to 0 even when it equals the first key, so an extra ArrowUp before the code does not complete it |
| EasterEggs.KonamiStaysAtZero | src3/utils/easterEggs.ts:302-318 | without an ArrowUp the count never leaves zero |
| EasterEggs.KonamiTracker.constructor | src3/utils/easterEggs.ts:293-299 | the tracker starts at index 0 |
| EasterEggs.KonamiTracker.CheckKonamiCode | src3/utils/easterEggs.ts:302-318 | the expected key advances the index and any other resets it; the tenth match completes, resets to 0 and returns the reward message |
| Terminal.AliasedCommand | src3/components/Terminal.tsx:36-80 | no expansion is itself a shorthand; anything that is not a shorthand passes through unchanged; a shorthand expands to a valid command or to download with -p or -r |
| Terminal.AliasedCommandIdempotent | src3/components/Terminal.tsx:36-80 | expanding an expanded command changes nothing |
| Terminal.Builtin | src3/components/Terminal.tsx:614-973 | the action of an aliased command that is not an easter egg, in the source's order of tests; what each action is reached by is stated in the four lemmas below |
| Terminal.ThemeAction | src3/components/Terminal.tsx:614-646 | the theme command lists the themes, sets a known theme or reports an unknown one, and does nothing else |
| Terminal.BuiltinWords | src3/components/Terminal.tsx:648-711 | history, clear-history, the empty command, clear, help, fortune and typingtest/type each give their action exactly when the aliased command is that word: no `theme …` test catches one first |
| Terminal.BuiltinViews | src3/components/Terminal.tsx:712-832 | a data view is shown exactly when the aliased command is one of the data-view names, and it is the view of that name |
| Terminal.BuiltinMatrix | src3/components/Terminal.tsx:833-838 | the matrix effect is toggled exactly when the aliased command is "matrix" |
| Terminal.BuiltinLateWords | src3/components/Terminal.tsx:918-935 | reload, ascii and exit each give their action exactly when the aliased command is that word: the download test does not catch one first |
| Terminal.ToggleMatrixOnlyVia | src3/components/Terminal.tsx:595-838 | after the easter eggs and the aliases, the matrix effect is toggled exactly by "m" and "mtx"; "matrix" itself is an easter egg and never reaches the toggle |
| Terminal.FortuneOnlyVia | src3/components/Terminal.tsx:595-709 | after the easter eggs and the aliases, the terminal's own fortunes are shown exactly for "f"; "fortune" itself is an easter egg |
| Terminal.Dispatch | src3/components/Terminal.tsx:595-973 | the normalised command takes the easter-egg branch exactly when generateRandomResponse answers it, with that reply; only then are the aliases and built-ins tried |
| Terminal.EggWordsShadowBuiltins | src3/components/Terminal.tsx:604-611 | "matrix" and "fortune" give easter-egg replies; the matrix toggle is reached through "m" and "mtx" and the terminal fortunes through "f" |
| Terminal.NotAnEgg | src3/components/Terminal.tsx:604-611 | no command of three characters or fewer other than "moo", "cow" and "42" is an easter egg, so the shorthands reach their built-ins |
| Terminal.DownloadShortcuts | src3/components/Terminal.tsx:839-917 | "dlp" and "dlr" expand to the download command with the -p and the -r flag as the second word |
| Terminal.DownloadWithFlag | src3/components/Terminal.tsx:839-842 | "download" followed by a two-character flag splits on ' ' into the command and the flag |
| Terminal.TypoExamples | src3/components/Terminal.tsx:962-973 | against the terminal's valid commands, "hepl" is a typo and "xyzxyz" is not |
| Terminal.FarFromValid | src3/components/Terminal.tsx:258-262 | every valid command is at least three edits from "xyzxyz" |
| Terminal.Accuracy | src3/components/Terminal.tsx:545-556 | `Math.round(correct / length * 100)`; its meaning is given by AccuracyBounds and PerfectAccuracy |
| Terminal.CountCorrectChars | src3/components/Terminal.tsx:548-554 | the accuracy loop counts the equal positions up to the shorter length |
| Terminal.AccuracyBounds | src3/components/Terminal.tsx:556 | for a non-empty quote the accuracy is a whole number between 0 and 100 |
| Terminal.PerfectAccuracy | src3/components/Terminal.tsx:548-556 | typing the quote exactly scores 100 |
| Terminal.AccuracyOfOneSlip | src3/components/Terminal.tsx:548-556 | "the cat sad" against "the cat sat" scores 91 |
| Terminal.Matches | src3/components/Terminal.tsx:550-554 | the count of agreeing positions never exceeds the positions compared |
| Terminal.Advance | src3/components/Terminal.tsx:1227-1261 | pager advance moves the cursor by the step; reaching the total closes the pager and empties it; an open pager keeps its cursor on one of its lines |
| Terminal.AdvanceTimesMeaning | src3/components/Terminal.tsx:1227-1261 | after k presses the pager is open exactly while cursor + k * step < total, with only the cursor changed |
| Terminal.FortyFiveLines | src3/components/Terminal.tsx:1227-1261 | with 45 lines the pager closes on the third page-down or the 45th line-down |
| Terminal.FirstLarge | src3/components/Terminal.tsx:1355-1360 | finds the first response of more than 20 lines, and there is one exactly when some line is that large |
| Terminal.Animated | src3/components/Terminal.tsx:1349-1353 | lines keep kind and text; non-command lines start animating from an empty animated text, command lines are complete |
| Terminal.Completions | src3/components/Terminal.tsx:1005-1014 | the Tab candidates starting with the lower-cased input; proved in CompletionsMeaning |
| Terminal.CompletionsMeaning | src3/components/Terminal.tsx:1005-1014 | the completions are the candidates starting with the lower-cased input, in candidate order |
| Terminal.AliasKeysAreTheAliases | src3/components/Terminal.tsx:1006 | the shorthands Tab offers are exactly the alias table's keys |
| Terminal.AliasKeysDistinct | src3/components/Terminal.tsx:36-80 | the alias table lists each shorthand once |
| Terminal.Welcome | src3/components/Terminal.tsx:379-390 | the five welcome lines: logo, site title, greeting with the user name, date text, blank line; the constructor starts the output with them |
| Terminal.Terminal.constructor | src3/components/Terminal.tsx:213-247 | the initial state: the welcome lines, empty input and history, cursor -1, classic theme, pager, blink and typing test off |
| Terminal.Terminal.SetInput | src3/components/Terminal.tsx:213 | typing sets the input field and nothing else |
| Terminal.Terminal.ExecuteCommand | src3/components/Terminal.tsx:583-974 | during a typing test the input field is scored and nothing is recorded; otherwise the line joins the history, the cursor resets to -1, the echo and the reply are printed (clear wipes, clear-history empties the history), and theme, matrix, typing-test and blink state follow the dispatched action |
| Terminal.Terminal.Perform | src3/components/Terminal.tsx:591-973 | the effect of a dispatched action on the whole state |
| Terminal.Terminal.PerformUnknown | src3/components/Terminal.tsx:962-973 | an unrecognised command is recorded and echoed, then blinks if it is a typo and is reported as not found otherwise |
| Terminal.Reply | src3/components/Terminal.tsx:614-961 | the lines each action prints; ApplyReply and ExecuteCommand state how they reach the output |
| Terminal.Terminal.ApplyReply | src3/components/Terminal.tsx:614-961 | a printing action appends its reply; clear-history empties the history; the theme is set and the matrix follows a theme change; "m" toggles the matrix |
| Terminal.Terminal.ReportUnknown | src3/components/Terminal.tsx:962-973 | a near miss starts the blinking frames, anything else prints "Command not found" |
| Terminal.Terminal.StartTypingTest | src3/components/Terminal.tsx:505-534 | a quote is drawn, shown and timed from now, and the input is cleared |
| Terminal.Terminal.EndTypingTest | src3/components/Terminal.tsx:537-580 | the input field is echoed and scored against the quote, and the test ends with the input cleared |
| Terminal.Terminal.Submit | src3/components/Terminal.tsx:1289-1314 | Enter does nothing while the pager is open; otherwise it runs the input as a command and clears the input |
| Terminal.Terminal.CompleteReload | src3/components/Terminal.tsx:918-928 | the refresh outcome prints a success line or the error |
| Terminal.Terminal.HandleKeyDown | src3/components/Terminal.tsx:984-1025 | ArrowUp moves the cursor up while it is below len - 1 and shows history[len - 1 - index]; ArrowDown moves it down and clears the input at -1; Tab with one completion takes it, with several prints them, with none or empty input does nothing |
| Terminal.Terminal.KonamiKey | src3/components/Terminal.tsx:455-488 | outside a typing test each key drives the tracker; a completion toggles retro mode, prints the reward and turns the matrix on exactly for the matrix theme |
| Terminal.Terminal.AddToOutput | src3/components/Terminal.tsx:1344-1380 | a no-op while the pager is open; otherwise a response of more than 20 lines opens the pager on its lines at cursor 0, and failing that the animated lines are appended |
| Terminal.Terminal.EnterPagerMode | src3/components/Terminal.tsx:1192-1205 | the pager opens on the content's lines at line 0; the page shown is the one of the state the handler saw |
| Terminal.Terminal.ExitPagerMode | src3/components/Terminal.tsx:1207-1225 | the pager closes and empties; its closing line goes through addToOutput, which still sees the pager open |
| Terminal.Terminal.Scroll | src3/components/Terminal.tsx:1227-1261 | page-down and line-down advance the pager by 20 or 1 and redraw while it stays open |
| Terminal.Terminal.PagerKey | src3/components/Terminal.tsx:1155-1189 | while the pager is open, Space pages, Enter scrolls a line and q closes it; otherwise keys are ignored |
| Terminal.RecallPrevious | src3/components/Terminal.tsx:985-1001 | after two ArrowUp and one ArrowDown from a fresh cursor the input is the last command again |
| TerminalUtils.TruncateWithEllipsis | src3/utils/terminalUtils.ts:11-15 | the empty string and strings within the limit are returned unchanged; a longer one becomes its first maxLength characters followed by "..." |
| TerminalUtils.TruncateBound | src3/utils/terminalUtils.ts:11-15 | a truncated string is at most maxLength + 3 long |
| TerminalUtils.TruncateIdempotent | src3/utils/terminalUtils.ts:11-15 | truncating again with the same non-negative limit changes nothing |
| TerminalUtils.GetNestedValue | src3/utils/terminalUtils.ts:44-58 | the loop walks the dot-separated keys and returns the value the specification function defines |
| TerminalUtils.WalkAppend | src3/utils/terminalUtils.ts:50-55 | walking two key lists one after the other is walking their concatenation |
| TerminalUtils.NestedValueComposes | src3/utils/terminalUtils.ts:44-58 | looking up "p.q" is looking up q in the value at p |
| TerminalUtils.NestedValueKeepsNull | src3/utils/terminalUtils.ts:57 | a stored null is returned as null; only a missing key falls back to the default |
| TerminalUtils.NestedValueStopsAtPrimitives | src3/utils/terminalUtils.ts:45-53 | a value that is not an object gives the default, whatever the path |
| GithubService.RunEnd | src/lib/githubService.ts:70 | a character-class run ends at the first stop character or at the end of the string |
| GithubService.MatchAt | src/lib/githubService.ts:70-71 | the pattern's two groups at a position, which are unique when they exist |
| GithubService.MatchUnique | src/lib/githubService.ts:70 | the greedy groups are the maximal runs, so a match at a position is unique |
| GithubService.FirstMatch | src/lib/githubService.ts:71 | `String.prototype.match` finds the leftmost position where the pattern matches, and none when no position does |
| GithubService.FirstMatchFrom | src/lib/githubService.ts:71 | when no earlier position matches, the leftmost match is the one at the given position |
| GithubService.ExtractRepoInfoFromUrl | src/lib/githubService.ts:65-84 | null for a missing or empty URL and for text without the pattern; otherwise a non-empty '/'-free owner and the repository group with its first ".git" removed |
| GithubService.PlainLinkMatch | src/lib/githubService.ts:70-71 | "https://github.com/owner/repo" matches with exactly those groups |
| GithubService.ExtractPlainLink | src/lib/githubService.ts:65-84 | a plain repository link gives back its owner and repository |
| GithubService.GetRepoImageUrl | src/lib/githubService.ts:108-116 | the default image for an unparsable URL, otherwise the opengraph URL of owner and repository |
| GithubService.PreviewIsNotDefault | src/lib/githubService.ts:108-116 | the image is the default exactly when the URL is unparsable |
| GithubService.GetBasicProjectInfo | src/lib/githubService.ts:119-129 | null exactly when the extractor is null, otherwise the repository as name and the owner |
| GithubService.LevelFromCount | src/lib/githubService.ts:254 | min(floor(count / 2), 4) lies in [0, 4] for a count of zero or more |
| GithubService.ContributionLevel | src/lib/githubService.ts:162 | a truthy intensity is kept, otherwise the count formula gives a level in [0, 4] |
| GithubService.LevelMonotone | src/lib/githubService.ts:254 | the level grows with the count and is 4 from 8 contributions on |
| GithubService.OrElse | src/lib/githubService.ts:293 | `a \|\| b` on optional strings: the result is one of the two, it is truthy exactly when one of them is, and a truthy `a` wins |
| GithubService.RepoTechnologies | src/lib/githubService.ts:296-299 | the language (when truthy) and then the topics, each once, the language first |
| GithubService.DedupHead | src/lib/githubService.ts:296-299 | deduplication keeps the first element first |
| GithubService.EnhanceProjectWithGithubData | src/lib/githubService.ts:261-320 | the enriched project; its meaning is stated field by field in EnhanceProperties |
| GithubService.EnhanceProperties | src/lib/githubService.ts:261-320 | the enriched project keeps id and featured; the image and title come from the URL; description, demo (project's first), technologies and repository data come from the fetched repository, and only when one was fetched |
| Projects.ViewImageUrl | src2/components/Projects.tsx:25-38 | the default image without a match of github.com/a/b, otherwise the opengraph URL of the two '/'-free groups |
| Projects.ViewImageKeepsRepoSegment | src/components/Projects.tsx:23-36 | the component keeps the whole repository segment, ".git", "?" and "#" included |
| Projects.ViewAndServiceDisagreeOnGitSuffix | src/components/Projects.tsx:23-36 | for github.com/o/site.git the component previews "site.git" and the service previews "site" |
| Projects.FirstGitAtEnd | src/lib/githubService.ts:76 | removing the first ".git" of name + ".git" gives name when name holds no ".gi" |
| Projects.CollectTechnologies | src2/components/Projects.tsx:366-369 | the forEach adds every technology to the Set, each once in first-met order |
| Projects.AvailableTechnologies | src2/components/Projects.tsx:365-370 | the Set sorted in code-unit order |
| Projects.AvailableTechnologiesMeaning | src/components/Projects.tsx:101-105 | the offered technologies are sorted, distinct, and exactly those some project lists |
| Projects.AllTechnologiesMembership | src2/components/Projects.tsx:366-369 | a technology is collected exactly when some project lists it |
| Projects.FilterProjects | src2/components/Projects.tsx:375-396 | the effect applies the search filter when the query is not blank, then the technology filter when some technology is selected |
| Projects.FilteredMeaning | src/components/Projects.tsx:143-166 | the result is a subsequence of the projects holding exactly those matching both filters; with a blank query and no selection it is the whole list |
| Projects.SelectingNarrows | src2/components/Projects.tsx:389-393 | selecting technologies can only shrink the list |
| Projects.ToggleTech | src2/components/Projects.tsx:435-441 | the toggled technology's membership flips, every other one is kept in order, and no duplicate arises |
| Projects.ToggleTechTwice | src/components/Projects.tsx:169-175 | toggling an unselected technology twice restores the selection exactly |
| Projects.ToggleSort | src2/components/Projects.tsx:430-432 | choosing the current order clears it, choosing another selects it |
| Projects.ToggleSortTwice | src2/components/Projects.tsx:430-432 | choosing the same order twice returns to it when it was current and otherwise leaves no order |
| Projects.EnhanceProject | src2/components/Projects.tsx:720-739 | a project with repository data is unchanged; otherwise it gains repository data exactly when stars and forks are both given, from those fields, the first technology and the update time |
| Projects.EnhanceIdempotent | src/components/Projects.tsx:121-140 | enhancing twice is enhancing once |
| Projects.SortedProjects | src2/components/Projects.tsx:399-427 | the sorted filtered list; its meaning is proved in SortedProjectsMeaning |
| Projects.SortedProjectsMeaning | src2/components/Projects.tsx:399-427 | a permutation of the filtered list: the original order without a sort order; otherwise featured first then stars descending, or update time descending, or stars descending, with ties in their original order |
| Projects.DisplayCount | src2/components/Projects.tsx:696-697 | the section shows 4 cards exactly on windows at least 768 pixels wide, and 2 otherwise |
| Projects.TopProjects | src2/components/Projects.tsx:742-759 | the home-page selection; its meaning is proved in TopProjectsLength, TopProjectsEnoughFeatured and TopProjectsFilledUp |
| Projects.TopProjectsLength | src2/components/Projects.tsx:742-759 | the section shows min(displayCount, number of projects) projects |
| Projects.MostStarredOthersMeaning | src2/components/Projects.tsx:753-756 | the non-featured projects come most starred first |
| Projects.TopProjectsEnoughFeatured | src2/components/Projects.tsx:749-750 | with enough featured projects, the first displayCount of them |
| Projects.TopProjectsFilledUp | src2/components/Projects.tsx:752-758 | otherwise all featured projects in order, then non-featured ones by stars descending |
| ProjectsGrid.LoadProjects | src/components/Projects.tsx:91-98 | `data.projects \|\| []` with each project enhanced |
| ProjectsGrid.LoadKeepsTechnologies | src/components/Projects.tsx:96-104 | enhancing does not change the technologies the filters offer |
| ProjectsGrid.RefreshFilter | src/components/Projects.tsx:143-166 | the effect does nothing while there are no projects and otherwise filters |
| ProjectsGrid.VisibleProjects | src/components/Projects.tsx:334-335 | the grid shows a prefix: all projects with "show more" on, otherwise the first four |
| ProjectsGrid.MoreButtonAsWritten | src/components/Projects.tsx:471-480 | the button appears exactly above six projects |
| ProjectsGrid.FifthAndSixthUnreachable | src/components/Projects.tsx:334-480 | with five or six projects and show-more off, some stay hidden and there is no button to show them: so they stay hidden while show-more is off, and always when the whole list has at most six projects |
| ProjectsGrid.SevenProjectsMiscount | src/components/Projects.tsx:477-479 | with seven projects the button promises one more while three are hidden |
| ProjectsGrid.MoreButton | src/components/Projects.tsx:334-335 | the corrected button appears exactly above four projects |
| ProjectsGrid.EveryProjectReachable | src/components/Projects.tsx:334-335 | with the corrected button every project can be shown, and the button counts the hidden ones |
| ProjectsGrid.Badges | src/components/Projects.tsx:414-432 | at most four badges, none without technologies |
| ProjectsGrid.BadgesAccountForAll | src/components/Projects.tsx:417-431 | the first three technologies, then "+n" for the n not shown when there are more than three |
| TechStack.ColorBand | src2/components/TechStack.tsx:31-36 | the colour band is 3 from 80, 2 from 60, 1 from 40 and 0 below (the same bands as src/components/TechStack.tsx:25-30) |
| TechStack.LabelBand | src2/components/TechStack.tsx:39-45 | the label band is Expert from 85, Advanced from 70, Intermediate from 50, Beginner from 30, Novice below |
| TechStack.ProficiencyColor | src2/components/TechStack.tsx:31-36 | one of the four colour classes, green exactly from 80 and gray exactly below 40 |
| TechStack.ProficiencyLabel | src2/components/TechStack.tsx:39-45 | one of the five labels, Expert exactly from 85 and Novice exactly below 30 |
| TechStack.BandsMonotone | src2/components/TechStack.tsx:31-45 | a higher proficiency never gets a lower colour or label |
| TechStack.BandNamesDistinct | src2/components/TechStack.tsx:31-45 | the four colours and the five labels are distinct |
| TechStack.ExpertIsGreen | src2/components/TechStack.tsx:31-45 | an Expert is drawn green, and a green skill is at least Advanced |
| TechStack.GroupKeys | src2/components/TechStack.tsx:128 | the record's keys in insertion order |
| TechStack.AddSkillMeaning | src2/components/TechStack.tsx:131-135 | one step throws exactly when the category is a property name of Object.prototype (the truthy inherited read skips the bucket and `.push` fails); otherwise it adds the category as a key if it is new and pushes the skill onto its bucket only |
| TechStack.GroupByCategory | src2/components/TechStack.tsx:127-136 | the record after the forEach, or None when a push throws; GroupingThrows and the lemmas below give its meaning |
| TechStack.GroupingThrows | src2/components/TechStack.tsx:130-136 | the grouping throws exactly when some skill has an inherited property name as its category |
| TechStack.CategoriesOf | src2/components/TechStack.tsx:131 | the categories of the skills, one per skill |
| TechStack.GroupKeysAreCategories | src2/components/TechStack.tsx:128-136 | when the grouping does not throw, the record's keys are the categories in first-met order |
| TechStack.BucketIsCategory | src2/components/TechStack.tsx:128-136 | when the grouping does not throw, each bucket holds exactly its category's skills, in input order |
| TechStack.BucketSizesTotal | src2/components/TechStack.tsx:128-136 | when the grouping does not throw, the bucket sizes add up to the number of skills |
| TechStack.GroupSkills | src/components/TechStack.tsx:83-90 | the forEach builds the same record, and returns None where the push on an inherited category name throws |
| TechStack.CategoryPriority | src2/components/TechStack.tsx:140-151 | a category ranks 99 exactly when it is none of the eight ranked ones, and otherwise ranks by its 1-based position in Backend, Frontend, Mobile, Systems, Cloud, Architecture, AI, Data/AI |
| TechStack.SortedCategories | src2/components/TechStack.tsx:139-152 | the keys under the priority sort; proved in SortedCategoriesMeaning |
| TechStack.SortedCategoriesMeaning | src2/components/TechStack.tsx:139-152 | for any record, the sorted categories are a permutation of its keys, by priority, ties in first-seen order |
| TechStack.SelectCategory | src2/components/TechStack.tsx:257-259 | clicking the selected category clears it, clicking another selects it |
| TechStack.SelectCategoryTwice | src2/components/TechStack.tsx:257-259 | two clicks on a category return to it when it was selected and otherwise clear the selection |
| TechStack.SomethingToShow | src2/components/TechStack.tsx:155 | when the grouping does not throw, the empty state is avoided exactly when there is a category or a tech-stack entry |
| TechStackFilter.FilteredTopSkills | src/components/TechStack.tsx:70-80 | exactly the skills whose lower-cased name contains none of the language markers, in order |
| TechStackFilter.DjangoIsDropped | src/components/TechStack.tsx:70-80 | "Django" is dropped because it contains "go" |
| TechStackFilter.MongoIsDropped | src/components/TechStack.tsx:70-80 | "MongoDB" is dropped too |
| TechStackFilter.NoMarkerLetterStays | src/components/TechStack.tsx:70-80 | a name without the markers' first letters stays |
| TechStackFilter.PanelsThrow | src/components/TechStack.tsx:83-90 | the panels' grouping throws exactly when a skill that survives the language filter has an inherited property name as its category |
| TechStackFilter.PanelSkills | src/components/TechStack.tsx:132 | a panel shows a prefix of at most three skills of its bucket |
| TechStackFilter.PanelMeaning | src/components/TechStack.tsx:83-132 | when the grouping does not throw, a bucket holds exactly the non-language skills of its category, and the panel shows min(3, size) of them |
| TechStackFilter.OnlyLanguagesMeansNoData | src/components/TechStack.tsx:93 | if every top skill is a language and there is no tech stack, the empty state shows |
| PortfolioData.EnsureAbsoluteUrl | src/hooks/usePortfolioData.tsx:101-116 | the default image for an absent or empty URL, the URL unchanged otherwise |
| PortfolioData.EnsureAbsoluteUrlIdempotent | src/hooks/usePortfolioData.tsx:101-116 | the result is never empty and normalising it again changes nothing |
| PortfolioData.SkillLevel | src/hooks/usePortfolioData.tsx:135 | max(30, 100 - 5 * index) lies in [30, 100] |
| PortfolioData.SkillLevelNonIncreasing | src/hooks/usePortfolioData.tsx:135 | later names in a category never get a higher level |
| PortfolioData.CategorySkills | src/hooks/usePortfolioData.tsx:133-141 | one skill object per name, in order, with its position's level |
| PortfolioData.ProcessSkills | src/hooks/usePortfolioData.tsx:119-146 | [] for a falsy value, an array unchanged, otherwise the skills of the array-valued entries in entry order |
| PortfolioData.EntrySkillsMeaning | src/hooks/usePortfolioData.tsx:130-143 | as many skills as the array values hold names, each with a string category and a level in [30, 100] |
| PortfolioData.SkillObjectWellFormed | src/hooks/usePortfolioData.tsx:136-140 | the skill object reads back its name, category and level |
| PortfolioData.OneCategory | src/hooks/usePortfolioData.tsx:127-145 | a single category's names become skills in order with non-increasing levels |
| PortfolioData.OneCategorySkills | src/hooks/usePortfolioData.tsx:127-145 | processing a one-category object gives that category's skills |
| PortfolioData.ProcessExperience | src/hooks/usePortfolioData.tsx:152-161 | one normalised experience; its fields are stated in ExperienceRole, ExperienceDuration, ExperienceCompany, ExperienceDescription, ExperienceAchievements, ExperienceKeys and ExperienceId |
| PortfolioData.ProcessExperiences | src/hooks/usePortfolioData.tsx:149-163 | [] for a falsy value; the mapping succeeds exactly for a falsy value or an array with no null or undefined item; an array keeps its length and order, one normalised experience per item |
| PortfolioData.ExperienceRole | src/hooks/usePortfolioData.tsx:157 | role is the title when truthy, else the role, else '' |
| PortfolioData.ExperienceDuration | src/hooks/usePortfolioData.tsx:158 | duration is the dates when truthy, else the duration, else '' |
| PortfolioData.ExperienceCompany | src/hooks/usePortfolioData.tsx:156 | company defaults to '' |
| PortfolioData.ExperienceDescription | src/hooks/usePortfolioData.tsx:159 | description defaults to '' |
| PortfolioData.ExperienceAchievements | src/hooks/usePortfolioData.tsx:160 | achievements default to [] |
| PortfolioData.ExperienceKeys | src/hooks/usePortfolioData.tsx:154-161 | the object has exactly the six keys, in order, and keeps its id |
| PortfolioData.ExperienceId | src/hooks/usePortfolioData.tsx:155 | every experience has a truthy id: its own or a generated one |
| PortfolioData.ProjectImage | src/hooks/usePortfolioData.tsx:172 | a falsy image becomes the default image and a non-empty string is kept; the call fails exactly for a truthy non-string image, where `ensureAbsoluteUrl` throws |
| PortfolioData.NormalizeProject | src/hooks/usePortfolioData.tsx:170-173 | one project with its image normalised; None exactly where the source throws: reading `.image` of a null or undefined project, or `ensureAbsoluteUrl` on a truthy non-string image; the fields are stated in NormalizeProjectMeaning |
| PortfolioData.NormalizeProjectMeaning | src/hooks/usePortfolioData.tsx:170-173 | the spread keeps every other field and sets the image |
| PortfolioData.NormalizeProjects | src/hooks/usePortfolioData.tsx:170-173 | no projects give []; the mapping succeeds exactly for null, undefined, or an array each of whose items normalises; an array keeps its length |
| PortfolioData.NormalizeAll | src/hooks/usePortfolioData.tsx:170-173 | each project is normalised in place, or the mapping fails on the first project it cannot read |
| PortfolioStorage.DefaultPortfolio | src/lib/portfolioStorage.ts:160-189 | the default portfolio has exactly the declared keys in order |
| PortfolioStorage.DefaultKeysDistinct | src/lib/portfolioStorage.ts:160-189 | the default portfolio declares each key once |
| PortfolioStorage.ProcessApiResponse | src/lib/portfolioStorage.ts:192-225 | the default portfolio for a missing response or data field, an object otherwise |
| PortfolioStorage.ApiResponseKeys | src/lib/portfolioStorage.ts:202-220 | a processed response has exactly the listed keys and lastUpdated, set to now |
| PortfolioStorage.ApiResponseDropsOthers | src/lib/portfolioStorage.ts:202-220 | any other key of the data is dropped |
| PortfolioStorage.ApiResponseField | src/lib/portfolioStorage.ts:203-218 | each listed field is the data's when truthy and the default value otherwise |
| PortfolioStorage.FallbackIsDefault | src/lib/portfolioStorage.ts:203-218 | each written fallback equals the default portfolio's value for that key |
| PortfolioStorage.GetPortfolio | src/lib/portfolioStorage.ts:234-263 | the file, then the stored string, then the defaults, each merged over the defaults; its meaning is proved in the lemmas below |
| PortfolioStorage.GetPortfolioKeepsDefaultKeys | src/lib/portfolioStorage.ts:234-263 | every result starts with the default keys in order |
| PortfolioStorage.EveryDefaultPropertyPresent | src/lib/portfolioStorage.ts:234-263 | every default key is present in every result |
| PortfolioStorage.FileOverridesDefaults | src/lib/portfolioStorage.ts:240-243 | from the file, each key is the file's when it has one and the default otherwise |
| PortfolioStorage.FileComesFirst | src/lib/portfolioStorage.ts:237-244 | a usable file decides the result whatever is stored |
| PortfolioStorage.NullFileFallsThrough | src/lib/portfolioStorage.ts:242-247 | a null file body throws on `.data` and falls through like a missing file |
| PortfolioStorage.NoSourceGivesDefaults | src/lib/portfolioStorage.ts:250-262 | no file and nothing usable stored give the defaults |
| PortfolioStorage.FileEnvelopeUnwrapped | src/lib/portfolioStorage.ts:242-243 | a file envelope {data: ...} is unwrapped: its contents are merged and no data key remains |
| PortfolioStorage.EnvelopeContents | src/lib/portfolioStorage.ts:243 | spreading an envelope's contents over defaults without data |
| PortfolioStorage.StoredEnvelopeKept | src/lib/portfolioStorage.ts:250-253 | the same envelope in storage is not unwrapped and stays under data |
| PortfolioStorage.DefaultsHaveNoData | src/lib/portfolioStorage.ts:160-189 | the default portfolio has no data key |
| PortfolioReader.ReadPortfolioData | src/lib/portfolioReader.ts:7-21 | the file's truthy `.data`, and null otherwise (not ok, failed read, or no envelope) |
| PortfolioReader.ProjectsToFilter | src/lib/portfolioReader.ts:27 | [] for null data or no projects, otherwise the project list |
| PortfolioReader.FeaturedProjects | src/lib/portfolioReader.ts:26-29 | the projects with featured === true, in order |
| PortfolioReader.OtherProjects | src/lib/portfolioReader.ts:34-37 | the projects with featured !== true, in order |
| PortfolioReader.FeaturedAndOtherPartition | src/lib/portfolioReader.ts:26-37 | the two lists are order-preserving subsequences that partition the projects |
| PortfolioReader.StrictFeaturedFlag | src/lib/portfolioReader.ts:28 | a flag of "true" or 1 does not count as featured |
| PortfolioReader.SectionOr | src/lib/portfolioReader.ts:42-61 | a section read with a fallback for falsy data or a falsy section |
| PortfolioReader.TechStackWithIcons | src/lib/portfolioReader.ts:42-45 | the tech stack, or [] |
| PortfolioReader.InsightsWithFallbacks | src/lib/portfolioReader.ts:50-53 | the insights, or null |
| PortfolioReader.Experience | src/lib/portfolioReader.ts:58-61 | the experience list, or [] |
| Education.ParseDates | src2/components/Education.tsx:82-96 | the empty string gives ("", "Present"); the end date is never empty (the same function as src/components/Education.tsx:44-58) |
| Education.SegmentDates | src/components/Education.tsx:48-57 | the range read from the split segments has a non-empty end |
| Education.DatesAreTrimmedSegments | src2/components/Education.tsx:86-93 | both dates are '-'-free and trimmed; the end is "Present" or a given segment |
| Education.EntryDates | src/components/Education.tsx:91 | a missing `dates` behaves like the empty text |
| Education.StartAndEnd | src2/components/Education.tsx:86-93 | "start - end" gives both halves trimmed when the end is not blank |
| Education.StartOnly | src2/components/Education.tsx:89-90 | a text without '-' is the start date, with an open end |
| Education.BlankEndIsPresent | src2/components/Education.tsx:92-93 | a blank end becomes "Present" |
| Education.LaterSegmentsDropped | src/components/Education.tsx:48-52 | text after a second '-' is ignored, so "2020-05 - 2022" gives ("2020", "05") |

## Left out

- Rendering: JSX, animations, CSS theming and the canvas background effects are not modelled, since they are view code. The same goes for the blink `setInterval` display loop (src3/components/Terminal.tsx:292-369); the model records only the blink state set by a typo.
- Timing: the `setTimeout` sequencing in handleEnterKey, the welcome typing animation and the delays in download, reload and exit are left out. The model applies each handler's updates at once.
- Network and storage I/O are left out; they cannot be expressed as functions of their inputs:
  - `fetchRepoData` and its cache, and `fetchGitHubContributions` with its proxy loop;
  - `TYPING_TEST.fetchQuotes`;
  - `fetchFromAPI`, `savePortfolio` and `saveToFile` with the file handle;
  - localStorage writes;
  - the downloads, `window.close` and fullscreen.

  Where a result of theirs feeds the core, it is a parameter: the fetched repository, the file-read outcome, the stored string and its parse, and the reload outcome.
- Environment-variable overrides of the default portfolio and of the resume path are not modelled. The values are the built-in fallbacks.
- Date formatting is a parameter (`formatSeconds`, `parseDate`, the welcome date text) or left out: `toLocaleDateString`, `toFixed(2)`, `formatTerminalDate`, `formatDate`.
- Projects.SortedProjectsMeaning: an unparsable `updated_at` is not modelled. Its `getTime()` is NaN, so the comparator answers NaN, which the sort reads as 0: that project compares equal to every other, and the resulting order is up to the engine. The model's `parseDate` yields an integer for every string, so the update-time order it promises holds only where every date parses.
- Terminal.Terminal.EndTypingTest: JavaScript's floating-point arithmetic is not modelled. Speed and accuracy are rounded on exact rationals, which can differ from the float product on an exact .5 case.
- Link parsing (`parseTextForLinks`) is not part of this model, because it is not defined in src3/utils/terminalUtils.ts.
- Terminal.Dispatch: the data-view commands (about, projects, skills, experience, education, contact, social, github) print a `viewText` parameter. The formatting of the portfolio into those texts is not modelled.
- Terminal.Terminal.ExecuteCommand: the typo verdict is the `IsTypo` specification of `hasTypo`. The method runs the `HasTypo` loop, and HasTypo is proved equal to it.
- Terminal.Terminal.constructor: the typing-test quotes are fixed to the source's list, as a field. The welcome lines take the user name and date text as parameters.
- Object key order: integer-like keys, which JavaScript enumerates first, are not reordered.
- `toLowerCase` is ASCII-only, and `trim` uses the JavaScript whitespace set without Unicode normalisation.
- String sort order: the sort compares characters by code unit. Characters outside the Basic Multilingual Plane (surrogate pairs) are not modelled.
- Random identifiers (`exp-…`, `project-…`) are parameters.
- EasterEggs.EggFor and EasterEggs.GenerateRandomResponse: the misspelling table is read on its own keys only. In the source `typos[command]` (src3/utils/easterEggs.ts:146) is also truthy for "constructor" and "__proto__", read through Object.prototype, and returns a function or an object. The model's replies are strings, so it gives these two commands no easter egg.
- Terminal.Dispatch: for the same reason "constructor" and "__proto__" are dispatched as unknown commands, where the source pushes the inherited value as a response line (src3/components/Terminal.tsx:604-610), which React cannot render as text.
- Json.Get: property reads see own properties only. Properties inherited from Object.prototype or the array and string prototypes are not modelled. Every key the model reads is a fixed own-property name, except the path given to getNestedValue.
- TerminalUtils.GetNestedValue: a path segment naming an inherited property, such as "a.constructor", returns a function in the source and the default value in the model.
- TechStack.SortedCategoriesMeaning: the sorted categories are modelled and proved. The grid iterates over the unsorted record (src2/components/TechStack.tsx:252), as written.
- The React context, the loading and error flags and the window-resize listener are modelled only as inputs (the window width in `Projects.DisplayCount`).

## Findings

| source | as written | input that shows it | evidently intended | confidence | as-written member | corrected member |
|---|---|---|---|---|---|---|
| src/components/Projects.tsx:334-335, 471-480 | the grid shows the first 4 filtered projects, but the "show more" button appears only above 6 projects and announces len - 6 | 5 or 6 filtered projects: the 5th and 6th are not shown while show-more is off, which is always when the whole list has at most six projects; 7 projects: the button says "Show 1 More" while 3 are hidden | the button appears above 4 projects and announces the number hidden | not executed | ProjectsGrid.MoreButtonAsWritten (with ProjectsGrid.FifthAndSixthUnreachable and ProjectsGrid.SevenProjectsMiscount) | ProjectsGrid.MoreButton (with ProjectsGrid.EveryProjectReachable) |
