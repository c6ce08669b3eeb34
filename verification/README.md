# Julian, Snake and the math quizzes — a Dafny model

This project models three small browser programs from one repository.

- **Julian** is a browser extension that sends page text to a language-model provider and shows the reply in a sidebar. The model covers:
  - `service.js`: choosing the current provider, templating headers and body, building the prompt from a recipe, stamping last use, and reading whole or streamed replies;
  - `defaults.js`: the bundled providers and recipe;
  - `options.js`: key store, masking, provider names, recipes and the current configuration;
  - `background.js`: the summarize pump, tab-id reply and copied-words notice;
  - `content.js` and `sidebar.js`: response titles, formatting, sidebar visibility and input submission.
- **Snake** is a canvas game. The model covers:
  - the snake body, food, game loop, bots, score storage, constants and the menu UI.
- **The math quizzes**:
  - `js/`: the original three-level quiz (problem generators, game flow, progress and achievements, rankings, UI, block and number-line visualisation);
  - `mg/js/`: its successor, with counting sequences, number bonds and a fill-in-the-blank problem display.

Each source component is one module: `JulianService`, `SnakeGame`, `QuizGame` and so on.

- Shared string handling sits in `Text`. It covers:
  - JavaScript's `trim`, `replace` with a string pattern (first match, `$` patterns expanded) and `parseInt`;
  - `toLocaleString` grouping in the en-US locale, and `padStart`.
- JSON values sit in `Json`.
- `Option`/`Result` sit in `Wrappers`.
- `Take` (`slice(0, n)`), used by both score lists, sits in `Seqs`.

State is immutable datatypes; each handler is a pure function from the old state to the new one. Randomness, clocks, `JSON.parse`/`JSON.stringify` and the HTTP server are parameters: the caller supplies the random draw (within the range `Math.floor(Math.random() * k)` yields), the time, or the function.

## Model

| member | source | states |
|---|---|---|
| Text.TrimStart | js/ui.js:302-304 | the result is a suffix of the input, the dropped prefix is all white space, and the result does not start with white space |
| Text.TrimEnd | js/ui.js:302-304 | the result is a prefix, the dropped suffix is white space, and the result does not end with white space |
| Text.TrimEmpty | julian/src/options.js:481-489 | trimming yields the empty string exactly when the input is all white space (the blank-field guard) |
| Text.TrimNoEdgeSpace | julian/src/options.js:481-483 | trimming leaves a string without edge white space unchanged |
| Text.IndexOf | mg/js/ui.js:358-361 | returns the first position where the pattern occurs, or none when it occurs nowhere |
| Text.ReplaceFirstLiteral | mg/js/ui.js:358-361 | replacing with a `$`-free string splices the replacement in place of the first occurrence |
| Text.ReplaceSpaceRunsNoSpace | julian/src/options.js:501 | replacing white-space runs by a separator without spaces leaves no white space |
| Text.ReplaceSpaceRunsIdentity | julian/src/options.js:501 | a name without white space is unchanged by the run replacement |
| Text.SplitCountsWords | julian/src/background.js:113-118 | the non-empty pieces of a white-space split are exactly the word runs |
| Text.TrimKeepsWords | julian/src/background.js:113-118 | trimming does not change the number of words |
| Text.Lower | julian/src/options.js:501 | each character is lower-cased in place and the length is kept |
| Text.Upper | julian/src/options.js:447 | each character is upper-cased in place and the length is kept |
| Text.NatToString | js/ui.js:296-300 | the decimal text is non-empty, all digits, has no leading zero, and reads back as the number |
| Text.UngroupDigits | julian/src/background.js:123 | removing the commas from a grouped digit string gives back the digits |
| Text.GroupedCommas | julian/src/background.js:123 | grouping a digit string puts a comma before every third digit from the right and nowhere else |
| Text.GroupedNumber | julian/src/background.js:123 | `toLocaleString` of a count in the en-US locale reads back as the count once the commas are removed, never starts with a comma, and groups by threes |
| Text.Pad2 | js/ui.js:296-300 | `padStart(2, '0')`: strings of length two or more are kept; shorter ones become two characters ending in the input |
| Text.LeadingDigits | js/game.js:78 | the longest digit prefix, which is where `parseInt` stops |
| Text.ParseDigits | js/game.js:93-94 | `parseInt` of a non-empty digit string is that string's value |
| Text.ParseNatToString | js/game.js:93-96 | `parseInt` reads back any number's decimal text |
| Json.Lookup | julian/src/service.js:27-31 | finds a key's value exactly when some member has that key |
| Json.LookupMember | julian/src/service.js:27-31 | with distinct keys, every member is found by its key |
| Json.FirstTruthy | julian/src/service.js:197-210 | the `a \|\| b \|\| c` chain: the first truthy candidate, else the fallback |
| JulianDefaults.DefaultProvidersSelectOllama | julian/src/defaults.js:37-57 | the bundled provider ids are distinct and the default id names the Ollama provider |
| JulianDefaults.DefaultRecipeIsSummarize | julian/src/defaults.js:58-80 | there is exactly one bundled recipe, "Summarize Page", with the default recipe id |
| JulianDefaults.SummarizeHeadClean | julian/src/defaults.js:60-75 | the recipe text before its slot contains no `{text}` and ends with a newline |
| JulianDefaults.SingleSlot | julian/src/defaults.js:76 | a clean head followed by `{text}` and a brace-free tail has its only `{text}` right after the head |
| JulianDefaults.SpliceAfterClean | julian/src/service.js:102-107 | filling such a template with `$`-free text gives head + text + tail |
| JulianDefaults.SummarizePromptHasOneTextSlot | julian/src/defaults.js:58-79 | the bundled recipe has exactly one `{text}` slot, after its 533-character head |
| JulianService.FindProvider | julian/src/service.js:14-15 | the index of the first provider with the id, or none when no provider has it |
| JulianService.CurrentProvider | julian/src/service.js:11-16 | a missing provider list or a falsy id falls back to the defaults; the stored id's provider is chosen if present, else the first; only an empty stored list gives none |
| JulianService.EmptyStoreSelectsOllama | julian/src/service.js:11-16 | an empty store selects the bundled Ollama provider |
| JulianService.EmptyStoredListHasNoProvider | julian/src/service.js:12-15 | a stored empty list is truthy, so it is kept and no provider is found |
| JulianService.HeaderValue | julian/src/service.js:28-35 | `{apiKey}` is filled only for a non-empty key; otherwise the value is kept |
| JulianService.HeaderMembers | julian/src/service.js:23-47 | never more headers than the schema has; every kept header is non-null and carries a schema key |
| JulianService.HeaderLookup | julian/src/service.js:23-47 | for every key, the prepared headers hold exactly the templated value of the schema's non-null header |
| JulianService.PrepareHeaders | julian/src/service.js:23-47 | no headers in the schema gives none; otherwise at most the schema's headers |
| JulianService.TemplateContainer | julian/src/service.js:63-90 | objects keep their keys in order, arrays keep their length, and other values are unchanged |
| JulianService.PrepareBody | julian/src/service.js:56-93 | a missing or falsy body gives `{}` |
| JulianService.ContainerUntemplated | julian/src/service.js:63-90 | at every depth, a body whose string leaves hold no placeholder is returned unchanged |
| JulianService.BodyWithoutPlaceholders | julian/src/service.js:56-93 | a truthy body without placeholders is sent as written |
| JulianService.LeafWithoutPlaceholders | julian/src/service.js:65-79 | a string leaf without placeholders stays that string |
| JulianService.LeafWithStream | julian/src/service.js:65-79 | a string leaf containing `{stream}` becomes the boolean stream flag, since filling `{prompt}` and `{model}` never removes that token |
| JulianService.LeafWithPrompt | julian/src/service.js:65-79 | a leaf with `{prompt}` gets the `$`-free prompt spliced at its first occurrence, and stays a string when nothing else is left to fill |
| JulianService.StreamMemberIsFlag | julian/src/service.js:80-82 | a non-string `stream` member is replaced by the stream flag |
| JulianService.HuggingFaceBody | julian/src/defaults.js:5-18 | the bundled Hugging Face schema yields `{inputs: prompt, stream}` |
| JulianService.OllamaBody | julian/src/defaults.js:19-32 | the bundled Ollama schema yields the model, one user message holding the prompt, and the stream flag |
| JulianService.FindRecipe | julian/src/service.js:104 | the first recipe with the name, or none |
| JulianService.PromptTemplate | julian/src/service.js:102-106 | without stored recipes, or without a recipe of that name, the default prompt; else that recipe's prompt |
| JulianService.GetPromptSplices | julian/src/service.js:102-107 | for `$`-free text, the prompt is the template with its first `{text}` replaced by the text, or the template itself when it has no `{text}` |
| JulianService.SummarizeWithBundledRecipe | julian/src/service.js:277-281 | summarizing with the bundled recipe sends its head, the text, and the closing marker |
| JulianService.PromptFallsBackToDefault | julian/src/service.js:102-107 | with no stored recipes the default prompt is filled |
| JulianService.StampLastUsed | julian/src/service.js:114-128 | every provider with the id gets `lastUsed := now`; all others and the order are unchanged |
| JulianService.StampEach | julian/src/service.js:119-124 | the per-element form of the same map |
| JulianService.WholeReply | julian/src/service.js:197-210 | a null body fails; otherwise the completed text comes from the provider's own field fallbacks |
| JulianService.ChunkText | julian/src/service.js:243-256 | a chunk that does not parse, or parses to null, is passed on raw; otherwise the provider's field is extracted |
| JulianService.Read | julian/src/service.js:233-259 | each read yields the next chunk's text, then one completed empty increment at the end, or the stream's error |
| JulianService.ReadToEnd | julian/src/service.js:233-259 | reading a clean stream to the end yields every chunk's text in order and then exactly one completed increment |
| JulianService.ReadToError | julian/src/service.js:233-259 | reading a failing stream yields every chunk's text in order and then the error |
| JulianService.MethodOrPost | julian/src/service.js:144 | the `\|\| "POST"` default: the method is never empty |
| JulianService.Respond | julian/src/service.js:185-261 | a non-ok response fails with `Error: API request failed: <status> <statusText> - <body>`; a streamed ok response gives a reader at the first chunk; a whole one succeeds exactly when its body parses to non-null, as a completed reply |
| JulianService.Send | julian/src/service.js:164-263 | no provider fails; otherwise the request carries the prompt spliced into the recipe and the provider's headers and body, and the response is read whole or streamed |
| JulianService.Ask | julian/src/service.js:164-263 | asking fails without a provider; a whole reply is completed and a streamed one starts at the first chunk |
| JulianService.Summarize | julian/src/service.js:271-371 | summarizing fails without a provider; a whole reply is completed and a streamed one starts at the first chunk |
| JulianService.Ping | julian/src/service.js:135-156 | no provider fails; otherwise the fixed test prompt is sent, and the call succeeds exactly when the response is ok and its body parses |
| JulianBackground.WordCount | julian/src/background.js:113-118 | no copied text counts zero; otherwise the number of white-space-separated words |
| JulianBackground.WordCountIgnoresSpace | julian/src/background.js:113-118 | white space alone counts zero, and trimming does not change the count |
| JulianBackground.CopiedNotice | julian/src/background.js:111-128 | an info response whose text is the word count grouped by threes with commas, as the en-US locale does, followed by " words copied to clipboard in reader mode format." |
| JulianBackground.CopiedNoticeCount | julian/src/background.js:123 | the notice's number reads back as the word count once its commas are removed |
| JulianBackground.Pump | julian/src/background.js:67-102 | a failure sends one error; a whole reply has no `read`, so one TypeError is sent; a stream forwards every remaining chunk in order as an uncompleted response, then the completed empty response or the stream's error |
| JulianBackground.UnflaggedSummaryIsWhole | julian/src/background.js:67-91 | a summary without the stream flag is read whole |
| JulianBackground.TabIdReply | julian/src/background.js:104-109 | the sender's tab id is answered exactly when there is one |
| JulianBackground.Handle | julian/src/background.js:65-128 | a summary without the stream flag ends in exactly one error; every summary message sends uncompleted responses before its last message; getCurrentTabId answers the sender's tab; textCopied sends the notice and answers success; other actions send nothing |
| JulianPanel.Title | julian/src/content.js:297-309 | each response kind maps to its own title, both ways |
| JulianPanel.BreakLines | julian/src/content.js:327-338 | the output has no newline, and text without a newline is unchanged |
| JulianPanel.BreakLinesRoundTrip | julian/src/content.js:327-338 | turning `<br>` back into newlines recovers any `<`-free text |
| JulianPanel.FormatResponse | julian/src/content.js:327-338 | numbers and booleans throw; strings and stringified objects come out without newlines |
| JulianPanel.ShowSidebar | julian/src/content.js:253-258 | the sidebar is created and visible |
| JulianPanel.HideSidebar | julian/src/content.js:260-266 | the sidebar is hidden and its creation is kept |
| JulianPanel.ToggleSidebar | julian/src/content.js:268-274 | visibility flips |
| JulianPanel.ToggleTwice | julian/src/content.js:268-274 | toggling twice restores the sidebar |
| JulianPanel.Submit | julian/src/content.js:146-160 | a request is sent exactly when the trimmed input is non-empty, and it carries the trimmed input |
| JulianPanel.BlankInputIsNotSent | julian/src/sidebar.js:49-59 | blank input sends nothing |
| JulianPanel.Receive | julian/src/content.js:16-39 | every message shows the sidebar; an error fills the panel with its text; a response fills it with its title and formatted text, or leaves the panel when formatting throws |
| JulianPanel.KeyDown | julian/src/sidebar.js:26-31 | Enter without Shift submits; every other key leaves the page alone |
| JulianOptions.LoadKeyStore | julian/src/options.js:87-107 | missing stored keys or usage fall back to the defaults |
| JulianOptions.MaskApiKey | julian/src/options.js:124-128 | an empty key shows "Not set", a short key shows bullets, a long key shows its first and last four characters around eight bullets |
| JulianOptions.MaskHidesMiddle | julian/src/options.js:124-128 | keys agreeing on their outer four characters (or both short) mask alike |
| JulianOptions.SplitName | julian/src/options.js:444-448 | the pieces between separators contain no separator |
| JulianOptions.SplitNameJoin | julian/src/options.js:444-448 | joining the pieces back gives the name |
| JulianOptions.Capitalize | julian/src/options.js:447 | the first character is upper-cased and the rest lower-cased |
| JulianOptions.FormatProviderName | julian/src/options.js:442-449 | "huggingface" and "custom" have fixed labels; other names are title-cased and separated by spaces |
| JulianOptions.FormatProviderChars | julian/src/options.js:442-449 | for other names, each character is upper-cased at a word start, lower-cased elsewhere, and separators become spaces |
| JulianOptions.TitleJoin | julian/src/options.js:444-448 | the title-casing equals capitalizing each separator-split word and joining with spaces |
| JulianOptions.FormatOneWord | julian/src/options.js:442-449 | a lower-case single word is capitalized |
| JulianOptions.NormalizeName | julian/src/options.js:501 | the normalized name has no white space |
| JulianOptions.NormalizeIdempotent | julian/src/options.js:501 | normalizing twice is normalizing once |
| JulianOptions.LowerAfterNormalize | julian/src/options.js:501 | a normalized name has no upper-case letter |
| JulianOptions.StoreKey | julian/src/options.js:504-520 | the key record is stored under the name, its usage stamped, and every other provider's record kept |
| JulianOptions.AddNewApiKey | julian/src/options.js:480-538 | fails exactly when the trimmed name or key is empty; otherwise stores the normalized name |
| JulianOptions.DeleteApiKey | julian/src/options.js:541-586 | fails exactly for a built-in provider without a stored key; otherwise removes the key and its usage |
| JulianOptions.DeleteUndoesAdd | julian/src/options.js:480-586 | deleting a freshly added provider restores the key store |
| JulianOptions.BuiltInsSurviveDelete | julian/src/options.js:552-558 | deleting never removes another built-in provider's key |
| JulianOptions.SetCurrentProvider | julian/src/options.js:412-440 | the configuration takes the provider, key and url and keeps the model |
| JulianOptions.AddRecipe | julian/src/options.js:460-466 | one default recipe is appended and the rest kept |
| JulianOptions.DeleteRecipe | julian/src/options.js:469-477 | succeeds exactly for an index in range and removes that one recipe |
| JulianOptions.DeleteRecipeInverse | julian/src/options.js:469-477 | putting the deleted recipe back at its index restores the list |
| SnakeConstants.Add | snake/src/js/game/Snake.js:127-140 | vector addition of grid points |
| SnakeConstants.Reverse | snake/src/js/utils/Constants.js:23-28 | the opposite direction is a different direction |
| SnakeConstants.StepsDistinct | snake/src/js/utils/Constants.js:23-28 | each direction moves one cell, distinct directions move differently, and a direction and its reverse cancel |
| SnakeConstants.DirectionsComplete | snake/src/js/utils/Constants.js:23-28 | the four directions are listed once each |
| SnakeConstants.SpeedLevelsDecrease | snake/src/js/utils/Constants.js:31-41 | nine speed levels, strictly fewer frames per move at each higher level |
| SnakeConstants.GridAgreement | snake/src/js/utils/Constants.js:3-11 | the boundary is the grid size times the cell size, and the move interval matches the initial speed |
| SnakeBody.NewSnake | snake/src/js/game/Snake.js:5-42 | a new snake is one live segment at the origin heading right |
| SnakeBody.Reset | snake/src/js/game/Snake.js:63-80 | resetting gives a fresh snake of the same kind |
| SnakeBody.Head | snake/src/js/game/Snake.js:312-317 | the first segment, or the origin for an empty body |
| SnakeBody.BoundaryCollision | snake/src/js/game/Snake.js:186-193 | a hit exactly when the head leaves the 40-by-30 field |
| SnakeBody.SetDirection | snake/src/js/game/Snake.js:217-228 | the current direction and its reverse are ignored; any other becomes the next direction |
| SnakeBody.ChangeRandomDirection | snake/src/js/game/Snake.js:230-243 | a bot turns to the drawn non-reverse direction, keeping the body valid |
| SnakeBody.Die | snake/src/js/game/Snake.js:338-341 | the snake is dead with its body kept |
| SnakeBody.DieIdempotent | snake/src/js/game/Snake.js:338-341 | dying twice is dying once |
| SnakeBody.SelfCollision | snake/src/js/game/Snake.js:291-310 | a hit exactly when a live snake longer than two has its head on a segment from the third on, and the snake then dies |
| SnakeBody.Shift | snake/src/js/game/Snake.js:145-160 | the new head is in front and every other segment moves up one place |
| SnakeBody.Move | snake/src/js/game/Snake.js:127-167 | the queued direction becomes current and the body shifts one cell that way; a bot facing the boundary stays put and turns instead; a player crossing it dies; the length is kept |
| SnakeBody.Update | snake/src/js/game/Snake.js:110-125 | nothing happens between moves; on a due frame the snake moves |
| SnakeBody.Grow | snake/src/js/game/Snake.js:245-266 | growing by a non-negative amount adds exactly that many segments |
| SnakeBody.Boost | snake/src/js/game/Snake.js:268-274 | boosting starts only when idle and cooled down |
| SnakeBody.SetSpeedLevel | snake/src/js/game/Snake.js:332-336 | only the speed level changes |
| SnakeFood.SpawnCell | snake/src/js/game/Food.js:48-60 | the drawn cell is shifted to centre the field |
| SnakeFood.SpawnOrb | snake/src/js/game/Food.js:48-78 | an existing orb is kept; otherwise one orb of the food value appears at the drawn cell |
| SnakeFood.SpawnRangeIsLegalRegion | snake/src/js/game/Food.js:48-60 | the spawn draws cover exactly the in-bounds cells, one draw per cell |
| SnakeFood.ClearOrb | snake/src/js/game/Food.js:35-46 | no orb is left |
| SnakeFood.ResetFood | snake/src/js/game/Food.js:27-33 | the old orb goes and a fresh one spawns |
| SnakeFood.UpdateFood | snake/src/js/game/Food.js:93-100 | there is always an orb afterwards, and an existing one is kept |
| SnakeFood.IsPositionOccupied | snake/src/js/game/Food.js:141-143 | occupied exactly when the orb sits on that cell |
| SnakeFood.CheckCollision | snake/src/js/game/Food.js:102-130 | eating happens exactly when the head is on the orb; the snake grows, the score rises by the orb's value and a new orb spawns |
| SnakeFood.EatingGrowsByOne | snake/src/js/game/Food.js:102-130 | each meal adds one segment and the food value to the score |
| SnakeStorage.KeysFor | snake/src/js/utils/Storage.js:2-7 | the three storage keys are the prefix with their suffixes |
| SnakeStorage.KeysDistinct | snake/src/js/utils/Storage.js:2-7 | the three keys differ |
| SnakeStorage.GetItem | snake/src/js/utils/Storage.js:34-40 | a key is read exactly when it is stored |
| SnakeStorage.GetHighScore | snake/src/js/utils/Storage.js:33-37 | a missing high score reads as 0; otherwise it is `parseInt` of the stored text |
| SnakeStorage.HighScoreRoundTrip | snake/src/js/utils/Storage.js:14-35 | a stored score reads back as itself |
| SnakeStorage.SortDesc | snake/src/js/utils/Storage.js:25 | the scores are sorted by descending score and keep the same multiset |
| SnakeStorage.NewEntryPosition | snake/src/js/utils/Storage.js:19-25 | the sort is stable: the new entry lands after every entry at least as high |
| Seqs.Take | snake/src/js/utils/Storage.js:26 | `slice(0, n)` keeps the first n entries, or all when there are fewer (also the rankings cut at js/game.js:227) |
| SnakeStorage.GetScores | snake/src/js/utils/Storage.js:39-43 | a missing scores entry reads as no scores; otherwise the parsed list |
| SnakeStorage.TopScores | snake/src/js/utils/Storage.js:18-26 | the kept list is sorted, at most ten long, drawn from the prior scores and the new one |
| SnakeStorage.TopKeepsNewEntry | snake/src/js/utils/Storage.js:18-26 | a new score is kept whenever fewer than ten scores are at least as high |
| SnakeStorage.RaiseHighScore | snake/src/js/utils/Storage.js:12-15 | the high score is rewritten exactly when the new score beats it |
| SnakeStorage.WriteTopScores | snake/src/js/utils/Storage.js:17-29 | the top scores are written when the stored list parses |
| SnakeStorage.SaveScore | snake/src/js/utils/Storage.js:10-30 | writes the top scores and raises the high score |
| SnakeStorage.Put | snake/src/js/utils/Storage.js:59 | a set key reads back as its value and no other key changes |
| SnakeStorage.SpreadOverrides | snake/src/js/utils/Storage.js:59 | in `{...defaults, ...stored}` a stored key wins and others keep the default |
| SnakeStorage.GetSettings | snake/src/js/utils/Storage.js:50-63 | missing or empty settings read as the defaults |
| SnakeStorage.SettingsMerge | snake/src/js/utils/Storage.js:50-63 | each setting is the stored value when present, else the default |
| SnakeStorage.SaveSettings | snake/src/js/utils/Storage.js:45-48 | the settings key holds the stringified settings and no other key changes |
| SnakeStorage.ClearData | snake/src/js/utils/Storage.js:66-70 | the three keys are removed and every other key kept |
| SnakeStorage.ClearedReadsDefaults | snake/src/js/utils/Storage.js:33-70 | after clearing, the high score is 0, there are no scores and the settings are the defaults |
| SnakeGame.NewGame | snake/src/js/game/Game.js:8-33 | a stopped game with score 0 and no player yet |
| SnakeGame.Start | snake/src/js/game/Game.js:120-162 | a running game with score 0, a fresh player and food, and the level kept |
| SnakeGame.ResetGame | snake/src/js/game/Game.js:377-401 | a stopped game with score 0 and the level kept |
| SnakeGame.Pause | snake/src/js/game/Game.js:363-368 | pauses only a running game |
| SnakeGame.Resume | snake/src/js/game/Game.js:370-375 | resumes only a paused game |
| SnakeGame.PauseResume | snake/src/js/game/Game.js:363-375 | resuming after a pause restores the game |
| SnakeGame.ClampLevel | snake/src/js/game/Game.js:280-289 | levels are clamped into 0..8 |
| SnakeGame.SetGameSpeed | snake/src/js/game/Game.js:280-289 | the game and player take the clamped level |
| SnakeGame.LevelKey | snake/src/js/game/Game.js:261-277 | a key that `parseInt` reads as n from 1 to 9 selects speed level n-1 and announces level n with its name; any other key does nothing |
| SnakeGame.KeyDown | snake/src/js/game/Game.js:164-278 | while stopped only level keys act; while running arrows steer, space boosts, `p` pauses, `r` resumes and other keys do nothing |
| SnakeGame.SwipeDirection | snake/src/js/game/Game.js:215-235 | no turn for moves of 20 pixels or less; otherwise the dominant axis decides |
| SnakeGame.Swipe | snake/src/js/game/Game.js:205-241 | a swipe steers the player only in a running game |
| SnakeGame.DoubleTap | snake/src/js/game/Game.js:243-258 | a second tap within 300 ms boosts a running player |
| SnakeGame.GameOverAsWritten | snake/src/js/game/Game.js:339-361 | the game stops; when the score beats the record the call to the missing `setHighScore` throws and no game-over event is sent |
| SnakeGame.FirstRecordIsLost | snake/src/js/game/Game.js:349 | a first game scoring 1 on an empty store throws and sends no event |
| SnakeGame.GameOver | snake/src/js/game/Game.js:339-361 | the game stops, the stored high score is raised to the score, nothing is thrown, and one game-over event is sent |
| SnakeGame.GameOverKeepsBest | snake/src/js/game/Game.js:339-361 | after game over the high score is the better of the old record and the score |
| SnakeGame.Collide | snake/src/js/game/Game.js:313-331 | the food, self and boundary checks: the player stays valid, the score rises by at most one, a dead player stays dead, only score updates are sent, and nothing else in the game changes |
| SnakeGame.CheckCollisions | snake/src/js/game/Game.js:312-337 | as written: the game runs exactly while the player lives; a finished game whose score does not beat the record ends with the game-over event; one that beats it throws, sends no game-over event and leaves storage as it was |
| SnakeGame.CheckCollisionsIntended | snake/src/js/game/Game.js:312-337 | with the corrected game over: a finished game always ends with the game-over event, never throws, and raises the stored record to its score; a running one leaves storage alone |
| SnakeGame.Advance | snake/src/js/game/Game.js:299-303 | the player's move and the food update keep the game playable, running and with its score and level |
| SnakeGame.Update | snake/src/js/game/Game.js:291-310 | as written: a stopped or paused game is untouched; otherwise the score rises by at most one, storage is never written, and a frame that ends the game with a new record throws before the game-over event |
| SnakeGame.UpdateIntended | snake/src/js/game/Game.js:291-310 | the same frame with the corrected game over: it never throws, and a frame that ends the game raises the record and ends with the game-over event |
| SnakeGame.RecordCrashLosesGameOver | snake/src/js/game/Game.js:339-361 | a wall crash with a record score: as written the frame throws, stores nothing and sends no game-over event; with the correction it stores the record and ends with the event |
| SnakeGame.WallEndsGame | snake/src/js/game/Game.js:312-337 | a move across the boundary ends the game, as written and as intended |
| SnakeBots.DirectionToTarget | snake/src/js/game/BotAI.js:264-279 | heads along the axis with the larger gap, toward the target |
| SnakeBots.StepCloser | snake/src/js/game/BotAI.js:264-279 | one step toward a distinct target shortens the Manhattan distance by one |
| SnakeBots.AvoidanceDirection | snake/src/js/game/BotAI.js:192-207 | heads along the axis with the larger gap, away from the obstacle |
| SnakeBots.AvoidanceIsTargetReversed | snake/src/js/game/BotAI.js:192-279 | avoiding b from a is heading from b toward a |
| SnakeBots.StepAway | snake/src/js/game/BotAI.js:192-207 | one avoiding step lengthens the distance by one |
| SnakeBots.Others | snake/src/js/game/BotAI.js:172-175 | drawn from the bots' heads, skipping the bot's own index |
| SnakeBots.Nearest | snake/src/js/game/BotAI.js:151-190 | the first closest candidate within the threshold, or none |
| SnakeBots.AvoidChosen | snake/src/js/game/BotAI.js:151-190 | avoids the nearest candidate exactly when there is one |
| SnakeBots.ObstacleAvoidance | snake/src/js/game/BotAI.js:151-190 | the loop over the player and other bots returns the reference avoidance direction |
| SnakeBots.UndefinedThresholdNeverAvoids | snake/src/js/game/BotAI.js:151-190 | with the undefined threshold constant no obstacle is ever avoided |
| SnakeBots.BotCollision | snake/src/js/game/BotAI.js:281-300 | a hit exactly when the head is on some bot segment |
| SnakeBots.RemoveBot | snake/src/js/game/BotAI.js:302-311 | an in-range index removes that one bot and keeps the others in order |
| SnakeBots.RemoveBotMultiset | snake/src/js/game/BotAI.js:302-311 | the removed bot and the rest make up the original bots |
| SnakeBots.BotCell | snake/src/js/game/BotAI.js:57-83 | drawn spawn cells are in bounds |
| SnakeBots.SpawnPosition | snake/src/js/game/BotAI.js:57-83 | the first draw far enough from the player, or none |
| SnakeUi.NewUi | snake/src/js/ui/UI.js:5-20 | the menu is shown with level 4 selected and the given high score |
| SnakeUi.On | snake/src/js/ui/UI.js:391-396 | the callback is appended to that event's list only |
| SnakeUi.Emit | snake/src/js/ui/UI.js:398-402 | the event's callbacks run in registration order |
| SnakeUi.EmitRunsRegistered | snake/src/js/ui/UI.js:391-402 | emitting runs exactly the callbacks registered for the event, in order |
| SnakeUi.LevelAt | snake/src/js/ui/UI.js:85-90 | grid cells hold levels 1 to 9 |
| SnakeUi.LevelGridIsBijection | snake/src/js/ui/UI.js:85-90 | every level sits at exactly one grid cell |
| SnakeUi.OnLevelChange | snake/src/js/ui/UI.js:317-325 | the level is selected and named by the given or default name |
| SnakeUi.ClickLevel | snake/src/js/ui/UI.js:69-130 | clicking a cell selects its level |
| SnakeUi.UpdateScore | snake/src/js/ui/UI.js:327-329 | the score display reads "Score: n" |
| SnakeUi.PauseGame | snake/src/js/ui/UI.js:331-342 | the pause overlay shows the score and level, and the pause listeners run |
| SnakeUi.ResumeGame | snake/src/js/ui/UI.js:344-350 | the overlay hides and the resume listeners run |
| SnakeUi.ShowGameUi | snake/src/js/ui/UI.js:352-357 | only the game screen is shown |
| SnakeUi.ShowGameOver | snake/src/js/ui/UI.js:359-367 | the game-over screen shows the final score and level |
| SnakeUi.ShowMenu | snake/src/js/ui/UI.js:369-377 | only the menu is shown |
| SnakeUi.HideMenu | snake/src/js/ui/UI.js:379-381 | the menu hides |
| SnakeUi.HideGameOver | snake/src/js/ui/UI.js:383-385 | the game-over screen hides |
| SnakeUi.KeyDown | snake/src/js/ui/UI.js:289-305 | in the menu, a key that `parseInt` reads as 1 to 9 picks that level and other keys do nothing; in play Escape pauses, or resumes when paused |
| SnakeUi.EscapeTwiceResumes | snake/src/js/ui/UI.js:289-305 | Escape pauses and a second Escape resumes |
| QuizLevels.JoinNumbers | js/levels.js:32-34 | joins the terms with ", ", empty exactly for no terms |
| QuizLevels.Addition | js/levels.js:6-12 | sums within 0..19, with the question text |
| QuizLevels.Subtraction | js/levels.js:18-24 | differences within 1..20, with the question text |
| QuizLevels.Progression | js/levels.js:32 | term i is start + step·i |
| QuizLevels.Sequence | js/levels.js:29-36 | the answer is the fifth term of the shown progression |
| QuizLevels.SequenceAnswerIsNextTerm | js/levels.js:29-36 | the answer continues the progression by one more step |
| QuizLevels.Multiplication | js/levels.js:42-48 | products within 0..100; the question is the two factors around the file's literal sign characters |
| QuizLevels.Division | js/levels.js:53-60 | the question shows the product of divisor and quotient, then the file's literal sign characters and the divisor; the answer is the quotient |
| QuizLevels.DivisionIsExact | js/levels.js:53-60 | the shown division is exact and yields the answer |
| QuizLevels.Money | js/levels.js:65-71 | the answer's dollars and cents are the shown ones |
| QuizLevels.RoundTenths | js/levels.js:82 | `toFixed(1)` rounding: the nearest tenth, halves up |
| QuizLevels.TenthsText | js/levels.js:82 | one-decimal text |
| QuizLevels.Fractions | js/levels.js:74-85 | the question shows the mixed number and asks for one decimal place; the answer is the text of the mixed number rounded to tenths |
| QuizLevels.MixedTenths | js/levels.js:80-82 | the tenths of a mixed number rounded half up: within half a tenth of its exact value |
| QuizLevels.Time | js/levels.js:88-95 | the question shows the time with two-digit minutes; the answer is the minutes |
| QuizLevels.TimeQuestionShowsMinutes | js/levels.js:88-95 | the two digits after the hour in the time question read back as the answer |
| QuizLevels.WordProblem | js/levels.js:97-107 | the question names the item, its price and the quantity; the answer is price times quantity |
| QuizLevels.LevelOf | js/levels.js:113-138 | exactly the three difficulties exist, three concepts each |
| QuizLevels.LevelsPartitionConcepts | js/levels.js:113-138 | every concept belongs to exactly one difficulty |
| QuizRankings.Sort | js/game.js:221-224 | sorted by correct answers descending then time ascending, same multiset |
| QuizRankings.NewEntryPosition | js/game.js:214-224 | the sort is stable: the new entry lands after every entry not worse |
| QuizRankings.GetRankings | js/game.js:231-233 | a missing difficulty reads as no rankings |
| QuizRankings.UpdateRankings | js/game.js:209-229 | the difficulty's list is ranked, at most 20 long, from the prior list and the new entry; other difficulties kept |
| QuizRankings.NewResultKept | js/game.js:209-229 | the new result sits right after the entries not worse than it, when within the top 20 |
| QuizProgress.InitialProgress | js/progress.js:14-23 | zero counts, no history or achievements, stamped now |
| QuizProgress.LoadProgress | js/progress.js:12-24 | saved progress is used when present, else the initial progress |
| QuizProgress.Award | js/progress.js:97-106 | an achievement is appended once |
| QuizProgress.AwardKeepsSet | js/progress.js:93-106 | awarding keeps the list duplicate-free and adds exactly that achievement |
| QuizProgress.AwardIfEarned | js/progress.js:72-90 | awards exactly when earned |
| QuizProgress.CheckAchievements | js/progress.js:69-91 | never removes an achievement |
| QuizProgress.CheckAchievementsExact | js/progress.js:69-91 | afterwards exactly the held and the earned achievements are held, without duplicates |
| QuizProgress.Last | js/progress.js:59-61 | `slice(-n)` keeps the last n entries |
| QuizProgress.BestTimes | js/progress.js:43-45 | only the difficulty's time may change |
| QuizProgress.BestTimeIsMinimum | js/progress.js:43-45 | a missing or zero best time is replaced; otherwise the smaller time is kept |
| QuizProgress.PushHistory | js/progress.js:49-61 | the history ends with the new game, keeps at most 50 entries and loses only its oldest when full |
| QuizProgress.UpdateStats | js/progress.js:30-91 | counts add the game's, practice adds problems, challenges add one and may set a best time; the game is pushed onto the history; valid progress stays valid, and achievements become exactly the held and the earned ones |
| QuizProgress.PersistentAfterGame | js/progress.js:88-90 | 'persistent' is held after a game exactly when held before or the game was an unskipped challenge |
| QuizProgress.SolvePractice | js/progress.js:37-38 | one solved practice problem adds one to the count and awards 'practice_master' at 100 |
| QuizProgress.Repeatedly | js/progress.js:37-38 | k practice solves add k and never remove an achievement |
| QuizProgress.HundredPracticeSolves | js/progress.js:83-85 | reaching 100 practice problems awards 'practice_master' |
| QuizProgress.KeepsMaster | js/progress.js:83-85 | 'practice_master' is never lost |
| QuizProgress.Accuracy | js/progress.js:130-131 | the rounded percentage of correct answers, 0 with nothing solved |
| QuizProgress.AccuracyIsPercentage | js/progress.js:130-131 | accuracy lies in 0..100 |
| QuizProgress.RecentHistory | js/progress.js:133 | the last ten history entries |
| QuizUi.JsRem | js/ui.js:298 | JavaScript's `%`: the sign follows the dividend |
| QuizUi.FormatTime | js/ui.js:296-300 | two-digit-padded minutes and seconds |
| QuizUi.Pad2Value | js/ui.js:296-300 | a padded number reads back as the number |
| QuizUi.FormatTimeReadsBack | js/ui.js:296-300 | the clock text reads back as the seconds, and is five characters below 100 minutes |
| QuizUi.GetAnswer | js/ui.js:302-304 | the trimmed answer; digit answers are unchanged |
| QuizUi.Erase | js/ui.js:53-54 | `slice(0, -1)` drops the last character |
| QuizUi.EraseKeepsDigits | js/ui.js:53-54 | erasing keeps a digit answer all digits |
| QuizUi.TypeDigit | js/ui.js:55-57 | below ten characters the digit is appended and an answer check fires |
| QuizUi.PadClick | js/ui.js:43-60 | Enter submits, erase erases, digits type |
| QuizUi.KeyDown | js/ui.js:62-100 | ignored unless the game shows; digits type, Enter submits, Backspace erases |
| QuizUi.AnswerStaysShort | js/ui.js:43-100 | the answer never exceeds ten characters |
| QuizUi.EraseUndoesDigit | js/ui.js:53-57 | erasing right after typing restores the answer |
| QuizUi.DigitKeysKeepDigits | js/ui.js:62-100 | the answer stays all digits |
| QuizUi.ShowGameScreen | js/ui.js:217-226 | only the game screen shows, skip and explanation hidden, answer cleared |
| QuizUi.ShowDifficultySelect | js/ui.js:228-233 | only the difficulty screen shows |
| QuizUi.ShowProgress | js/ui.js:267-272 | only the progress screen shows |
| QuizUi.RankingRowOf | js/ui.js:238-257 | position "#i+1", score "c/20", time "m:ss" |
| QuizUi.RankingRows | js/ui.js:235-259 | one row per ranking in order |
| QuizUi.ShowRankings | js/ui.js:235-265 | only the rankings screen shows, with one row per entry |
| QuizUi.RankingTimeReadsBack | js/ui.js:250-253 | a ranking's time text reads back as its seconds |
| QuizUi.DisplayProblem | js/ui.js:274-278 | the problem is shown, the answer cleared, the explanation hidden |
| QuizUi.ClearAnswer | js/ui.js:306-308 | only the answer is cleared |
| QuizUi.SwitchesLeaveOneScreen | js/ui.js:217-272 | after any sequence of screen switches exactly one screen shows: the last one chosen |
| QuizGame.NewGame | js/game.js:2-30 | challenge mode, no difficulty, problem or timer, zero counts |
| QuizGame.SelectMode | js/game.js:32-37 | only the mode changes and the difficulty buttons show |
| QuizGame.GenerateProblem | js/game.js:57-75 | the next problem is displayed, the explanation shows only in practice |
| QuizGame.ScoreText | js/game.js:108-109 | "n/20" in a challenge, "n/∞" in practice |
| QuizGame.UpdateTimer | js/game.js:162-170 | no start time leaves the timer; otherwise it shows the elapsed whole seconds |
| QuizGame.TimerShowsElapsedSeconds | js/game.js:162-170 | the timer text reads back as the elapsed seconds |
| QuizGame.StartGame | js/game.js:39-55 | the difficulty is set, counts reset, the timer starts now and the first problem shows |
| QuizGame.ElapsedSeconds | js/game.js:174 | whole seconds since the start |
| QuizGame.RecordedAsWritten | js/game.js:177-184 | the game data records `skipped` as wrong attempts above zero |
| QuizGame.Recorded | js/game.js:177-184 | the corrected data records whether any problem was skipped |
| QuizGame.Finish | js/game.js:172-197 | the timer stops and progress records the data; a challenge enters the rankings and shows that difficulty's rows, practice shows the progress screen |
| QuizGame.EndGameAsWritten | js/game.js:172-197 | progress records the as-written data, so `skipped` means wrong attempts on the last problem |
| QuizGame.EndGame | js/game.js:172-197 | progress records a skip exactly when one happened |
| QuizGame.Scored | js/game.js:104-109 | one more correct answer, no wrong attempts and the score line for the mode; nothing else changes |
| QuizGame.Counted | js/game.js:104-115 | one more correct answer, no wrong attempts, updated score |
| QuizGame.ProcessCorrect | js/game.js:103-123 | counts the answer and ends the twentieth challenge answer with the as-written end; in practice with no problem showing (a callback after a quit) it throws after the score line, leaving the problem missing and the screen as it was; otherwise it shows the next problem |
| QuizGame.ProcessCorrectIntended | js/game.js:103-123 | the same flow with the corrected end, and a practice solve counted |
| QuizGame.ProcessIncorrect | js/game.js:125-141 | one more wrong attempt; the skip button shows from the third in a challenge |
| QuizGame.CheckAnswer | js/game.js:92-101 | unparsable input is ignored; a match is correct, anything else incorrect |
| QuizGame.AutoCheckAnswer | js/game.js:77-90 | the check made for a typed answer: only a matching answer is processed, as a correct one |
| QuizGame.AutoCheckAsWritten | js/game.js:77-90 | a matching answer schedules exactly one more callback and changes nothing yet; any other answer schedules none |
| QuizGame.FireAsWritten | js/game.js:81-88 | a firing callback counts one more correct answer for whatever game is showing, without checking the answer again |
| QuizGame.FireIntended | js/game.js:80-88 | the corrected callback counts an answer only if the answer shown still matches, and otherwise changes nothing |
| QuizGame.SubmitBeforeCallbackCountsTwice | js/game.js:77-101 | as written, Enter pressed before the callback fires counts one answer twice and replaces the next problem unseen |
| QuizGame.SubmitBeforeCallbackCountsOnce | js/game.js:77-101 | with the corrected callback the same answer counts once and the next problem stays to be answered |
| QuizGame.QuitThenFireCounts | js/game.js:103-115 | as written, a callback firing after practice is quit counts the answer on the difficulty screen, writes the practice score line over the reset one, and leaves no problem |
| QuizGame.QuitThenFireIntendedKeepsQuit | js/game.js:80-88 | with the corrected callback, the quit game stays exactly as `quitGame` left it |
| QuizGame.SkipProblem | js/game.js:143-147 | a challenge skips to the next problem; practice ignores it |
| QuizGame.QuitGame | js/game.js:149-160 | the timer and problem clear and the difficulty screen shows |
| QuizGame.ViewProgress | js/game.js:199-202 | only the progress screen shows |
| QuizGame.FractionsNeverAccepted | js/game.js:96 | a fraction problem's text answer never equals a parsed number, so it is never accepted |
| QuizGame.PracticeNeverEnds | js/game.js:117-122 | practice never ends a game, so progress and rankings are untouched, and the next problem shows whenever one was showing |
| QuizGame.PracticeCountNeverGrows | js/game.js:117-122 | as written, correct practice answers never add to the practice count |
| QuizGame.SkipReturnsAfterOneMiss | js/game.js:132-146 | after a skip, one more miss shows the skip button again |
| QuizGame.SkippedNeverRecorded | js/game.js:103-119 | as written, the finishing answer resets wrong attempts, so a skipped challenge still earns 'persistent' |
| QuizGame.SkipIsRecorded | js/game.js:183 | with the corrected end, a challenge with a skip records the skip |
| QuizGame.PracticeSolvesCount | js/game.js:112-115 | with the corrected flow, each correct practice answer adds one practice problem |
| QuizGame.CheckAnswerIntended | js/game.js:92-101 | the corrected check accepts a fraction answer typed as its text |
| QuizGame.FractionAcceptedAsText | js/game.js:96 | the corrected check counts a correctly typed fraction answer |
| QuizVisual.CreateBlocks | js/visualization.js:118-166 | 0 is one empty line; otherwise one ten-block per full ten and one line of ones |
| QuizVisual.TenBlocksCells | js/visualization.js:134-150 | k ten-blocks hold 10·k cells of the colour |
| QuizVisual.BlocksShowNumber | js/visualization.js:118-166 | the blocks of n hold exactly n cells of the number's colour |
| QuizVisual.FillCells | js/visualization.js:195-202 | the cells are first-number colour while the first number lasts, then second |
| QuizVisual.TenLines | js/visualization.js:187-208 | each ten-line has ten segments, and the first number's remaining count drops by the cells it used |
| QuizVisual.PositiveTotalBlocks | js/visualization.js:183-224 | a positive total gives full tens and a ones line |
| QuizVisual.CreateTotalBlocks | js/visualization.js:169-225 | the total's blocks hold the first number's cells, then the second's |
| QuizVisual.Interval | js/visualization.js:68 | marker spacing is 5 for steps of 5 or more, else 1 |
| QuizVisual.Markers | js/visualization.js:71-91 | markers run from the start by the interval up to the end |
| QuizVisual.SeqMin | js/visualization.js:60 | the least term |
| QuizVisual.SeqMax | js/visualization.js:61 | the greatest term |
| QuizVisual.LineMarkers | js/visualization.js:71 | markers start at the start rounded down to the interval |
| QuizVisual.Arrows | js/visualization.js:94-106 | one arrow between each pair of consecutive terms |
| QuizVisual.Spread | js/visualization.js:62 | the range of the terms |
| QuizVisual.Padding | js/visualization.js:63 | `Math.ceil(range * 0.2)`: the least p with 5·p ≥ range |
| QuizVisual.RenderNumberLine | js/visualization.js:54-109 | the line runs from min − padding (at least 0) to max + padding, with aligned markers and one arrow per step |
| QuizVisual.MarkersAligned | js/visualization.js:71 | every marker is a multiple of the interval |
| QuizVisual.MultipleIsMarker | js/visualization.js:71-91 | every multiple of the interval on the line is a marker |
| QuizVisual.TermsOnMarkers | js/visualization.js:54-91 | terms that are multiples of the interval all fall on markers |
| QuizVisual.CountingTermsOnMarkers | mg/js/levels.js:35-63 | every counting-sequence term is drawn on a marker |
| QuizVisual.Update | js/visualization.js:35-52 | everything hides first; a number line or blocks are drawn by type |
| QuizVisual.NumberBondTotal | mg/js/levels.js:246-270 | a number bond's total blocks show the two parts |
| MgLevels.Shown | mg/js/levels.js:3-18 | the generator's question and answer with its visualisation attached |
| MgLevels.Addition | mg/js/levels.js:3-18 | the quiz's addition with blocks for both numbers |
| MgLevels.Subtraction | mg/js/levels.js:19-34 | the quiz's subtraction with blocks for both numbers |
| MgLevels.Multiplication | mg/js/levels.js:151-165 | the question is "a × b = ?" with the real multiplication sign, the answer the product, with an arrays visualisation that is not drawn |
| MgLevels.OperandsOfQuestion | mg/js/levels.js:158 | in "a sign b = ?" with a sign that is not a digit, the digits before the sign read back as a and those after it as b |
| MgLevels.MultiplicationAnswersQuestion | mg/js/levels.js:155-159 | the two factors read back from the question, on either side of " × ", multiply to the answer |
| MgLevels.Division | mg/js/levels.js:167-182 | the question is "dividend ÷ divisor = ?" with the real division sign, the answer the quotient, with a groups visualisation that is not drawn |
| MgLevels.DivisionAnswersQuestion | mg/js/levels.js:170-175 | the dividend read back from the question is the divisor read after " ÷ " times the answer, so the division is exact |
| MgLevels.Money | mg/js/levels.js:183-197 | the question "How many cents in $d.cc?" with the cents padded to two digits; the answer is the amount in cents, whose hundreds are the dollars and remainder the cents; a money visualisation of dollars and cents that is not drawn |
| MgLevels.Fractions | mg/js/levels.js:198-213 | the mixed-number question; the answer is its text to one decimal place; a fractions visualisation of numerator, denominator and whole part that is not drawn |
| MgLevels.Time | mg/js/levels.js:214-228 | the time question; the answer is the minutes; a clock visualisation of hours and minutes that is not drawn |
| MgLevels.WordProblem | mg/js/levels.js:229-245 | the item, price and quantity question; the answer is price times quantity; a groups visualisation of price and quantity that is not drawn |
| MgLevels.SequenceStart | mg/js/levels.js:43-45 | the start is a multiple of the step and leaves room for four more terms |
| MgLevels.CountingSequence | mg/js/levels.js:35-63 | four terms by the step, ascending or descending, on a number line |
| MgLevels.CountingSequenceSteps | mg/js/levels.js:46-51 | consecutive terms differ by the step, and the answer is the next term |
| MgLevels.CountingSequenceMultiples | mg/js/levels.js:43-51 | every term and the answer are multiples of the step within 0..100 |
| MgLevels.NumberBond | mg/js/levels.js:246-292 | the missing part is total − known, with the blank first or second |
| MgLevels.NumberBondParts | mg/js/levels.js:259-266 | the two drawn parts are non-negative and add up to the total |
| MgLevels.NumberBondBlankFilled | mg/js/levels.js:254-257 | filling the blank with the answer gives a true sum |
| MgLevels.SequenceStep | mg/js/levels.js:35-150 | each sequence concept's step is 1, 2, 5 or 10 |
| MgLevels.LevelOf | mg/js/levels.js:299-352 | exactly the seven grade levels exist, with one to three concepts each |
| MgLevels.EveryConceptReachable | mg/js/levels.js:299-352 | every concept belongs to some level |
| MgUi.OrPlaceholder | mg/js/ui.js:358-361 | the `\|\|` fallback to the placeholder for an empty answer |
| MgUi.Displayed | mg/js/ui.js:354-366 | fills the first `_`, else the first `?`, else appends " = " and the answer |
| MgUi.UpdateProblemDisplay | mg/js/ui.js:354-366 | no original problem changes nothing; otherwise the display shows it filled |
| MgUi.EmptyAnswerShowsQuestion | mg/js/ui.js:354-366 | an empty answer shows the question as written |
| MgUi.DigitsFillPlaceholder | mg/js/ui.js:354-366 | a digit answer is spliced in at the first placeholder |
| MgUi.NumberBondDisplaysSum | mg/js/ui.js:354-366 | a number bond displays as a true sum once answered |
| MgUi.Input | mg/js/ui.js:118-137 | a typed last digit is appended below ten characters and checked |
| MgUi.KeyDown | mg/js/ui.js:140-164 | Enter submits; Backspace or Delete erases |
| MgUi.InputStaysShortDigits | mg/js/ui.js:118-137 | the answer stays all digits and at most ten characters |
| MgUi.KeyDownStaysShortDigits | mg/js/ui.js:140-164 | the same for control keys |
| MgUi.EraseUndoesInput | mg/js/ui.js:118-164 | erasing right after typing restores the answer |
| MgUi.DisplayProblem | mg/js/ui.js:346-352 | the original problem is kept, the answer cleared and the display filled |
| MgUi.DisplayedProblemIsQuestion | mg/js/ui.js:346-366 | a fresh problem with a placeholder displays as written |
| MgUi.ShowGameScreen | mg/js/ui.js:286-295 | only the game screen shows, with the answer cleared |
| MgUi.ShowDifficultySelect | mg/js/ui.js:297-305 | only the difficulty screen shows, with the answer, original and display cleared |
| MgUi.ClearAnswer | mg/js/ui.js:394-397 | the answer clears and the display refills |
| MgUi.ResetStaysBlank | mg/js/ui.js:297-305 | after the reset, typing and clearing keep the display blank |

## Left out

- Rendering is not modelled: the DOM, CSS, canvas and Three.js meshes, SVG coordinates, sound, animations, the `pressed` and `shake` effects and focus handling. Only the state they display is modelled.
- Timers and intervals (`setInterval`, `setTimeout`) are left out, except that the automatic check's pending callbacks are counted. Each handler is modelled at the moment it runs.
- The automatic check's 300 ms delay: `QuizGame.Session` counts the callbacks still waiting, but not their timing. Any order of keystrokes, submits and callback firings can be written as a sequence of steps, so the order the timing produces is among them.
- The clock (`Date.now`, `new Date().toISOString()`) is a parameter `now`/`date`.
- `Math.random` is a parameter: the caller supplies the draw, restricted to the range the source's expression yields. The choice of concept within a level is a parameter `next`.
- JSON.parse and JSON.stringify are function parameters: `parse`/`stringify` in `JulianService`, `JulianPanel` and `SnakeStorage`, and the saved-rankings and saved-progress options. Their behaviour is not modelled; a failed parse is `None`. This includes Storage's parse of a non-array, which is whatever the `parse` parameter returns.
- The fetch transport and the chrome/browser extension APIs are left out. The server is a function from request to response; storage is a record of optional fields.
- Text.Lower, Text.Upper, Text.LowerChar, Text.UpperChar map only ASCII letters, because JavaScript's full Unicode case tables are not modelled. `toUpperCase`/`toLowerCase` in the source map every Unicode letter.
- JulianBackground.CopiedNotice: assumes the en-US locale for `toLocaleString()`. The browser's default locale decides in the source, so a de-DE browser writes "1.234", and en-IN groups 1234567 as "12,34,567".
- JulianOptions.AddNewApiKey: treats every normalized name as an own key of the key and usage maps. The source stores them in plain objects, so the name "constructor" finds the inherited function and gets no usage entry, and "__proto__" sets the prototype and is never stored or saved. JulianOptions.StoreKey has the same divergence.
- SnakeStorage.SpreadOverrides: keeps keys in insertion order. JavaScript's spread and `JSON.stringify` put integer-like own keys first, in ascending order. This affects only the order of keys in the saved settings text. SnakeStorage.Put has the same divergence.
- JulianOptions.MaskApiKey counts characters as code points. The source's `length`/`substring` count UTF-16 units, so a key containing an astral character masks differently.
- SnakeBody.Update: the frame timing in Snake.js is floating-point time accumulation. It is modelled as a `due` flag set by the caller.
- SnakeBody.Boost: the boost timers are floating point and `updateBoostState` is never called, so only starting a boost is modelled.
- QuizVisual.Padding: it models `Math.ceil(range * 0.2)` as the exact integer ceiling. Floating-point rounding of `range * 0.2` for huge ranges is not modelled.
- QuizProgress.Accuracy computes `Math.round` of the percentage in exact arithmetic, not floating point.
- The bots' random turn and spawn draws are parameters, and BotAI's timers are left out.
- snake/src/js/app.js and mg/js/app.js (wiring) and the service worker are not part of this model.
- The mg quiz's `initializeNumberPad` is defined but never called. It is not modelled.
- The `modeDisplay` text and the progress screen's chart and stats display are not modelled.
- localStorage writes of rankings and progress are not modelled; the state is kept in the game record.
- options.js `testApiConnection` reports `error.message`, and the rest of the options page's rendering, is not modelled.
- QuizVisual.CreateTotalBlocks: the source's second-number bookkeeping (`num2` in the loop) never affects the colours, so it is not modelled.
- QuizGame.StartGame requires `now != 0`: the source treats a zero start time as no timer (js/game.js:163), and `Date.now()` is never 0.
- QuizGame.Game has a `skippedAny` field that the source does not have. Only the corrected flow (`EndGame`, `ProcessCorrectIntended`) reads it; the as-written flow ignores it.
- The mg quiz's `showRankings` and `formatTime` are identical to the quiz's and are modelled once in `QuizUi`.

## Findings

| source | as written | input that shows it | evidently intended | confidence | as-written member | corrected member |
|---|---|---|---|---|---|---|
| snake/src/js/game/Game.js:349 | `gameOver` calls `this.storage.setHighScore`, which Storage does not define, so the call throws before the game-over event | a first game scoring 1 on an empty store; a wall crash with any score above the record | raise the stored high score and always emit `gameover` | not executed | SnakeGame.GameOverAsWritten, SnakeGame.FirstRecordIsLost, SnakeGame.CheckCollisions, SnakeGame.Update, SnakeGame.RecordCrashLosesGameOver | SnakeGame.GameOver, SnakeGame.GameOverKeepsBest, SnakeGame.CheckCollisionsIntended, SnakeGame.UpdateIntended |
| js/game.js:183 | `skipped: this.wrongAttempts > 0`, but the finishing correct answer has just set `wrongAttempts` to 0 | a challenge with one skip, then 20 correct answers: 'persistent' is awarded | record whether any problem was skipped | not executed | QuizGame.ProcessCorrect, QuizGame.EndGameAsWritten, QuizGame.SkippedNeverRecorded | QuizGame.ProcessCorrectIntended, QuizGame.EndGame, QuizGame.SkipIsRecorded |
| js/game.js:96 | `parseInt(answer) === this.currentProblem.answer`, but the fractions answer is a `toFixed(1)` string | "1 + 1/2" with the answer "1.5" (the key handler types only digit keys, so "." cannot be typed from the keyboard: `QuizUi.KeyDown`; the pad types its buttons' labels, `QuizUi.PadClick`, and the page that defines them is not part of this model) | compare the typed text with the fraction's text | not executed | QuizGame.FractionsNeverAccepted | QuizGame.CheckAnswerIntended, QuizGame.FractionAcceptedAsText |
| js/game.js:81-88 | the 300 ms auto-check callback calls `processCorrectAnswer` without checking that the answer still matches | "3 + 4 = ?", type "7" and press Enter within 300 ms: two answers are counted and the next problem is replaced unseen | count the answer once, as the single Enter press the callback simulates | not executed | QuizGame.AutoCheckAsWritten, QuizGame.FireAsWritten, QuizGame.SubmitBeforeCallbackCountsTwice | QuizGame.FireIntended, QuizGame.SubmitBeforeCallbackCountsOnce |
| js/game.js:113 | quitting practice does not cancel a pending auto-check callback; when it fires, `processCorrectAnswer` counts the answer and writes the practice score line, then reads the explanation of the cleared problem and throws | practice "3 + 4 = ?", type "7" and press Quit within 300 ms | the callback re-checks the answer, so it does nothing once the game is quit | not executed | QuizGame.ProcessCorrect, QuizGame.QuitThenFireCounts | QuizGame.FireIntended, QuizGame.QuitThenFireIntendedKeepsQuit |
| js/progress.js:37-38 | practice problems are counted only in `updateStats`, which only `endGame` calls, and practice never ends | any number of correct practice answers: the count stays put and 'practice_master' is never awarded | count each correct practice answer | not executed | QuizGame.PracticeCountNeverGrows | QuizGame.ProcessCorrectIntended, QuizGame.PracticeSolvesCount, QuizProgress.HundredPracticeSolves |
