# EnglishLearnGame: the vocabulary session, the settings store and the character rules

This project models the logic of EnglishLearnGame, a WPF vocabulary game. It
covers three parts of that game and proves properties of each.

- **The vocabulary session** (`MainGameWindow`), module `Session`, built on
  `Vocabulary` and `Statistics`. It loads the word list of the character's
  difficulty level: a header line, then German/English pairs separated by `,`
  or `;`. The list is optionally shuffled. Words are drawn at random without
  replacement until none is left. Typed answers are compared with the
  translation after trimming, ignoring case. The session counters and the
  character's per-difficulty `LevelStatistics` are updated after every
  answer. When the list is used up, the player may go on with a fresh copy
  of the list.
- **The settings store** (`ConfigManager`), module `Config`. It is a
  dictionary from `Section.key` to text. It is seeded with 17 defaults, then
  overwritten from config.ini, read line by line (comments, `[Section]`
  headers, `key=value` split at the first `=`). It is written back in a
  fixed layout and read through typed getters that fall back to defaults.
- **The character editor** (`CharacterEditor`), module `Editor`, built on
  `Character`. It checks the name, age (1 to 99) and class (1 to 13), and
  decides when saving is allowed. It runs the five-slot wrap-around carousel
  of each category and moves a carousel when a character is selected. It
  writes the hash as the first four digest bytes in hexadecimal, and the save
  file is named `{Name}_{Hash}.json`.

The .NET string and number operations these parts rely on are modelled in
`Text` and `Numbers`:

- `char.IsWhiteSpace`, `Trim`, `ToLower`, `IndexOf` and `Split`;
- `int.TryParse` and `bool.TryParse`;
- `int.ToString()` and `bool.ToString()`.

Inputs stand in for the outside world:

- a file is given as its lines, or `None` when it does not exist;
- `Random.Next(n)` is a number `choice` reduced to `choice % n`;
- `OrderBy(x => Guid.NewGuid())` is `Shuffle(xs, order)`: each number in
  `order` picks the next element among those left;
  `ShuffleReachesEveryPermutation` shows that no ordering is lost this way;
- the SHA-256 digest is given as 32 bytes;
- `DateTime.Now` is given as a number.

The game's static `ConfigManager` is an object (`ConfigStore`) that the session
holds. The `LevelStatistics` held in `CharacterData.levelStats` are values in a
map field.

Behaviours of the code a reader might not expect:

- `CheckAnswer` does not count attempts. `totalWords` is the number of words
  loaded.
- The language direction is read from the settings at every draw and every
  check, not fixed for a session.
- A line whose fields are empty after trimming (`" , "`) still gives a word.
  Only the number of fields is checked, before trimming.
- The expected answer shown after a wrong answer is the lower-cased
  translation as loaded.

## Model

| member | source | states |
|---|---|---|
| Vocabulary.FieldsSpec | EnglishLearnGame/MainGameWindow.xaml.cs:181-185 | A line has two fields or more exactly when it contains ',' or ';'. When it contains a comma, the fields are its comma split, even if it also has semicolons. Otherwise they are its semicolon split. |
| Vocabulary.ParseLineSpec | EnglishLearnGame/MainGameWindow.xaml.cs:178-195 | A line gives a word exactly when it is not blank and contains a delimiter, so a lone word is dropped. The word is the trimmed text before the first delimiter (German) and the trimmed text between the first and second delimiter or the end (English). Further fields are ignored. |
| Vocabulary.ReadWordList | EnglishLearnGame/MainGameWindow.xaml.cs:173-197 | The reading loop returns `WordList(lines)`. The first line is skipped and every later line contributes its parse, in file order. |
| Vocabulary.ParseLinesAppend | EnglishLearnGame/MainGameWindow.xaml.cs:176-197 | Lines are parsed independently. The words of two parts of a file are the words of the first part followed by those of the second. |
| Vocabulary.SkippedLineIrrelevant | EnglishLearnGame/MainGameWindow.xaml.cs:178-188 | A blank line, or one without a delimiter, can be removed without changing the loaded words. |
| Vocabulary.WordListAllValid | EnglishLearnGame/MainGameWindow.xaml.cs:176-197 | Whatever the header, a file whose data lines all hold a pair gives exactly one word per data line, in file order. |
| Vocabulary.RemoveAtTakesOne | EnglishLearnGame/MainGameWindow.xaml.cs:264-265 | `RemoveAt(k)` takes exactly one copy of the element at `k` out of the list, and nothing else. |
| Vocabulary.ShufflePermutes | EnglishLearnGame/MainGameWindow.xaml.cs:213-216 | Whatever the random numbers, the shuffle is a permutation: same elements, same multiplicities. |
| Vocabulary.ShuffleReachesEveryPermutation | EnglishLearnGame/MainGameWindow.xaml.cs:215 | Every permutation of the list is the result of some random numbers. |
| Session.IsCorrectAnswerSpec | EnglishLearnGame/MainGameWindow.xaml.cs:290-294 | An answer is right exactly when the trimmed, lower-cased answer equals the lower-cased expected field (English for direction 0, German otherwise). The translation of any word read from a file, typed as is, is accepted. |
| Session.GameSession.constructor | EnglishLearnGame/MainGameWindow.xaml.cs:19-33 | A new session has no words, no current word, zero counters, and accepts no answer. |
| Session.GameSession.InitializeGame | EnglishLearnGame/MainGameWindow.xaml.cs:45-66 | Runs while no answer is awaited, as when the window opens. Loads the list and draws the first word. The outcome is the no-vocabulary error exactly when no word was loaded, and never level-complete. When a word is shown it is the current word, taken from the loaded list and the only word drawn; the pool holds the rest, its prompt follows `LanguageDirection`, the controls accept an answer, and the counters are as they were. |
| Session.GameSession.LoadVocabulary | EnglishLearnGame/MainGameWindow.xaml.cs:142-216 | The pool is the file's word list, shuffled when `RandomizeWordOrder` reads true. `totalWords` is its length and the pool is a permutation of it. Nothing is drawn yet and the counters are unchanged. |
| Session.GameSession.Restock | EnglishLearnGame/MainGameWindow.xaml.cs:144-209 | The new list replaces the old: the loaded words, the pool in the order given (a permutation of them), nothing drawn, `totalWords` the list's length, the counters and the controls unchanged. |
| Session.GameSession.ShowNextWord | EnglishLearnGame/MainGameWindow.xaml.cs:233-269 | With an empty pool: no-vocabulary when `totalWords == 0`, level-complete (every loaded word drawn) otherwise, and nothing changes. Otherwise the word at `choice` modulo the pool size becomes the current word and leaves the pool. Its German or English half is shown according to `LanguageDirection`. Pool plus drawn words stay a permutation of the loaded list. A shown word enables the answer box; otherwise the controls stay as they were. It runs only while no answer is awaited (its three callers run at the start, after an answer's feedback and after a reload), so when it does not show a word every draw has been scored, and at level-complete every loaded word was drawn and scored. |
| Session.GameSession.TakeWord | EnglishLearnGame/MainGameWindow.xaml.cs:263-273 | The word at the index becomes the current word, leaves the pool (one copy, the pool one shorter) and is appended to the drawn words; it is one of the loaded words; the answer box is enabled; the counters are unchanged. |
| Session.GameSession.CheckAnswer | EnglishLearnGame/MainGameWindow.xaml.cs:285-332 | Without a current word, with a blank answer, or while the controls are disabled, nothing changes, statistics included. Otherwise a right answer adds one to the right answers and the streak, and a wrong one sets the streak to 0; the feedback disables the controls, so each drawn word is scored at most once (`Valid` keeps the draws equal to the scored answers plus the one awaiting an answer). The answer is recorded in the current difficulty's statistics, the save file name is returned, the pool never changes, and every other field of the character is kept. |
| Session.GameSession.Score | EnglishLearnGame/MainGameWindow.xaml.cs:296-332 | The counters of a right or wrong answer, the controls disabled, one more scored answer, and `SaveProgress`'s update of the statistics with the rest of the character kept. |
| Session.GameSession.SaveProgress | EnglishLearnGame/MainGameWindow.xaml.cs:342-370 | The current difficulty's entry is created when missing and updated by `Record`. Every other entry and every other field of the character is unchanged. The file written is `{Name}_{Hash}.json`. |
| Session.GameSession.ShowLevelCompleteMessage | EnglishLearnGame/MainGameWindow.xaml.cs:388-420 | Runs while no answer is awaited. Returns the current difficulty's statistics, or a fresh entry. On "no" no field of the session changes. On "yes" the list is reloaded, the right answers and the streak are reset to 0, and a word is drawn, which cannot end the level again at once; a shown word is the current word, one of the loaded words and the only one drawn, the pool holds the rest, and the answer box is enabled. |
| Session.GameSession.PracticeAgain | EnglishLearnGame/MainGameWindow.xaml.cs:406-415 | The "yes" branch: the list is reloaded, the right answers and the streak are 0, and the draw that follows is never level-complete; it is the no-vocabulary error exactly when nothing was loaded, and a shown word is one of the loaded words, the only one drawn, with the rest in the pool and the answer box enabled. |
| Statistics.EntryOf | EnglishLearnGame/MainGameWindow.xaml.cs:389 | A difficulty without an entry reads as a fresh `LevelStatistics`. |
| Statistics.RecordKeepsConsistent | EnglishLearnGame/MainGameWindow.xaml.cs:344-367 | A fresh entry satisfies total = right + wrong and current streak ≤ best streak ≤ right answers, and each update keeps all three. |
| Statistics.ReplaySpec | EnglishLearnGame/MainGameWindow.xaml.cs:344-367 | An entry built from a fresh one by a sequence of answers holds the number of right answers, of wrong answers and of all answers. Its current streak is the run of right answers at the end. Its best streak is the longest block of right answers. Its time is that of the last answer. |
| Statistics.LongestRunSpec | EnglishLearnGame/MainGameWindow.xaml.cs:354-358 | `LongestRun` is the length of the longest block of consecutive right answers: no block is longer and one block is that long. |
| Statistics.TrailingRunSpec | EnglishLearnGame/MainGameWindow.xaml.cs:358-363 | The run at the end is a block of right answers that cannot be extended to the left. |
| Statistics.TrailingRunWithinCount | EnglishLearnGame/MainGameWindow.xaml.cs:353-363 | The current streak never exceeds the number of right answers. |
| Character.CharacterData.constructor | EnglishLearnGame/CharacterEditor.xaml.cs:338-347 | The new character holds the given name, age, class, category, character, creation time and hash. Its statistics start empty. |
| Character.HexStringDigits | EnglishLearnGame/CharacterEditor.xaml.cs:393-396 | The hex text has two lower-case hexadecimal digits per byte. |
| Character.HexStringRoundTrip | EnglishLearnGame/CharacterEditor.xaml.cs:393-396 | Reading the hex text back two digits at a time gives the bytes, in order. |
| Character.HexStringInjective | EnglishLearnGame/CharacterEditor.xaml.cs:393-396 | Different bytes give different hex text. |
| Character.GenerateHash | EnglishLearnGame/CharacterEditor.xaml.cs:382-399 | The loop returns the hex text of the first four digest bytes: exactly 8 lower-case hexadecimal digits. |
| Character.HashesDiffer | EnglishLearnGame/CharacterEditor.xaml.cs:389-398 | Digests that differ in their first four bytes give different hashes. |
| Character.SaveFileNameInjective | EnglishLearnGame/CharacterEditor.xaml.cs:350 | With hashes of one length, `{Name}_{Hash}.json` determines both the name and the hash. The same formula is used at MainGameWindow.xaml.cs:370, so saving progress overwrites the creation file. |
| Editor.CarouselIndexSpec | EnglishLearnGame/CharacterEditor.xaml.cs:106-108 | For `0 <= pos < n` and offsets -2..2, the C# index `(pos + i + n) % n` lies in `[0, n)`. It equals the mathematical `(pos + i) mod n`, and the middle one is `pos`. |
| Editor.FirstIndexOf | EnglishLearnGame/CharacterEditor.xaml.cs:181 | `List.IndexOf`: -1 exactly when absent, otherwise a position holding the name with no earlier occurrence. |
| Editor.CategoryDisplayNameSpec | EnglishLearnGame/CharacterEditor.xaml.cs:223-231 | human/heroes/monster map to Menschen/Helden/Monster in any letter case, and the three names differ. Any other text is returned unchanged. |
| Editor.ValidatedNumberSpec | EnglishLearnGame/CharacterEditor.xaml.cs:257-266 | The kept value is positive exactly when the text parses to a number in 1..max, and then it is that number. Otherwise it is 0, and every number in range typed plainly is kept. |
| Editor.CharacterEditor.constructor | EnglishLearnGame/CharacterEditor.xaml.cs:31-93 | The three categories start at carousel position 0, each holding its directory listing (empty when the directory is missing). Nothing is selected and saving is disabled. |
| Editor.CharacterEditor.ValidateSaveButton | EnglishLearnGame/CharacterEditor.xaml.cs:235-244 | Saving is enabled exactly when the name is not blank, age > 0, class > 0, and a category and a character are selected. |
| Editor.CharacterEditor.CreateCarousel | EnglishLearnGame/CharacterEditor.xaml.cs:95-114 | An unknown or empty category shows nothing. Otherwise five characters are shown, slot `k` holding `list[(pos + k - 2) mod n]`, with the middle one at the carousel position. |
| Editor.CharacterEditor.OnCharacterSelected | EnglishLearnGame/CharacterEditor.xaml.cs:170-203 | The selection is recorded. When the character is in the category's list, that category's position becomes its first index there, otherwise no position changes. Other categories never move, and the save button is re-evaluated. |
| Editor.CharacterEditor.NameTextChanged | EnglishLearnGame/CharacterEditor.xaml.cs:246-250 | The name is kept trimmed and the save button is re-evaluated. |
| Editor.CharacterEditor.AgeTextChanged | EnglishLearnGame/CharacterEditor.xaml.cs:252-272 | The age is the typed number when it parses and lies in 1..99, else 0. The save button is re-evaluated. |
| Editor.CharacterEditor.ClassTextChanged | EnglishLearnGame/CharacterEditor.xaml.cs:280-300 | The class is the typed number when it parses and lies in 1..13, else 0. The save button is re-evaluated. |
| Editor.CharacterEditor.SaveCharacter | EnglishLearnGame/CharacterEditor.xaml.cs:330-350 | The new character carries the editor's fields, the creation time and the 8-digit hash. Its file name is `{Name}_{Hash}.json`. |
| Config.RunAppend | EnglishLearnGame/ConfigManager.cs:39-64 | The reading loop is a fold: reading `a + b` is reading `b` from the state left by `a`. |
| Config.LastAssignmentWins | EnglishLearnGame/ConfigManager.cs:62-63 | An assignment line stores its value under `Section.key` (or the bare key before any header), replacing any earlier value. |
| Config.ClassifyComment | EnglishLearnGame/ConfigManager.cs:44-45 | A `#` comment line is skipped. |
| Config.ClassifyHeader | EnglishLearnGame/ConfigManager.cs:48-51 | `[Name]` sets the section to `Name`. |
| Config.ClassifyEntry | EnglishLearnGame/ConfigManager.cs:55-59 | `name=value` splits at the first `=`, so the value may contain `=`. It gives the name and the trimmed value. |
| Config.ReadOver | EnglishLearnGame/ConfigManager.cs:28-64 | Reading a file over a dictionary keeps every entry the file does not assign, and the file's assignments win. |
| Config.LoadFileIsDefaultsOverridden | EnglishLearnGame/ConfigManager.cs:26-72 | After loading, the dictionary is the 17 defaults overridden by the file's assignments (only the defaults without a file). Nothing from an earlier load survives. |
| Config.DefaultsCoverKnownKeys | EnglishLearnGame/ConfigManager.cs:77-103 | The keys `SetDefaultValues` assigns are exactly the keys `SaveConfig` writes, and every default is trimmed text. |
| Config.DefaultFileReadsAsDefaults | EnglishLearnGame/ConfigManager.cs:118-150 | The file `CreateDefaultConfig` writes parses to exactly the defaults, so loading it equals loading with no file. |
| Config.RunRender | EnglishLearnGame/ConfigManager.cs:167-208 | Reading the lines `SaveConfig` writes assigns exactly the layout's keys, each with its trimmed value, whatever the state before. |
| Config.SaveThenLoad | EnglishLearnGame/ConfigManager.cs:163-210 | Saving and loading again gives the 17 known keys with their trimmed current values. Keys added by `SetValue` outside that set are dropped. |
| Config.SaveThenLoadExact | EnglishLearnGame/ConfigManager.cs:163-210 | A dictionary holding exactly the known keys with trimmed values is reproduced exactly by saving and loading. |
| Config.IntValueSpec | EnglishLearnGame/ConfigManager.cs:251-255 | A missing key or unparsable text gives the default, and a number stored as text reads back as itself. |
| Config.BoolValueSpec | EnglishLearnGame/ConfigManager.cs:242-246 | A missing key or unparsable text gives the default, and `True`/`False` (or lower case) read back as themselves. |
| Config.ConfigStore.constructor | EnglishLearnGame/ConfigManager.cs:16-21 | The store starts as after `LoadConfig`, with the fixed layout; when there was no config.ini, the default file `LoadConfig` creates is kept as the file written. |
| Config.ConfigStore.SetDefaultValues | EnglishLearnGame/ConfigManager.cs:77-103 | Every default is assigned and other keys are kept. |
| Config.ConfigStore.LoadConfig | EnglishLearnGame/ConfigManager.cs:26-72 | The loop leaves the dictionary as `LoadFile` describes. Without a file, the default file is returned for creation. |
| Config.ConfigStore.SaveConfig | EnglishLearnGame/ConfigManager.cs:163-210 | Returns the written lines in the fixed layout. They load back as the known keys with their trimmed values. |
| Config.ConfigStore.GetValue | EnglishLearnGame/ConfigManager.cs:224-227 | The stored value when the key is present, the default otherwise. |
| Config.ConfigStore.SetValue | EnglishLearnGame/ConfigManager.cs:234-237 | The key now maps to the value and every other key is unchanged. |
| Config.ConfigStore.GetBoolValue | EnglishLearnGame/ConfigManager.cs:242-246 | `bool.TryParse` of the stored text (the default's lower-case text when missing), else the default. |
| Config.ConfigStore.GetIntValue | EnglishLearnGame/ConfigManager.cs:251-255 | `int.TryParse` of the stored text (the default's text when missing), else the default. |
| Config.ConfigStore.GetInt | EnglishLearnGame/ConfigManager.cs:258-274 | Each numeric accessor reads its key with its fixed fallback, e.g. `LanguageDirection` 0, `MaxErrorsPerLevel` 3, `FontSize` 14. |
| Config.ConfigStore.GetBool | EnglishLearnGame/ConfigManager.cs:261-271 | Each boolean accessor reads its key with its fixed fallback: true for all but `PracticeMode`, e.g. `RandomizeWordOrder` true. |
| Config.ConfigStore.GetText | EnglishLearnGame/ConfigManager.cs:259-264 | `DifficultyLevel` falls back to "A1" and `Theme` to "Light". |
| Numbers.IntToStringRoundTrip | EnglishLearnGame/ConfigManager.cs:253-254 | `int.TryParse` reads back every `int` written by `ToString()`. |
| Numbers.BoolToStringRoundTrip | EnglishLearnGame/ConfigManager.cs:244-245 | `bool.TryParse` reads back `b.ToString()` and its lower-case form. |
| Text.TrimSpec | EnglishLearnGame/MainGameWindow.xaml.cs:192-193 | `Trim` gives text that neither starts nor ends with white space. It is empty exactly for blank text and the identity on text without white space at its ends. |
| Text.TrimIdempotent | EnglishLearnGame/MainGameWindow.xaml.cs:290 | Trimming twice is trimming once. |
| Text.IndexOfSpec | EnglishLearnGame/ConfigManager.cs:57 | `IndexOf` is -1 exactly when the character is absent, and otherwise its first position. |
| Text.SplitCount | EnglishLearnGame/MainGameWindow.xaml.cs:181-184 | `Split` gives more than one piece exactly when the separator occurs. |
| Text.SplitJoin | EnglishLearnGame/MainGameWindow.xaml.cs:181 | Joining the pieces with the separator gives the text back. |
| Text.SplitPiecesFree | EnglishLearnGame/MainGameWindow.xaml.cs:181 | No piece contains the separator. |

## Left out

- The window, its controls, message boxes, images, focus handling and the `UpdateUI`/`LoadStatistics` text are presentation and are not modelled. The one exception is whether the answer box and the check button accept an answer (`answerEnabled`), because that decides how often a word can be scored.
- The session clock, `GameTimer_Tick` and the two-second delay before the next word are timing, not logic. The next word is a separate `ShowNextWord` call, which may only follow the feedback of an answer (its precondition), as the timer started by `CheckAnswer` ensures in the game.
- File-system access is not modelled: the five candidate paths of the word file, `File.Exists`, reading and writing files, and directory creation. A file is given as its lines or `None`, and writes are returned as values (lines, file names).
- The JSON serialisation of `CharacterData` in `SaveProgress` and `SaveCharacterButton_Click` belongs to a library and is not modelled. The model returns the file name and the updated object. SaveFileManager.cs is not part of this model.
- SHA-256, `Encoding.UTF8` and the input text `{age}{class}{Ticks}` of `GenerateHash` are foreign code and not modelled. The digest is a parameter.
- `ToLower` and `OrdinalIgnoreCase` fold ASCII letters only. `StartsWith("#")`, `StartsWith("[")` and `EndsWith("]")` are compared ordinally.
- `Random` and `Guid.NewGuid` are modelled as chosen numbers, not as distributions.
- Numbers.TryParseInt: `Int32.TryParse` also accepts trailing `'\0'` characters, and `bool.TryParse` (`Numbers.TryParseBool`) strips `'\0'` along with white space; neither is modelled, because no text the game writes or reads contains `'\0'`.
- `LoadCharacterInfo` and the exception handlers (`try`/`catch` with messages) have no effect on the modelled state and are not modelled.
- `ShowNextWord` calls `ShowLevelCompleteMessage` itself when every word is drawn. Here it returns `LevelComplete` and the caller then calls `ShowLevelCompleteMessage`, so the mutual recursion of the source is not modelled.
- The difficulty used to pick the word file (`characterData?.CurrentDifficulty ?? ConfigManager.DifficultyLevel`) only selects a file, which is a parameter. A `null` character is not modelled.
- Session.GameSession.constructor: it does not run `InitializeGame`, which is a separate method (`InitializeGame`) called after it.
- `CharacterData.CurrentDifficulty`, `LanguageDirection` and `LevelStats` are used by the game but not declared in the class shown. They are declared from their uses, and `LevelStatistics` is a value in a map rather than a shared object.
- Counters are unbounded: the 32-bit overflow of `correctAnswers`, `currentStreak` and the statistics counters, after two billion answers, is not modelled.
- `CreateDefaultConfig`, `SetDefaultValues` and `SaveConfig` spell out the same settings three times. The model writes them once, as a layout with default values. The comment and blank lines are kept, so the default file is the layout filled with the defaults.
- Every written value is one line of the model. A value containing a line break would split its line in the real file, and that case is not modelled. `SaveThenLoad` states the round trip for values after trimming.
- Session.GameSession.SaveProgress: does not restate that the updated entry stays consistent; that follows from `Statistics.RecordKeepsConsistent`.
- Editor.CharacterEditor.OnCharacterSelected: does not state which five characters the redrawn carousel returns; that is `CreateCarousel`'s contract.
- `UpdateSelectionInfo` only sets texts, and `ValidateSaveButton` is called in its place. `Expander_Expanded`, `ShowWelcomeMessage` and `CreateCharacterButton` are presentation and are not modelled.
