/**
  The vocabulary session of MainGameWindow.xaml.cs: loading the word list
  of the character's difficulty level, drawing words at random until none
  is left, checking the typed answers, keeping the session counters and
  recording every answer in the character's statistics. The word file, the
  random numbers, the clock and the player's choices are inputs; the
  window, its timers and the JSON save are left out.
 */
module Session {
  import opened Wrappers
  import opened Text
  import opened Vocabulary
  import opened Statistics
  import opened Character
  import opened Config

  /** The word shown for `w`: German when the language direction is 0,
      English for any other direction. */
  function Prompt(w: VocabularyWord, direction: int): string {
    if direction == 0 then w.german else w.english
  }

  /** The translation expected for `w`: the other half of the pair. */
  function ExpectedAnswer(w: VocabularyWord, direction: int): string {
    if direction == 0 then w.english else w.german
  }

  /** The comparison of `CheckAnswer`: the typed text, trimmed and
      lower-cased, against the lower-cased translation, ignoring case. */
  predicate IsCorrectAnswer(answer: string, w: VocabularyWord, direction: int) {
    EqualsIgnoreCase(ToLower(Trim(answer)), ToLower(ExpectedAnswer(w, direction)))
  }

  /** An answer is right exactly when, without surrounding white space, it
      is the translation up to letter case; the lower-casing before the
      case-insensitive comparison changes nothing. The translation of a
      word read from a file, typed as it is, is always right, and so is
      the translation of a word whose fields are trimmed. */
  lemma IsCorrectAnswerSpec(answer: string, w: VocabularyWord, direction: int, line: string)
    ensures IsCorrectAnswer(answer, w, direction) <==> ToLower(Trim(answer)) == ToLower(ExpectedAnswer(w, direction))
    ensures Trim(w.german) == w.german && Trim(w.english) == w.english ==>
      IsCorrectAnswer(ExpectedAnswer(w, direction), w, direction)
    ensures ParseLine(line) == Some(w) ==> IsCorrectAnswer(ExpectedAnswer(w, direction), w, direction)
  {
    ToLowerIdempotent(Trim(answer));
    ToLowerIdempotent(ExpectedAnswer(w, direction));
    if ParseLine(line) == Some(w) {
      var parts := Fields(line);
      TrimIdempotent(parts[0]);
      TrimIdempotent(parts[1]);
    }
  }

  /** What `ShowNextWord` leads to. */
  datatype DrawOutcome =
    | Shown(prompt: string)    // a word was drawn and its prompt shown
    | NoVocabulary             // no word was loaded: error message, the window closes
    | LevelComplete            // every loaded word was drawn: the level-complete message

  /** What `CheckAnswer` leads to: nothing, or feedback and a saved file. */
  datatype CheckOutcome =
    | Unchecked
    | Correct(fileName: string)
    | Wrong(expected: string, fileName: string)

  /** Every field of the character except its statistics is as it was. */
  twostate predicate ProfileKept(c: CharacterData)
    reads c
  {
    && c.name == old(c.name) && c.hash == old(c.hash)
    && c.age == old(c.age) && c.schoolClass == old(c.schoolClass)
    && c.category == old(c.category) && c.character == old(c.character)
    && c.createdDate == old(c.createdDate)
    && c.currentDifficulty == old(c.currentDifficulty)
    && c.languageDirection == old(c.languageDirection)
  }

  /** `MainGameWindow`: one game session of one character. */
  class GameSession {
    const characterData: CharacterData
    const config: ConfigStore
    /** The words not drawn yet. */
    var vocabularyWords: seq<VocabularyWord>
    /** The word last drawn, `null` before the first one. */
    var currentWord: Option<VocabularyWord>
    var correctAnswers: nat
    var totalWords: nat
    var currentStreak: nat
    /** The word list as last loaded, before shuffling. */
    ghost var loaded: seq<VocabularyWord>
    /** The words drawn since then, in order. */
    ghost var drawn: seq<VocabularyWord>
    /** Whether the answer box and the check button accept an answer for
        the current word: enabled when a word is shown, disabled by the
        feedback of a checked answer. */
    var answerEnabled: bool
    /** The words drawn and the answers scored since the window opened. */
    ghost var drawCount: nat
    ghost var answerCount: nat

    /** Every loaded word is either still to come or drawn, exactly once;
        every draw but the one waiting for an answer has been scored; and
        the streak is made of right answers. */
    ghost predicate Valid()
      reads this
    {
      totalWords == |loaded|
      && multiset(vocabularyWords) + multiset(drawn) == multiset(loaded)
      && currentStreak <= correctAnswers
      && (answerEnabled ==> currentWord.Some?)
      && drawCount == answerCount + (if answerEnabled then 1 else 0)
      && correctAnswers <= answerCount
    }

    /** The constructor, up to `InitializeGame`: no words, zero counters. */
    constructor (character: CharacterData, config: ConfigStore)
      ensures Valid()
      ensures characterData == character && this.config == config
      ensures vocabularyWords == [] && currentWord == None
      ensures correctAnswers == 0 && totalWords == 0 && currentStreak == 0
      ensures !answerEnabled && drawCount == 0 && answerCount == 0
    {
      characterData := character;
      this.config := config;
      vocabularyWords := [];
      currentWord := None;
      correctAnswers, totalWords, currentStreak := 0, 0, 0;
      loaded, drawn := [], [];
      answerEnabled := false;
      drawCount, answerCount := 0, 0;
    }

    /** `InitializeGame`: load the words, then draw the first one. Run once,
        when the window opens, before any answer can be given. */
    method InitializeGame(file: Option<seq<string>>, order: seq<nat>, choice: nat) returns (outcome: DrawOutcome)
      requires Valid() && !answerEnabled
      modifies this
      ensures Valid()
      ensures loaded == (if file.Some? then WordList(file.value) else [])
      ensures totalWords == |loaded|
      ensures outcome.NoVocabulary? <==> loaded == []
      ensures !outcome.LevelComplete?
      ensures outcome.Shown? ==>
        && currentWord.Some? && currentWord.value in loaded
        && drawn == [currentWord.value] && |vocabularyWords| == |loaded| - 1
        && outcome.prompt == Prompt(currentWord.value, IntValue(config.values, LanguageDirection.Key(), LanguageDirection.Fallback()))
        && answerEnabled && drawCount == old(drawCount) + 1
      ensures outcome.NoVocabulary? ==>
        currentWord == old(currentWord) && answerEnabled == old(answerEnabled) && drawCount == old(drawCount)
      ensures correctAnswers == old(correctAnswers) && currentStreak == old(currentStreak)
      ensures answerCount == old(answerCount)
    {
      LoadVocabulary(file, order);
      outcome := ShowNextWord(choice);
    }

    /** `LoadVocabulary`: the words of the file found for the difficulty
        level (`None` when no candidate path exists), header skipped, then
        shuffled when `RandomizeWordOrder` is set. `order` stands for the
        random keys of the shuffle. The counters are not reset here. */
    method LoadVocabulary(file: Option<seq<string>>, order: seq<nat>)
      requires Valid()
      modifies this
      ensures Valid()
      ensures loaded == (if file.Some? then WordList(file.value) else []) && drawn == []
      ensures totalWords == |loaded|
      ensures multiset(vocabularyWords) == multiset(loaded) && |vocabularyWords| == |loaded|
      ensures vocabularyWords ==
        if BoolValue(config.values, RandomizeWordOrder.Key(), RandomizeWordOrder.Fallback())
        then Shuffle(loaded, order) else loaded
      ensures currentWord == old(currentWord) && answerEnabled == old(answerEnabled)
      ensures correctAnswers == old(correctAnswers) && currentStreak == old(currentStreak)
      ensures drawCount == old(drawCount) && answerCount == old(answerCount)
    {
      var words: seq<VocabularyWord> := [];
      if file.Some? {
        words := ReadWordList(file.value);
      }
      var pool := words;
      var randomize := config.GetBool(RandomizeWordOrder);
      if randomize {
        ShufflePermutes(words, order);
        pool := Shuffle(words, order);
      }
      Restock(words, pool);
    }

    /** The new list of `LoadVocabulary`: `words` as loaded, `pool` the
        order they are drawn from, nothing drawn yet. */
    method Restock(words: seq<VocabularyWord>, pool: seq<VocabularyWord>)
      requires Valid() && multiset(pool) == multiset(words)
      modifies this
      ensures Valid()
      ensures loaded == words && vocabularyWords == pool && drawn == [] && totalWords == |words|
      ensures |vocabularyWords| == |loaded|
      ensures currentWord == old(currentWord) && answerEnabled == old(answerEnabled)
      ensures correctAnswers == old(correctAnswers) && currentStreak == old(currentStreak)
      ensures drawCount == old(drawCount) && answerCount == old(answerCount)
    {
      loaded, drawn, totalWords, vocabularyWords := words, [], |words|, pool;
    }

    /** `ShowNextWord`: with words left, the `choice`-th of them (reduced
        into range, as `Random.Next` is) is drawn, taken out and its prompt
        shown in the configured direction. With none left, the session
        either has no words at all or has shown and scored every loaded
        word once. It is called only while no answer is awaited: at the
        start, after the feedback of an answer, and after a reload. */
    method ShowNextWord(choice: nat) returns (outcome: DrawOutcome)
      requires Valid() && !answerEnabled
      modifies this
      ensures Valid()
      ensures !outcome.Shown? ==> answerCount == drawCount
      ensures outcome.NoVocabulary? <==> old(vocabularyWords) == [] && totalWords == 0
      ensures outcome.LevelComplete? <==> old(vocabularyWords) == [] && totalWords > 0
      ensures outcome.LevelComplete? ==> multiset(drawn) == multiset(loaded)
      ensures !outcome.Shown? ==>
        && vocabularyWords == old(vocabularyWords) && currentWord == old(currentWord) && drawn == old(drawn)
        && answerEnabled == old(answerEnabled) && drawCount == old(drawCount)
      ensures outcome.Shown? ==>
        var k := choice % |old(vocabularyWords)|;
        && currentWord == Some(old(vocabularyWords)[k])
        && vocabularyWords == RemoveAt(old(vocabularyWords), k)
        && drawn == old(drawn) + [old(vocabularyWords)[k]]
        && outcome.prompt == Prompt(old(vocabularyWords)[k], IntValue(config.values, LanguageDirection.Key(), LanguageDirection.Fallback()))
        && answerEnabled && drawCount == old(drawCount) + 1
      ensures outcome.Shown? ==>
        currentWord.Some? && currentWord.value in loaded && |vocabularyWords| == |old(vocabularyWords)| - 1
      ensures loaded == old(loaded) && totalWords == old(totalWords)
      ensures correctAnswers == old(correctAnswers) && currentStreak == old(currentStreak)
      ensures answerCount == old(answerCount)
    {
      if |vocabularyWords| == 0 {
        if totalWords == 0 {
          return NoVocabulary;
        } else {
          return LevelComplete;
        }
      }
      var index := choice % |vocabularyWords|;
      var w := vocabularyWords[index];
      TakeWord(index);
      var direction := config.GetInt(LanguageDirection);
      outcome := Shown(Prompt(w, direction));
    }

    /** The draw of `ShowNextWord`: the word at `index` leaves the pool and
        becomes the current word, and the controls accept an answer. */
    method TakeWord(index: nat)
      requires Valid() && !answerEnabled && index < |vocabularyWords|
      modifies this
      ensures Valid()
      ensures currentWord == Some(old(vocabularyWords)[index])
      ensures vocabularyWords == RemoveAt(old(vocabularyWords), index)
      ensures |vocabularyWords| == |old(vocabularyWords)| - 1 && old(vocabularyWords)[index] in loaded
      ensures drawn == old(drawn) + [old(vocabularyWords)[index]]
      ensures answerEnabled && drawCount == old(drawCount) + 1
      ensures loaded == old(loaded) && totalWords == old(totalWords)
      ensures correctAnswers == old(correctAnswers) && currentStreak == old(currentStreak)
      ensures answerCount == old(answerCount)
    {
      var w := vocabularyWords[index];
      assert w in multiset(loaded) by {
        assert w in multiset(vocabularyWords);
      }
      var pool := RemoveAt(vocabularyWords, index);
      assert multiset(pool) + multiset(drawn + [w]) == multiset(loaded) by {
        RemoveAtTakesOne(vocabularyWords, index);
      }
      vocabularyWords, currentWord, drawn := pool, Some(w), drawn + [w];
      answerEnabled, drawCount := true, drawCount + 1;
    }

    /** `CheckAnswer`: ignored before the first word, for a blank answer and
        while the controls are disabled (so each drawn word is scored at
        most once); otherwise a right answer adds to the right answers and
        the streak, a wrong one ends the streak, the feedback disables the
        controls, and either way the answer is recorded in the statistics
        and the character file is written. */
    method CheckAnswer(answer: string, now: int) returns (outcome: CheckOutcome)
      requires Valid()
      modifies this, characterData
      ensures Valid()
      ensures !old(answerEnabled) || currentWord.None? || IsBlank(answer) ==>
        && outcome == Unchecked
        && correctAnswers == old(correctAnswers) && currentStreak == old(currentStreak)
        && answerEnabled == old(answerEnabled) && answerCount == old(answerCount)
        && characterData.levelStats == old(characterData.levelStats)
      ensures old(answerEnabled) && currentWord.Some? && !IsBlank(answer) ==>
        var direction := IntValue(config.values, LanguageDirection.Key(), LanguageDirection.Fallback());
        var isCorrect := IsCorrectAnswer(answer, currentWord.value, direction);
        && !answerEnabled && answerCount == old(answerCount) + 1
        && correctAnswers == old(correctAnswers) + (if isCorrect then 1 else 0)
        && currentStreak == (if isCorrect then old(currentStreak) + 1 else 0)
        && (isCorrect ==> outcome == Correct(SaveFileName(characterData.name, characterData.hash)))
        && (!isCorrect ==> outcome == Wrong(ToLower(ExpectedAnswer(currentWord.value, direction)),
                                            SaveFileName(characterData.name, characterData.hash)))
        && characterData.levelStats == old(characterData.levelStats)[characterData.currentDifficulty :=
             Record(EntryOf(old(characterData.levelStats), characterData.currentDifficulty), isCorrect, now)]
      ensures vocabularyWords == old(vocabularyWords) && currentWord == old(currentWord)
      ensures loaded == old(loaded) && drawn == old(drawn) && totalWords == old(totalWords)
      ensures drawCount == old(drawCount)
      ensures ProfileKept(characterData)
    {
      if !answerEnabled || currentWord.None? || IsBlank(answer) {
        return Unchecked;
      }
      var w := currentWord.value;
      var userAnswer := ToLower(Trim(answer));
      var direction := config.GetInt(LanguageDirection);
      var correctAnswer := ToLower(ExpectedAnswer(w, direction));
      var isCorrect := EqualsIgnoreCase(userAnswer, correctAnswer);
      var fileName := Score(isCorrect, now);
      outcome := if isCorrect then Correct(fileName) else Wrong(correctAnswer, fileName);
    }

    /** The bookkeeping of a checked answer: the counters, the feedback
        that disables the controls, and `SaveProgress`. */
    method Score(isCorrect: bool, now: int) returns (fileName: string)
      requires Valid() && answerEnabled
      modifies this, characterData
      ensures Valid()
      ensures correctAnswers == old(correctAnswers) + (if isCorrect then 1 else 0)
      ensures currentStreak == (if isCorrect then old(currentStreak) + 1 else 0)
      ensures !answerEnabled && answerCount == old(answerCount) + 1
      ensures characterData.levelStats == old(characterData.levelStats)[characterData.currentDifficulty :=
        Record(EntryOf(old(characterData.levelStats), characterData.currentDifficulty), isCorrect, now)]
      ensures fileName == SaveFileName(characterData.name, characterData.hash)
      ensures vocabularyWords == old(vocabularyWords) && currentWord == old(currentWord)
      ensures loaded == old(loaded) && drawn == old(drawn) && totalWords == old(totalWords)
      ensures drawCount == old(drawCount)
      ensures ProfileKept(characterData)
    {
      answerEnabled := false;
      answerCount := answerCount + 1;
      if isCorrect {
        correctAnswers := correctAnswers + 1;
        currentStreak := currentStreak + 1;
      } else {
        currentStreak := 0;
      }
      fileName := SaveProgress(isCorrect, now);
    }

    /** `SaveProgress`: the entry of the current difficulty (created when
        missing) records the answer; other entries and the rest of the
        character stay as they are; the file written is the character's
        save file. */
    method SaveProgress(isCorrect: bool, now: int) returns (fileName: string)
      modifies characterData
      ensures characterData.levelStats == old(characterData.levelStats)[characterData.currentDifficulty :=
        Record(EntryOf(old(characterData.levelStats), characterData.currentDifficulty), isCorrect, now)]
      ensures ProfileKept(characterData)
      ensures fileName == SaveFileName(characterData.name, characterData.hash)
    {
      var difficulty := characterData.currentDifficulty;
      if difficulty !in characterData.levelStats {
        characterData.levelStats := characterData.levelStats[difficulty := NewLevelStatistics()];
      }
      var stats := characterData.levelStats[difficulty];
      characterData.levelStats := characterData.levelStats[difficulty := Record(stats, isCorrect, now)];
      fileName := SaveFileName(characterData.name, characterData.hash);
    }

    /** `ShowLevelCompleteMessage`: shows the statistics of the level; when
        the player chooses to go on, the words are loaded again, the
        session counters reset and a word drawn, which can then never end
        the level again at once; otherwise the window closes (`None`) and
        the session is left as it is. It is reached from `ShowNextWord`,
        so no answer is awaited. */
    method ShowLevelCompleteMessage(continuePractice: bool, file: Option<seq<string>>, order: seq<nat>, choice: nat)
      returns (stats: LevelStatistics, outcome: Option<DrawOutcome>)
      requires Valid() && !answerEnabled
      modifies this
      ensures Valid()
      ensures stats == EntryOf(characterData.levelStats, characterData.currentDifficulty)
      ensures !continuePractice ==> outcome == None && unchanged(this)
      ensures continuePractice ==>
        && outcome.Some? && !outcome.value.LevelComplete?
        && loaded == (if file.Some? then WordList(file.value) else [])
        && totalWords == |loaded|
        && (outcome.value.NoVocabulary? <==> loaded == [])
        && correctAnswers == 0 && currentStreak == 0
      ensures continuePractice && outcome.value.Shown? ==>
        && currentWord.Some? && currentWord.value in loaded
        && drawn == [currentWord.value] && |vocabularyWords| == |loaded| - 1
        && outcome.value.prompt == Prompt(currentWord.value, IntValue(config.values, LanguageDirection.Key(), LanguageDirection.Fallback()))
        && answerEnabled
    {
      stats := EntryOf(characterData.levelStats, characterData.currentDifficulty);
      if !continuePractice {
        return stats, None;
      }
      var next := PracticeAgain(file, order, choice);
      outcome := Some(next);
    }

    /** The "yes" answer of `ShowLevelCompleteMessage`: the words are loaded
        again, the session counters reset, and the next word drawn. */
    method PracticeAgain(file: Option<seq<string>>, order: seq<nat>, choice: nat) returns (outcome: DrawOutcome)
      requires Valid() && !answerEnabled
      modifies this
      ensures Valid()
      ensures !outcome.LevelComplete?
      ensures loaded == (if file.Some? then WordList(file.value) else []) && totalWords == |loaded|
      ensures outcome.NoVocabulary? <==> loaded == []
      ensures correctAnswers == 0 && currentStreak == 0
      ensures outcome.Shown? ==>
        && currentWord.Some? && currentWord.value in loaded
        && drawn == [currentWord.value] && |vocabularyWords| == |loaded| - 1
        && outcome.prompt == Prompt(currentWord.value, IntValue(config.values, LanguageDirection.Key(), LanguageDirection.Fallback()))
        && answerEnabled
    {
      LoadVocabulary(file, order);
      correctAnswers, currentStreak := 0, 0;
      outcome := ShowNextWord(choice);
    }
  }
}
