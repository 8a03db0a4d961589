/**
  `LevelStatistics`: the per-difficulty counters a character keeps, and the
  update `SaveProgress` in MainGameWindow.xaml.cs applies after every
  checked answer. Timestamps (`DateTime.Now`) are given as numbers.
 */
module Statistics {

  /** The counters of one difficulty level. `lastPlayed` stands for the
      `DateTime` of the last answer; 0 stands for `default(DateTime)`. */
  datatype LevelStatistics = LevelStatistics(
    correctAnswers: nat,
    wrongAnswers: nat,
    bestStreak: nat,
    currentStreak: nat,
    totalWords: nat,
    lastPlayed: int)

  /** `new LevelStatistics()`. */
  function NewLevelStatistics(): LevelStatistics {
    LevelStatistics(0, 0, 0, 0, 0, 0)
  }

  /** The update of `SaveProgress` for one answer given at time `now`. */
  function Record(s: LevelStatistics, isCorrect: bool, now: int): LevelStatistics {
    if isCorrect then
      s.(correctAnswers := s.correctAnswers + 1,
         bestStreak := if s.currentStreak + 1 > s.bestStreak then s.currentStreak + 1 else s.bestStreak,
         currentStreak := s.currentStreak + 1,
         totalWords := s.totalWords + 1,
         lastPlayed := now)
    else
      s.(wrongAnswers := s.wrongAnswers + 1,
         currentStreak := 0,
         totalWords := s.totalWords + 1,
         lastPlayed := now)
  }

  /** What every statistics entry written by the game satisfies: every answer
      is either right or wrong, and the current streak is part of the best
      one, which consists of right answers. */
  predicate Consistent(s: LevelStatistics) {
    s.totalWords == s.correctAnswers + s.wrongAnswers
    && s.currentStreak <= s.bestStreak <= s.correctAnswers
  }

  /** A fresh entry is consistent, and every update keeps an entry consistent. */
  lemma RecordKeepsConsistent(s: LevelStatistics, isCorrect: bool, now: int)
    ensures Consistent(NewLevelStatistics())
    ensures Consistent(s) ==> Consistent(Record(s, isCorrect, now))
  {
  }

  /** The entry of `difficulty`, or a fresh one when there is none yet. */
  function EntryOf(stats: map<string, LevelStatistics>, difficulty: string): (s: LevelStatistics)
    ensures difficulty !in stats ==> s == NewLevelStatistics()
  {
    if difficulty in stats then stats[difficulty] else NewLevelStatistics()
  }

  /** One answer counted in the game: whether it was right, and when. */
  datatype Answer = Answer(correct: bool, time: int)

  /** The entry after the answers `answers`, starting from a fresh one. */
  function Replay(answers: seq<Answer>): LevelStatistics {
    if answers == [] then NewLevelStatistics()
    else
      var last := answers[|answers| - 1];
      Record(Replay(answers[..|answers| - 1]), last.correct, last.time)
  }

  /** The number of answers with outcome `b`. */
  function Count(answers: seq<Answer>, b: bool): nat {
    if answers == [] then 0
    else Count(answers[..|answers| - 1], b) + if answers[|answers| - 1].correct == b then 1 else 0
  }

  /** The number of right answers at the end of `answers`. */
  function TrailingRun(answers: seq<Answer>): nat {
    if answers == [] || !answers[|answers| - 1].correct then 0
    else TrailingRun(answers[..|answers| - 1]) + 1
  }

  /** The run at the end consists of right answers, so it is never longer
      than their number. */
  lemma {:induction false} TrailingRunWithinCount(answers: seq<Answer>)
    ensures TrailingRun(answers) <= Count(answers, true)
  {
    if answers != [] {
      TrailingRunWithinCount(answers[..|answers| - 1]);
    }
  }

  /** All answers in `block` are right. */
  predicate AllCorrect(block: seq<Answer>) {
    forall i :: 0 <= i < |block| ==> block[i].correct
  }

  /** The length of the longest block of consecutive right answers: the
      largest `TrailingRun` of any prefix. */
  function LongestRun(answers: seq<Answer>): nat {
    if answers == [] then 0
    else
      var before := LongestRun(answers[..|answers| - 1]);
      if TrailingRun(answers) > before then TrailingRun(answers) else before
  }

  /** The run at the end is a block of right answers that cannot be extended
      to the left. */
  lemma {:induction false} TrailingRunSpec(answers: seq<Answer>)
    ensures TrailingRun(answers) <= |answers|
    ensures AllCorrect(answers[|answers| - TrailingRun(answers)..])
    ensures TrailingRun(answers) < |answers| ==> !answers[|answers| - TrailingRun(answers) - 1].correct
  {
    if answers != [] && answers[|answers| - 1].correct {
      var init := answers[..|answers| - 1];
      TrailingRunSpec(init);
      var t := TrailingRun(init);
      assert answers[|answers| - t - 1..] == init[|init| - t..] + [answers[|answers| - 1]];
    }
  }

  /** The answers from `i` on, `len` of them, are all right. */
  predicate RunAt(answers: seq<Answer>, i: nat, len: nat) {
    i + len <= |answers| && AllCorrect(answers[i..i + len])
  }

  /** A block of right answers ending at `j` is no longer than the run
      ending there. */
  lemma {:induction false} BlockWithinTrailingRun(answers: seq<Answer>, i: nat, j: nat)
    requires i <= j <= |answers| && AllCorrect(answers[i..j])
    ensures j - i <= TrailingRun(answers[..j])
    decreases j
  {
    if i < j {
      var prefix := answers[..j];
      assert prefix[j - 1] == answers[i..j][j - 1 - i];
      assert prefix[..j - 1] == answers[..j - 1];
      assert answers[i..j - 1] == answers[i..j][..j - 1 - i];
      BlockWithinTrailingRun(answers, i, j - 1);
    }
  }

  /** No block of consecutive right answers is longer than `LongestRun`. */
  lemma {:induction false} LongestRunBound(answers: seq<Answer>, i: nat, j: nat)
    requires i <= j <= |answers| && AllCorrect(answers[i..j])
    ensures j - i <= LongestRun(answers)
    decreases |answers|
  {
    var n := |answers|;
    if j == n {
      BlockWithinTrailingRun(answers, i, j);
      assert answers[..j] == answers;
    } else {
      var init := answers[..n - 1];
      assert answers[i..j] == init[i..j];
      LongestRunBound(init, i, j);
    }
  }

  /** Some block of consecutive right answers is `LongestRun` long. */
  lemma {:induction false} LongestRunReached(answers: seq<Answer>) returns (i: nat)
    ensures RunAt(answers, i, LongestRun(answers))
  {
    if answers == [] {
      i := 0;
    } else {
      var n := |answers|;
      var init := answers[..n - 1];
      var t := TrailingRun(answers);
      TrailingRunSpec(answers);
      if t > LongestRun(init) {
        i := n - t;
      } else {
        i := LongestRunReached(init);
        assert answers[i..i + LongestRun(answers)] == init[i..i + LongestRun(init)];
      }
    }
  }

  /** `LongestRun` is what its name says: no block of consecutive right
      answers is longer, and one block is that long. */
  lemma LongestRunSpec(answers: seq<Answer>)
    ensures forall i, j :: 0 <= i <= j <= |answers| && AllCorrect(answers[i..j]) ==> j - i <= LongestRun(answers)
    ensures exists i: nat :: RunAt(answers, i, LongestRun(answers))
  {
    forall i, j | 0 <= i <= j <= |answers| && AllCorrect(answers[i..j])
      ensures j - i <= LongestRun(answers)
    {
      LongestRunBound(answers, i, j);
    }
    var i := LongestRunReached(answers);
  }

  /** The counters of an entry built only by the game are determined by the
      answers: right and wrong answers counted, the streak the right answers
      at the end, the best streak the longest block of right answers, and
      the time that of the last answer. */
  lemma {:induction false} ReplaySpec(answers: seq<Answer>)
    ensures var s := Replay(answers);
      && s.correctAnswers == Count(answers, true)
      && s.wrongAnswers == Count(answers, false)
      && s.totalWords == |answers|
      && s.currentStreak == TrailingRun(answers)
      && s.bestStreak == LongestRun(answers)
      && s.lastPlayed == (if answers == [] then 0 else answers[|answers| - 1].time)
  {
    if answers != [] {
      var init := answers[..|answers| - 1];
      ReplaySpec(init);
    }
  }
}
