/**
  The word list of a difficulty level, as `LoadVocabulary` in
  MainGameWindow.xaml.cs reads it: a header line, then one German/English
  pair per line separated by ',' or ';'. Also the two operations on the
  list that depend on chance: the optional shuffle after loading and the
  removal of one word when it is drawn.
 */
module Vocabulary {
  import opened Wrappers
  import opened Text

  /** `VocabularyWord`: one German/English pair. */
  datatype VocabularyWord = VocabularyWord(german: string, english: string)

  /** The fields of a line: split on ',', or on ';' when the comma split
      gives fewer than two pieces. */
  function Fields(line: string): seq<string> {
    var parts := Split(line, ',');
    if |parts| < 2 then Split(line, ';') else parts
  }

  /** The word a data line contributes, if any: blank lines and lines with
      fewer than two fields give none; further fields are ignored. */
  function ParseLine(line: string): Option<VocabularyWord> {
    if IsBlank(line) then None
    else
      var parts := Fields(line);
      if |parts| >= 2 then Some(VocabularyWord(Trim(parts[0]), Trim(parts[1]))) else None
  }

  /** A line gives a word exactly when it is not blank and contains one of
      the two delimiters. A comma anywhere makes ',' the delimiter, even if
      the line also has semicolons; the word is then the trimmed text before
      the first delimiter and the trimmed text between the first and the
      second one (or the end of the line). */
  lemma ParseLineSpec(line: string)
    ensures ParseLine(line).Some? <==> !IsBlank(line) && (',' in line || ';' in line)
    ensures ParseLine(line).Some? ==>
      var d := if ',' in line then ',' else ';';
      var rest := line[IndexOf(line, d) + 1..];
      ParseLine(line).value == VocabularyWord(Trim(Before(line, d)), Trim(Before(rest, d)))
  {
    FieldsSpec(line);
    if ',' in line {
      SplitFirstTwo(line, ',');
    } else if ';' in line {
      SplitFirstTwo(line, ';');
    }
  }

  /** There are two fields or more exactly when the line has a delimiter; a
      comma, if there is one, is the delimiter. */
  lemma FieldsSpec(line: string)
    ensures |Fields(line)| >= 2 <==> ',' in line || ';' in line
    ensures ',' in line ==> Fields(line) == Split(line, ',')
    ensures ',' !in line ==> Fields(line) == Split(line, ';')
  {
    SplitCount(line, ',');
    SplitCount(line, ';');
  }

  /** The values of `f` over `xs` that are present, in order. The recursion
      takes the last element off, the way the loading loop appends. */
  function Collect<A, B>(xs: seq<A>, f: A -> Option<B>): (ys: seq<B>)
    ensures |ys| <= |xs|
  {
    if xs == [] then []
    else
      var y := f(xs[|xs| - 1]);
      Collect(xs[..|xs| - 1], f) + (if y.Some? then [y.value] else [])
  }

  /** The words of the data lines, in line order. */
  function ParseLines(lines: seq<string>): seq<VocabularyWord> {
    Collect(lines, ParseLine)
  }

  /** The words of a whole file: the first line is a header and is skipped. */
  function WordList(lines: seq<string>): seq<VocabularyWord> {
    if lines == [] then [] else ParseLines(lines[1..])
  }

  /** The reading loop of `LoadVocabulary`: every line after the header
      that is not blank and splits into at least two fields adds the pair
      of its first two fields, trimmed. */
  method ReadWordList(lines: seq<string>) returns (words: seq<VocabularyWord>)
    ensures words == WordList(lines)
  {
    words := [];
    if lines == [] {
      return;
    }
    for i := 1 to |lines|
      invariant words == ParseLines(lines[1..i])
    {
      assert lines[1..i + 1][..i - 1] == lines[1..i];
      var line := lines[i];
      if !IsBlank(line) {
        var parts := Split(line, ',');
        if |parts| < 2 {
          parts := Split(line, ';');
        }
        if |parts| >= 2 {
          words := words + [VocabularyWord(Trim(parts[0]), Trim(parts[1]))];
        }
      }
    }
    assert lines[1..|lines|] == lines[1..];
  }

  /** Collecting distributes over concatenation: each element is looked at
      on its own and the results keep the order of the elements. */
  lemma {:induction false} CollectAppend<A, B>(a: seq<A>, b: seq<A>, f: A -> Option<B>)
    ensures Collect(a + b, f) == Collect(a, f) + Collect(b, f)
    decreases |b|
  {
    if b == [] {
      assert a + b == a;
    } else {
      var b' := b[..|b| - 1];
      CollectAppend(a, b', f);
      var ab := a + b;
      assert ab[..|ab| - 1] == a + b';
      assert ab[|ab| - 1] == b[|b| - 1];
    }
  }

  /** An element without a value can be removed without changing the result. */
  lemma CollectSkips<A, B>(a: seq<A>, x: A, b: seq<A>, f: A -> Option<B>)
    requires f(x).None?
    ensures Collect(a + [x] + b, f) == Collect(a + b, f)
  {
    CollectAppend(a + [x], b, f);
    CollectAppend(a, [x], f);
    CollectAppend(a, b, f);
    assert [x][..0] == [];
  }

  /** When every element has a value, there is one result per element, in order. */
  lemma {:induction false} CollectAll<A, B>(xs: seq<A>, f: A -> Option<B>)
    requires forall i :: 0 <= i < |xs| ==> f(xs[i]).Some?
    ensures |Collect(xs, f)| == |xs|
    ensures forall i :: 0 <= i < |xs| ==> Collect(xs, f)[i] == f(xs[i]).value
    decreases |xs|
  {
    if xs != [] {
      CollectAll(xs[..|xs| - 1], f);
    }
  }

  /** Parsing is line by line: a file's words are those of its first part
      followed by those of its second part. */
  lemma ParseLinesAppend(a: seq<string>, b: seq<string>)
    ensures ParseLines(a + b) == ParseLines(a) + ParseLines(b)
  {
    CollectAppend(a, b, ParseLine);
  }

  /** A line that gives no word (blank, or without a delimiter) can be
      removed without changing the result. */
  lemma SkippedLineIrrelevant(a: seq<string>, line: string, b: seq<string>)
    requires ParseLine(line).None?
    ensures ParseLines(a + [line] + b) == ParseLines(a + b)
  {
    CollectSkips(a, line, b, ParseLine);
  }

  /** A file whose data lines all hold a pair gives exactly one word per
      data line, in file order, whatever its header. */
  lemma WordListAllValid(header: string, body: seq<string>)
    requires forall i :: 0 <= i < |body| ==> ParseLine(body[i]).Some?
    ensures |WordList([header] + body)| == |body|
    ensures forall i :: 0 <= i < |body| ==> WordList([header] + body)[i] == ParseLine(body[i]).value
  {
    assert ([header] + body)[1..] == body;
    CollectAll(body, ParseLine);
  }

  /** `List.RemoveAt(k)`. */
  function RemoveAt<T>(xs: seq<T>, k: nat): (r: seq<T>)
    requires k < |xs|
    ensures |r| == |xs| - 1
  {
    xs[..k] + xs[k + 1..]
  }

  /** Removing an element takes exactly one copy of it out of the list. */
  lemma RemoveAtTakesOne<T>(xs: seq<T>, k: nat)
    requires k < |xs|
    ensures multiset(RemoveAt(xs, k)) + multiset{xs[k]} == multiset(xs)
  {
    assert xs == xs[..k] + [xs[k]] + xs[k + 1..];
  }

  /** The position the next random number picks among `n` remaining
      elements: `Random.Next(n)`, with a missing number counting as 0. */
  function Pick(choices: seq<nat>, n: nat): (k: nat)
    requires n > 0
    ensures k < n
    ensures choices != [] && choices[0] < n ==> k == choices[0]
  {
    if choices == [] then 0 else choices[0] % n
  }

  /** A random reordering of `xs`: the random numbers in `choices` pick, one
      after another, which of the remaining elements comes next (a missing
      number counts as 0). This stands for `OrderBy(x => Guid.NewGuid())`. */
  function Shuffle<T>(xs: seq<T>, choices: seq<nat>): (r: seq<T>)
    ensures |r| == |xs|
    decreases |xs|
  {
    if xs == [] then []
    else
      var k := Pick(choices, |xs|);
      [xs[k]] + Shuffle(RemoveAt(xs, k), if choices == [] then [] else choices[1..])
  }

  /** Whatever the choices, shuffling only reorders: no word is lost or duplicated. */
  lemma {:induction false} ShufflePermutes<T>(xs: seq<T>, choices: seq<nat>)
    ensures multiset(Shuffle(xs, choices)) == multiset(xs)
    decreases |xs|
  {
    if xs != [] {
      var k := Pick(choices, |xs|);
      var rest := if choices == [] then [] else choices[1..];
      ShufflePermutes(RemoveAt(xs, k), rest);
      RemoveAtTakesOne(xs, k);
    }
  }

  /** A first choice below the length picks that element first. */
  lemma ShuffleFirst<T>(xs: seq<T>, k: nat, c: seq<nat>)
    requires k < |xs|
    ensures Shuffle(xs, [k] + c) == [xs[k]] + Shuffle(RemoveAt(xs, k), c)
  {
    assert ([k] + c)[1..] == c;
  }

  /** Removing equal heads from equal multisets leaves equal multisets. */
  lemma TailPermutation<T>(xs: seq<T>, k: nat, p: seq<T>)
    requires k < |xs| && p != [] && xs[k] == p[0]
    requires multiset(p) == multiset(xs)
    ensures multiset(p[1..]) == multiset(RemoveAt(xs, k))
  {
    RemoveAtTakesOne(xs, k);
    assert p == [p[0]] + p[1..];
    calc {
      multiset(p[1..]);
      multiset(p) - multiset{p[0]};
      multiset(xs) - multiset{xs[k]};
      multiset(RemoveAt(xs, k));
    }
  }

  /** Nothing is lost by modelling chance this way: every permutation of
      `xs` is the result of some choices. */
  lemma {:induction false} ShuffleReachesEveryPermutation<T>(xs: seq<T>, p: seq<T>)
    requires multiset(p) == multiset(xs)
    ensures exists choices :: Shuffle(xs, choices) == p
    decreases |xs|
  {
    assert |p| == |multiset(p)| == |xs|;
    if xs == [] {
      assert Shuffle(xs, []) == p;
    } else {
      assert p[0] in multiset(xs);
      var k :| 0 <= k < |xs| && xs[k] == p[0];
      TailPermutation(xs, k, p);
      ShuffleReachesEveryPermutation(RemoveAt(xs, k), p[1..]);
      var c :| Shuffle(RemoveAt(xs, k), c) == p[1..];
      ShuffleFirstReaches(xs, k, c, p);
    }
  }

  /** Choosing the position of `p`'s first element first, then choices that
      produce the rest of `p`, produces `p`. */
  lemma ShuffleFirstReaches<T>(xs: seq<T>, k: nat, c: seq<nat>, p: seq<T>)
    requires k < |xs| && p != [] && xs[k] == p[0]
    requires Shuffle(RemoveAt(xs, k), c) == p[1..]
    ensures Shuffle(xs, [k] + c) == p
  {
    ShuffleFirst(xs, k, c);
    assert p == [p[0]] + p[1..];
  }
}
