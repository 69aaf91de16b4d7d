/** Joining words with a separator and splitting them apart again. */
module Strings {

  /** `sep.join(words)`: the words in order, one separator between each two. */
  function Join<T>(words: seq<seq<T>>, sep: seq<T>): (joined: seq<T>)
  {
    if |words| == 0 then []
    else if |words| == 1 then words[0]
    else words[0] + sep + Join(words[1..], sep)
  }

  /** `s.split(sep)` for a one-element separator: the maximal runs between separators. */
  function Split<T(==)>(s: seq<T>, sep: T): (parts: seq<seq<T>>)
    ensures |parts| > 0
    ensures forall p <- parts :: sep !in p
  {
    if |s| == 0 then [[]]
    else
      var rest := Split(s[1..], sep);
      if s[0] == sep then [[]] + rest
      else [[s[0]] + rest[0]] + rest[1..]
  }

  /** A word without the separator is not split. */
  lemma {:induction false} SplitWord<T>(w: seq<T>, sep: T)
    requires sep !in w
    ensures Split(w, sep) == [w]
  {
    if |w| > 0 {
      SplitWord(w[1..], sep);
      assert [w[0]] + w[1..] == w;
    }
  }

  /** Splitting stops at the first separator after a separator-free word. */
  lemma {:induction false} SplitAfterWord<T>(w: seq<T>, sep: T, rest: seq<T>)
    requires sep !in w
    ensures Split(w + [sep] + rest, sep) == [w] + Split(rest, sep)
  {
    var s := w + [sep] + rest;
    if |w| == 0 {
      assert s[1..] == rest;
    } else {
      assert s[1..] == w[1..] + [sep] + rest;
      SplitAfterWord(w[1..], sep, rest);
      assert [w[0]] + w[1..] == w;
    }
  }

  /** Splitting a join on its separator gives back the words, when no word holds the separator. */
  lemma {:induction false} SplitJoin<T>(words: seq<seq<T>>, sep: T)
    requires |words| > 0
    requires forall w <- words :: sep !in w
    ensures Split(Join(words, [sep]), sep) == words
  {
    if |words| == 1 {
      SplitWord(words[0], sep);
    } else {
      assert words[0] in words;
      assert forall w <- words[1..] :: w in words;
      SplitAfterWord(words[0], sep, Join(words[1..], [sep]));
      SplitJoin(words[1..], sep);
      assert [words[0]] + words[1..] == words;
    }
  }

  /** A join starts with its first word. */
  lemma {:induction false} JoinStartsWith<T>(words: seq<seq<T>>, sep: seq<T>)
    requires |words| > 0
    ensures |words[0]| <= |Join(words, sep)| && Join(words, sep)[..|words[0]|] == words[0]
  {
  }

  /** A join ends with its last word. */
  lemma {:induction false} JoinEndsWith<T>(words: seq<seq<T>>, sep: seq<T>)
    requires |words| > 0
    ensures var j, last := Join(words, sep), words[|words| - 1];
      |last| <= |j| && j[|j| - |last|..] == last
  {
    if |words| > 1 {
      var tail := Join(words[1..], sep);
      JoinEndsWith(words[1..], sep);
      assert words[1..][|words[1..]| - 1] == words[|words| - 1];
      var last := words[|words| - 1];
      var j := words[0] + sep + tail;
      assert j[|j| - |last|..] == tail[|tail| - |last|..];
    }
  }
}
