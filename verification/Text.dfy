/** Splitting and joining strings at a separator, as JavaScript's `split` and `join` do
    for a one-character separator. */
module Text {

  lemma Assoc<T>(a: seq<T>, b: seq<T>, c: seq<T>)
    ensures a + (b + c) == (a + b) + c
  {}

  function Split(s: string, sep: char): (parts: seq<string>)
    ensures |parts| >= 1
    ensures forall p <- parts :: sep !in p
  {
    if s == "" then [""]
    else
      var rest := Split(s[1..], sep);
      if s[0] == sep then [""] + rest else [[s[0]] + rest[0]] + rest[1..]
  }

  function Join(parts: seq<string>, sep: char): string {
    if parts == [] then ""
    else if |parts| == 1 then parts[0]
    else parts[0] + [sep] + Join(parts[1..], sep)
  }

  /** A word without separators in front of a separator splits off whole. */
  lemma {:induction false} SplitWord(word: string, rest: string, sep: char)
    requires sep !in word
    ensures Split(word + [sep] + rest, sep) == [word] + Split(rest, sep)
    ensures Split(word, sep) == [word]
  {
    if word == "" {
      assert word + [sep] + rest == [sep] + rest;
    } else {
      assert word + [sep] + rest == [word[0]] + (word[1..] + [sep] + rest);
      SplitWord(word[1..], rest, sep);
      assert [word[0]] + word[1..] == word;
    }
  }

  /** Splitting undoes joining. */
  lemma {:induction false} SplitJoin(parts: seq<string>, sep: char)
    requires parts != []
    requires forall p <- parts :: sep !in p
    ensures Split(Join(parts, sep), sep) == parts
  {
    if |parts| == 1 {
      SplitWord(parts[0], "", sep);
    } else {
      SplitJoin(parts[1..], sep);
      SplitWord(parts[0], Join(parts[1..], sep), sep);
      calc {
        Split(Join(parts, sep), sep);
        [parts[0]] + Split(Join(parts[1..], sep), sep);
        [parts[0]] + parts[1..];
        parts;
      }
    }
  }
}
