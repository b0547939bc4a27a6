/** Lists of words whose order should not matter, and the dispatch of grant handlers by the words
    of a response type. */
module UnorderedLists {
  import Text

  type Word = string

  predicate Distinct(a: seq<Word>) { forall i, j | 0 <= i < j < |a| :: a[i] != a[j] }

  /** As long as the other, and every word occurs in the other. */
  predicate Equal(a: seq<Word>, b: seq<Word>) { |a| == |b| && forall k | 0 <= k < |a| :: a[k] in b }

  class UnorderedList {
    var items: seq<Word>

    constructor (text: string)
      ensures items == Text.Split(text, ' ')
    {
      items := Text.Split(text, ' ');
    }

    method EqualTo(other: UnorderedList) returns (equal: bool)
      ensures equal <==> Equal(items, other.items)
    {
      if |items| != |other.items| { return false; }
      for i := 0 to |items|
        invariant forall k | 0 <= k < i :: items[k] in other.items
      {
        if items[i] !in other.items { return false; }
      }
      return true;
    }
  }

  // ---- What equalTo decides -----------------------------------------------------------

  lemma Removed(a: seq<Word>, k: nat)
    requires k < |a|
    ensures multiset(a[..k] + a[k + 1..]) == multiset(a) - multiset{a[k]}
  {
    assert a == a[..k] + [a[k]] + a[k + 1..];
  }

  /** Pigeonhole: distinct words that all occur in an equally long list are all of that list. */
  lemma {:induction false} DistinctFill(a: seq<Word>, b: seq<Word>)
    requires Distinct(a) && Equal(a, b)
    ensures multiset(a) == multiset(b)
  {
    if a != [] {
      var k :| 0 <= k < |b| && b[k] == a[0];
      var b' := b[..k] + b[k + 1..];
      forall i | 0 <= i < |a[1..]| ensures a[1..][i] in b' {
        var j :| 0 <= j < |b| && b[j] == a[1..][i];
        assert j != k;
        assert b[j] == b'[if j < k then j else j - 1];
      }
      DistinctFill(a[1..], b');
      Removed(b, k);
      assert a == [a[0]] + a[1..];
    }
  }

  lemma SameWordsAreEqual(a: seq<Word>, b: seq<Word>)
    requires multiset(a) == multiset(b)
    ensures Equal(a, b)
  {
    assert |multiset(a)| == |multiset(b)|;
    forall k | 0 <= k < |a| ensures a[k] in b { assert a[k] in multiset(b); }
  }

  /** Longer than every word of the list. */
  function Fresh(a: seq<Word>): (w: Word)
    ensures forall x <- a :: |x| < |w|
  {
    if a == [] then "+" else
      var w := Fresh(a[1..]);
      if |a[0]| < |w| then w else a[0] + "+"
  }

  /** The list compares as a bag of words with every other list exactly when its own words are
      distinct. */
  lemma EqualToIsPermutation(a: seq<Word>)
    ensures Distinct(a) <==> forall b :: Equal(a, b) <==> multiset(a) == multiset(b)
  {
    if Distinct(a) {
      forall b ensures Equal(a, b) <==> multiset(a) == multiset(b) {
        if Equal(a, b) { DistinctFill(a, b); } else if multiset(a) == multiset(b) { SameWordsAreEqual(a, b); }
      }
    } else {
      var i, j :| 0 <= i < j < |a| && a[i] == a[j];
      var b := a[i := Fresh(a)];
      forall k | 0 <= k < |a| ensures a[k] in b { assert a[k] == b[if k == i then j else k]; }
      assert b[i] in multiset(b) && b[i] !in a;
      assert Equal(a, b) && multiset(a) != multiset(b);
    }
  }

  /** On duplicate-free lists the comparison is set equality, hence symmetric and transitive. */
  lemma EqualToIsSetEquality(a: seq<Word>, b: seq<Word>)
    requires Distinct(a) && Distinct(b)
    ensures Equal(a, b) <==> (set w | w in a) == (set w | w in b)
    ensures Equal(a, b) <==> Equal(b, a)
    ensures forall c | Equal(a, b) && Equal(b, c) :: Equal(a, c)
  {
    var left, right := set w | w in a, set w | w in b;
    if Equal(a, b) {
      DistinctFill(a, b);
      SameWordsAreEqual(b, a);
      assert forall w :: w in a <==> w in multiset(a);
    }
    if left == right { SameSetIsEqual(a, b); }
    if Equal(b, a) { DistinctFill(b, a); SameWordsAreEqual(a, b); }
  }

  lemma SameSetIsEqual(a: seq<Word>, b: seq<Word>)
    requires Distinct(a) && Distinct(b) && (set w | w in a) == (set w | w in b)
    ensures Equal(a, b)
  {
    DistinctSize(a);
    DistinctSize(b);
    var left := set w | w in a;
    assert forall k | 0 <= k < |a| :: a[k] in left;
  }

  lemma {:induction false} DistinctSize(a: seq<Word>)
    requires Distinct(a)
    ensures |set w | w in a| == |a|
  {
    if a != [] {
      DistinctSize(a[1..]);
      assert (set w | w in a) == {a[0]} + (set w | w in a[1..]);
    }
  }

  /** With a repeated word the comparison is neither symmetric nor set equality. */
  lemma RepeatedWordsCompareOneWay()
    ensures Equal(["code", "code"], ["code", "token"]) && !Equal(["code", "token"], ["code", "code"])
  {
    assert ["code", "token"][1] == "token";
    assert |"token"| != |"code"|;
  }

  // ---- Dispatch -------------------------------------------------------------------------

  type Fields = map<string, string>

  /** A registered handler: a wildcard has no type. */
  datatype Layer = Wildcard | Typed(words: seq<Word>)

  /** A handler contributes fields and passes on, or ends the dispatch. */
  datatype Answer = Merge(fields: Fields) | Stop

  /** The fields gathered and the handlers run, by position. */
  datatype Dispatched = Dispatched(fields: Fields, ran: seq<nat>, stopped: bool)

  predicate Runs(layer: Layer, words: seq<Word>) { layer.Wildcard? || Equal(layer.words, words) }

  /** The state of the pass before layer i. */
  function Pass(stack: seq<Layer>, answers: seq<Answer>, words: seq<Word>, start: Fields, i: nat): Dispatched
    requires i <= |stack| == |answers|
  {
    if i == 0 then Dispatched(start, [], false)
    else
      var d := Pass(stack, answers, words, start, i - 1);
      if d.stopped || !Runs(stack[i - 1], words) then d
      else match answers[i - 1]
        case Merge(fields) => Dispatched(d.fields + fields, d.ran + [i - 1], false)
        case Stop => Dispatched(d.fields, d.ran + [i - 1], true)
  }

  /** Runs the handlers registered for the response type in turn. */
  method Dispatch(stack: seq<Layer>, lists: seq<UnorderedList>, answers: seq<Answer>, responseType: string,
      start: Fields)
    returns (d: Dispatched)
    requires |stack| == |answers| == |lists|
    requires forall i | 0 <= i < |stack| :: stack[i].Typed? ==> lists[i].items == stack[i].words
    ensures d == Pass(stack, answers, Text.Split(responseType, ' '), start, |stack|)
  {
    var words := new UnorderedList(responseType);
    d := Dispatched(start, [], false);
    var idx := 0;
    while idx < |stack|
      invariant idx <= |stack| && d == Pass(stack, answers, words.items, start, idx) && !d.stopped
      invariant words.items == Text.Split(responseType, ' ')
    {
      var runs := stack[idx].Wildcard?;
      if !runs { runs := lists[idx].EqualTo(words); }
      if runs {
        match answers[idx]
        case Merge(fields) => d := Dispatched(d.fields + fields, d.ran + [idx], false);
        case Stop =>
          d := Dispatched(d.fields, d.ran + [idx], true);
          StoppedStays(stack, answers, words.items, start, idx + 1, |stack|);
          return;
      }
      idx := idx + 1;
    }
  }

  lemma {:induction false} StoppedStays(stack: seq<Layer>, answers: seq<Answer>, words: seq<Word>, start: Fields,
      i: nat, n: nat)
    requires i <= n <= |stack| == |answers| && Pass(stack, answers, words, start, i).stopped
    ensures Pass(stack, answers, words, start, n) == Pass(stack, answers, words, start, i)
  {
    if i < n { StoppedStays(stack, answers, words, start, i, n - 1); }
  }

  /** Which handlers run, and what they contribute, does not depend on the order of the words. */
  lemma {:induction false} WordOrderIsIrrelevant(stack: seq<Layer>, answers: seq<Answer>, a: seq<Word>, b: seq<Word>,
      start: Fields, i: nat)
    requires i <= |stack| == |answers| && multiset(a) == multiset(b)
    ensures Pass(stack, answers, a, start, i) == Pass(stack, answers, b, start, i)
  {
    if i > 0 {
      WordOrderIsIrrelevant(stack, answers, a, b, start, i - 1);
      assert |multiset(a)| == |multiset(b)|;
      assert forall w :: w in a <==> w in multiset(a);
      assert forall w :: w in b <==> w in multiset(b);
    }
  }

  /** A typed handler with distinct words runs only for a permutation of them, and unless an
      earlier handler stopped the pass it does run. */
  lemma {:induction false} HandlersRunForTheirType(stack: seq<Layer>, answers: seq<Answer>, words: seq<Word>,
      start: Fields, n: nat, i: nat)
    requires i < n <= |stack| == |answers|
    requires stack[i].Typed? && Distinct(stack[i].words)
    ensures var d := Pass(stack, answers, words, start, n);
            i in d.ran
            <==> multiset(stack[i].words) == multiset(words) && !Pass(stack, answers, words, start, i).stopped
  {
    if i == n - 1 {
      RanIsBelow(stack, answers, words, start, i);
      if Equal(stack[i].words, words) { DistinctFill(stack[i].words, words); }
      else if multiset(stack[i].words) == multiset(words) { SameWordsAreEqual(stack[i].words, words); }
    } else {
      HandlersRunForTheirType(stack, answers, words, start, n - 1, i);
    }
  }

  lemma {:induction false} RanIsBelow(stack: seq<Layer>, answers: seq<Answer>, words: seq<Word>, start: Fields, n: nat)
    requires n <= |stack| == |answers|
    ensures forall k <- Pass(stack, answers, words, start, n).ran :: k < n
  {
    if n > 0 { RanIsBelow(stack, answers, words, start, n - 1); }
  }

  /** A wildcard handler runs unless an earlier one stopped the pass. */
  lemma {:induction false} WildcardsRun(stack: seq<Layer>, answers: seq<Answer>, words: seq<Word>, start: Fields,
      n: nat, i: nat)
    requires i < n <= |stack| == |answers| && stack[i].Wildcard?
    ensures i in Pass(stack, answers, words, start, n).ran <==> !Pass(stack, answers, words, start, i).stopped
  {
    if i == n - 1 { RanIsBelow(stack, answers, words, start, i); }
    else { WildcardsRun(stack, answers, words, start, n - 1, i); }
  }

  /** A handler that was run contributes this field. */
  predicate Gives(ran: seq<nat>, answers: seq<Answer>, i: nat, key: string) {
    i in ran && i < |answers| && answers[i].Merge? && key in answers[i].fields
  }

  /** The last handler that was run and contributes this field. */
  predicate GivesLast(ran: seq<nat>, answers: seq<Answer>, i: nat, key: string) {
    Gives(ran, answers, i, key) && forall j: nat | i < j < |answers| :: !Gives(ran, answers, j, key)
  }

  predicate GivenByNone(ran: seq<nat>, answers: seq<Answer>, key: string) {
    forall j: nat | j < |answers| :: !Gives(ran, answers, j, key)
  }

  /** A field has the value of the last handler run that contributes it, else the one it started with. */
  predicate HasLastGiven(d: Dispatched, answers: seq<Answer>, start: Fields, key: string) {
    && (forall i: nat | i < |answers| && GivesLast(d.ran, answers, i, key) ::
          key in d.fields && d.fields[key] == answers[i].fields[key])
    && (GivenByNone(d.ran, answers, key) ==>
          (key in d.fields <==> key in start) && (key in start ==> d.fields[key] == start[key]))
    && (GivenByNone(d.ran, answers, key) || exists i: nat | i < |answers| :: GivesLast(d.ran, answers, i, key))
  }

  /** Another handler is run after these. */
  lemma RanOneMore(ran: seq<nat>, answers: seq<Answer>, key: string, n: nat)
    requires n < |answers| && forall i <- ran :: i < n
    ensures var gives := answers[n].Merge? && key in answers[n].fields;
            && (gives ==> forall i: nat :: GivesLast(ran + [n], answers, i, key) <==> i == n)
            && (gives ==> !GivenByNone(ran + [n], answers, key))
            && (!gives ==> forall i: nat :: GivesLast(ran + [n], answers, i, key) <==> GivesLast(ran, answers, i, key))
            && (!gives ==> (GivenByNone(ran + [n], answers, key) <==> GivenByNone(ran, answers, key)))
  {
    var more := ran + [n];
    assert n in more && forall i <- ran :: i in more;
    assert Gives(more, answers, n, key) <==> answers[n].Merge? && key in answers[n].fields;
    forall i: nat | i != n ensures Gives(more, answers, i, key) <==> Gives(ran, answers, i, key) {}
    forall i: nat | i >= n ensures !Gives(ran, answers, i, key) {}
  }

  /** The last handler run gives the field. */
  lemma GivenNow(c: Dispatched, d: Dispatched, answers: seq<Answer>, start: Fields, key: string, n: nat)
    requires n < |answers| && (forall i <- c.ran :: i < n) && d.ran == c.ran + [n]
    requires answers[n].Merge? && key in answers[n].fields && d.fields == c.fields + answers[n].fields
    ensures HasLastGiven(d, answers, start, key)
  {
    RanOneMore(c.ran, answers, key, n);
    assert GivesLast(d.ran, answers, n, key);
  }

  /** The last handler run does not give the field. */
  lemma GivenBefore(c: Dispatched, d: Dispatched, answers: seq<Answer>, start: Fields, key: string, n: nat)
    requires HasLastGiven(c, answers, start, key)
    requires n < |answers| && (forall i <- c.ran :: i < n) && d.ran == c.ran + [n]
    requires !(answers[n].Merge? && key in answers[n].fields)
    requires (key in d.fields <==> key in c.fields) && (key in c.fields ==> d.fields[key] == c.fields[key])
    ensures HasLastGiven(d, answers, start, key)
  {
    RanOneMore(c.ran, answers, key, n);
    if !GivenByNone(c.ran, answers, key) {
      var i: nat :| i < |answers| && GivesLast(c.ran, answers, i, key);
      assert GivesLast(d.ran, answers, i, key);
    }
  }

  lemma {:induction false} LastAnswerWins(stack: seq<Layer>, answers: seq<Answer>, words: seq<Word>, start: Fields,
      n: nat, key: string)
    requires n <= |stack| == |answers|
    ensures HasLastGiven(Pass(stack, answers, words, start, n), answers, start, key)
  {
    if n == 0 {
      assert GivenByNone([], answers, key);
    } else {
      LastAnswerWins(stack, answers, words, start, n - 1, key);
      RanIsBelow(stack, answers, words, start, n - 1);
      var c, d := Pass(stack, answers, words, start, n - 1), Pass(stack, answers, words, start, n);
      if c.stopped || !Runs(stack[n - 1], words) { assert d == c; }
      else if answers[n - 1].Merge? && key in answers[n - 1].fields { GivenNow(c, d, answers, start, key, n - 1); }
      else { GivenBefore(c, d, answers, start, key, n - 1); }
    }
  }

  /** The pass is stopped exactly when a handler that was run stops it, which is then the last. */
  lemma {:induction false} StoppedByHandler(stack: seq<Layer>, answers: seq<Answer>, words: seq<Word>, start: Fields,
      n: nat)
    requires n <= |stack| == |answers|
    ensures var d := Pass(stack, answers, words, start, n);
            && (forall i <- d.ran :: i < n)
            && (d.stopped <==> exists i <- d.ran :: answers[i].Stop?)
            && (d.stopped ==> d.ran != [] && d.ran[|d.ran| - 1] < n && answers[d.ran[|d.ran| - 1]].Stop?)
  {
    if n > 0 {
      StoppedByHandler(stack, answers, words, start, n - 1);
      var c, d := Pass(stack, answers, words, start, n - 1), Pass(stack, answers, words, start, n);
      if c.ran != d.ran { assert d.ran == c.ran + [n - 1] && n - 1 in d.ran && forall i <- c.ran :: i in d.ran; }
    }
  }
}
