/** Path parameters: running the compiled expression over a request path and reading the values
    back under the names of the template. */
module PathMatching {
  import opened Options
  import opened PathTemplate
  import Text

  // ---- The expressions that templates compile to --------------------------------------

  /** A literal character, or a capturing group: `([^/]+)` or, with `rest`, `(.+)`. */
  datatype Atom = Lit(c: char) | Capture(rest: bool)

  predicate Metacharacter(c: char) {
    || c == '\\' || c == '^' || c == '$' || c == '.' || c == '|' || c == '?' || c == '*' || c == '+'
    || c == '(' || c == ')' || c == '[' || c == ']' || c == '{' || c == '}'
  }

  predicate LineTerminator(c: char) { c == '\n' || c == '\r' || c == '\U{2028}' || c == '\U{2029}' }

  predicate Literal(s: string) { forall k | 0 <= k < |s| :: !Metacharacter(s[k]) }

  /** The atoms of an expression without other metacharacters. */
  function ParseAtoms(s: string): seq<Atom> {
    if s == "" then []
    else if SEGMENT <= s then [Capture(false)] + ParseAtoms(s[|SEGMENT|..])
    else if REST <= s then [Capture(true)] + ParseAtoms(s[|REST|..])
    else [Lit(s[0])] + ParseAtoms(s[1..])
  }

  function Lits(text: string): seq<Atom> {
    if text == "" then [] else [Lit(text[0])] + Lits(text[1..])
  }

  predicate LiteralTemplate(t: Template) {
    Literal(t.text) && (t.Variable? ==> LiteralTemplate(t.rest))
  }

  function Atoms(t: Template, plus: bool): seq<Atom> {
    match t
    case End(text) => Lits(text)
    case Variable(text, _, rest) => Lits(text) + ([Capture(plus && rest.End?)] + Atoms(rest, plus))
  }

  lemma {:induction false} LitsParse(text: string, s: string)
    requires Literal(text)
    ensures ParseAtoms(text + s) == Lits(text) + ParseAtoms(s)
  {
    if text == "" {
      assert text + s == s;
    } else {
      assert (text + s)[0] == text[0] != '(';
      assert (text + s)[1..] == text[1..] + s;
      assert SEGMENT[0] == '(' && REST[0] == '(';
      LitsParse(text[1..], s);
    }
  }

  lemma GroupParses(rest: Template, plus: bool, s: string)
    ensures ParseAtoms(Group(rest, plus) + s) == [Capture(plus && rest.End?)] + ParseAtoms(s)
  {
    if plus && rest.End? {
      assert (REST + s)[1] == '.' && SEGMENT[1] == '[';
      assert (REST + s)[|REST|..] == s;
    } else {
      assert (SEGMENT + s)[|SEGMENT|..] == s;
    }
  }

  lemma VariableParses(text: string, group: string, s: string)
    requires Literal(text)
    ensures ParseAtoms(text + group + s) == Lits(text) + ParseAtoms(group + s)
  {
    LitsParse(text, group + s);
    assert text + group + s == text + (group + s);
  }

  /** Parsing the compiled text gives the template's atoms. */
  lemma {:induction false} TranslationParses(t: Template, plus: bool)
    requires LiteralTemplate(t)
    ensures ParseAtoms(Translate(t, plus)) == Atoms(t, plus)
  {
    match t
    case End(text) =>
      LitsParse(text, "");
      assert text + "" == text;
    case Variable(text, _, rest) =>
      TranslationParses(rest, plus);
      GroupParses(rest, plus, Translate(rest, plus));
      VariableParses(text, Group(rest, plus), Translate(rest, plus));
  }

  // ---- Matching, up to letter case as `fold` maps it --------------------------------------

  predicate Accepts(rest: bool, c: char) { if rest then !LineTerminator(c) else c != '/' }

  /** The number of leading characters that a group may take. */
  function RunLength(rest: bool, s: string): (n: nat)
    ensures n <= |s| && forall k | 0 <= k < n :: Accepts(rest, s[k])
    ensures n < |s| ==> !Accepts(rest, s[n])
  {
    if s == "" || !Accepts(rest, s[0]) then 0 else 1 + RunLength(rest, s[1..])
  }

  /** Backtracking search of `^atoms/?$`; the captures, in order. */
  function Exec(fold: char -> char, atoms: seq<Atom>, s: string): Option<seq<string>>
    decreases |atoms|, 0
  {
    if atoms == [] then if s == "" || s == "/" then Some([]) else None
    else match atoms[0]
      case Lit(c) => if s != "" && fold(s[0]) == fold(c) then Exec(fold, atoms[1..], s[1..]) else None
      case Capture(rest) => Longest(fold, atoms, s, RunLength(rest, s))
  }

  /** A group takes n characters, or fewer when what follows does not match. */
  function Longest(fold: char -> char, atoms: seq<Atom>, s: string, n: nat): Option<seq<string>>
    requires atoms != [] && n <= |s|
    decreases |atoms| - 1, n + 1
  {
    if n == 0 then None
    else match Exec(fold, atoms[1..], s[n..])
      case Some(captures) => Some([s[..n]] + captures)
      case None => Longest(fold, atoms, s, n - 1)
  }

  /** The string is an instance of the atoms with these captures. */
  predicate Spells(fold: char -> char, atoms: seq<Atom>, captures: seq<string>, s: string) {
    if atoms == [] then captures == [] && (s == "" || s == "/")
    else match atoms[0]
      case Lit(c) => s != "" && fold(s[0]) == fold(c) && Spells(fold, atoms[1..], captures, s[1..])
      case Capture(rest) =>
        && captures != [] && captures[0] != "" && captures[0] <= s
        && (forall c <- captures[0] :: Accepts(rest, c))
        && Spells(fold, atoms[1..], captures[1..], s[|captures[0]|..])
  }

  /** What the search returns is an instance. */
  lemma {:induction false} ExecIsSound(fold: char -> char, atoms: seq<Atom>, s: string)
    requires Exec(fold, atoms, s).Some?
    ensures Spells(fold, atoms, Exec(fold, atoms, s).value, s)
    decreases |atoms|, 0
  {
    if atoms != [] {
      match atoms[0]
      case Lit(c) => ExecIsSound(fold, atoms[1..], s[1..]);
      case Capture(rest) => LongestIsSound(fold, atoms, s, RunLength(rest, s));
    }
  }

  lemma {:induction false} LongestIsSound(fold: char -> char, atoms: seq<Atom>, s: string, n: nat)
    requires atoms != [] && atoms[0].Capture? && n <= RunLength(atoms[0].rest, s) && Longest(fold, atoms, s, n).Some?
    ensures Spells(fold, atoms, Longest(fold, atoms, s, n).value, s)
    decreases |atoms| - 1, n + 1
  {
    match Exec(fold, atoms[1..], s[n..])
    case Some(captures) =>
      ExecIsSound(fold, atoms[1..], s[n..]);
      assert ([s[..n]] + captures)[1..] == captures;
    case None => LongestIsSound(fold, atoms, s, n - 1);
  }

  /** The search misses no instance. */
  lemma {:induction false} ExecIsComplete(fold: char -> char, atoms: seq<Atom>, captures: seq<string>, s: string)
    requires Spells(fold, atoms, captures, s)
    ensures Exec(fold, atoms, s).Some?
    decreases |atoms|, 0
  {
    if atoms != [] {
      match atoms[0]
      case Lit(c) => ExecIsComplete(fold, atoms[1..], captures, s[1..]);
      case Capture(rest) =>
        var n := RunLength(rest, s);
        assert |captures[0]| <= n;
        LongestIsComplete(fold, atoms, captures, s, n);
    }
  }

  lemma {:induction false} LongestIsComplete(fold: char -> char, atoms: seq<Atom>, captures: seq<string>, s: string,
      n: nat)
    requires atoms != [] && atoms[0].Capture? && Spells(fold, atoms, captures, s) && |captures[0]| <= n <= |s|
    ensures Longest(fold, atoms, s, n).Some?
    decreases |atoms| - 1, n + 1
  {
    if n == |captures[0]| { ExecIsComplete(fold, atoms[1..], captures[1..], s[n..]); }
    else { LongestIsComplete(fold, atoms, captures, s, n - 1); }
  }

  /** A path matches exactly when it is an instance of the template, up to letter case and one
      trailing slash. */
  lemma MatchesAreInstances(fold: char -> char, atoms: seq<Atom>, s: string)
    ensures Exec(fold, atoms, s).Some? <==> exists captures :: Spells(fold, atoms, captures, s)
  {
    if Exec(fold, atoms, s).Some? {
      ExecIsSound(fold, atoms, s);
      assert Spells(fold, atoms, Exec(fold, atoms, s).value, s);
    } else if exists captures :: Spells(fold, atoms, captures, s) {
      var captures :| Spells(fold, atoms, captures, s);
      ExecIsComplete(fold, atoms, captures, s);
    }
  }

  // ---- Round trip -------------------------------------------------------------------------

  /** The template with values in place of its variables. */
  function Fill(t: Template, values: seq<string>): string
    requires |values| == |Names(t)|
  {
    match t
    case End(text) => text
    case Variable(text, _, rest) => text + (values[0] + Fill(rest, values[1..]))
  }

  /** Every variable is followed by a slash or by the end of the template. */
  predicate Delimited(t: Template) {
    t.Variable? ==> Delimited(t.rest) && (if t.rest.text == "" then t.rest.End? else t.rest.text[0] == '/')
  }

  /** No value is empty and each stays within its segment, except the rest of a path. */
  predicate Fits(t: Template, plus: bool, values: seq<string>)
    requires |values| == |Names(t)|
  {
    t.Variable? ==>
      && values[0] != "" && (forall c <- values[0] :: Accepts(plus && t.rest.End?, c))
      && Fits(t.rest, plus, values[1..])
  }

  lemma LitMatches(fold: char -> char, c: char, atoms: seq<Atom>, s: string)
    ensures Exec(fold, [Lit(c)] + atoms, [c] + s) == Exec(fold, atoms, s)
  {
    assert ([Lit(c)] + atoms)[1..] == atoms && ([c] + s)[1..] == s;
  }

  lemma {:induction false} LitsMatch(fold: char -> char, text: string, atoms: seq<Atom>, s: string)
    ensures Exec(fold, Lits(text) + atoms, text + s) == Exec(fold, atoms, s)
  {
    if text == "" {
      assert Lits(text) + atoms == atoms && text + s == s;
    } else {
      LitMatches(fold, text[0], Lits(text[1..]) + atoms, text[1..] + s);
      Text.Assoc([Lit(text[0])], Lits(text[1..]), atoms);
      Text.Assoc([text[0]], text[1..], s);
      assert [text[0]] + text[1..] == text;
      LitsMatch(fold, text[1..], atoms, s);
    }
  }

  lemma GroupTakesAll(fold: char -> char, rest: bool, atoms: seq<Atom>, value: string, s: string)
    requires value != "" && (forall c <- value :: Accepts(rest, c)) && (s != "" ==> !Accepts(rest, s[0]))
    requires Exec(fold, atoms, s).Some?
    ensures Exec(fold, [Capture(rest)] + atoms, value + s) == Some([value] + Exec(fold, atoms, s).value)
  {
    var n := RunLength(rest, value + s);
    assert s != "" ==> (value + s)[|value|] == s[0];
    assert forall k | 0 <= k < |value| :: (value + s)[k] == value[k];
    assert n == |value|;
    assert ([Capture(rest)] + atoms)[1..] == atoms;
    assert (value + s)[n..] == s && (value + s)[..n] == value;
  }

  /** Matching the filled template captures exactly the values. */
  lemma {:induction false} FillRoundTrip(fold: char -> char, t: Template, plus: bool, values: seq<string>)
    requires |values| == |Names(t)| && Delimited(t) && Fits(t, plus, values) && (plus ==> EndsInPlus(t))
    ensures Exec(fold, Atoms(t, plus), Fill(t, values)) == Some(values)
  {
    match t
    case End(text) =>
      LitsMatch(fold, text, [], "");
      assert Lits(text) + [] == Lits(text) && text + "" == text;
    case Variable(text, _, rest) =>
      var atoms, tail := [Capture(plus && rest.End?)] + Atoms(rest, plus), Fill(rest, values[1..]);
      FillRoundTrip(fold, rest, plus && rest.Variable?, values[1..]);
      LitsMatch(fold, text, atoms, values[0] + tail);
      GroupTakesAll(fold, plus && rest.End?, Atoms(rest, plus), values[0], tail);
      assert [values[0]] + values[1..] == values;
  }

  // ---- The compiled pattern ---------------------------------------------------------------

  function PathAtoms(basePath: string, t: Template): seq<Atom> {
    Lits(Trimmed(basePath)) + (if Print(t) == "/" then [] else Atoms(t, EndsInPlus(t)))
  }

  /** `new RegExp(pattern, 'i').exec(path)` for a pattern of the form `^...` followed by `/?$`. */
  function Match(fold: char -> char, pattern: string, path: string): Option<seq<string>>
    requires |pattern| >= 4
  {
    Exec(fold, ParseAtoms(pattern[1..|pattern| - 3]), path)
  }

  function Body(basePath: string, t: Template): string {
    Trimmed(basePath) + (if Print(t) == "/" then "" else Translate(t, EndsInPlus(t)))
  }

  lemma PatternBody(basePath: string, t: Template)
    ensures var p := Pattern(basePath, t); |p| >= 4 && p[1..|p| - 3] == Body(basePath, t)
  {}

  lemma BodyParses(basePath: string, t: Template)
    requires Literal(Trimmed(basePath)) && LiteralTemplate(t)
    ensures ParseAtoms(Body(basePath, t)) == PathAtoms(basePath, t)
  {
    LitsParse(Trimmed(basePath), if Print(t) == "/" then "" else Translate(t, EndsInPlus(t)));
    TranslationParses(t, EndsInPlus(t));
  }

  lemma PatternParses(basePath: string, t: Template)
    requires Literal(Trimmed(basePath)) && LiteralTemplate(t)
    ensures var p := Pattern(basePath, t); |p| >= 4 && ParseAtoms(p[1..|p| - 3]) == PathAtoms(basePath, t)
  {
    PatternBody(basePath, t);
    BodyParses(basePath, t);
  }

  lemma {:induction false} PlainSlash(t: Template)
    requires Proper(t) && Print(t) == "/"
    ensures t == End("/")
  {
    NoVariablesLeft(t);
  }

  /** A request path made by filling the template gives the values back, in order. */
  lemma PathRoundTrip(fold: char -> char, basePath: string, t: Template, values: seq<string>)
    requires Literal(Trimmed(basePath)) && LiteralTemplate(t) && Proper(t) && Delimited(t)
    requires |values| == |Names(t)| && Fits(t, EndsInPlus(t), values)
    ensures |Pattern(basePath, t)| >= 4
    ensures Match(fold, Pattern(basePath, t), Trimmed(basePath) + Fill(t, values)) == Some(values)
  {
    PatternParses(basePath, t);
    if Print(t) == "/" {
      PlainSlash(t);
      LitsMatch(fold, Trimmed(basePath), [], "/");
    } else {
      LitsMatch(fold, Trimmed(basePath), Atoms(t, EndsInPlus(t)), Fill(t, values));
      FillRoundTrip(fold, t, EndsInPlus(t), values);
    }
  }

  /** Letter case told apart. */
  function Same(c: char): char { c }

  lemma {:induction false} LitsSpell(text: string, atoms: seq<Atom>, captures: seq<string>, s: string)
    ensures Spells(Same, Lits(text) + atoms, captures, s)
       <==> text <= s && Spells(Same, atoms, captures, s[|text|..])
  {
    if text == "" {
      assert Lits(text) + atoms == atoms && s[0..] == s;
    } else {
      var all := Lits(text) + atoms;
      assert all[0] == Lit(text[0]) && all[1..] == Lits(text[1..]) + atoms;
      if s != "" && s[0] == text[0] {
        LitsSpell(text[1..], atoms, captures, s[1..]);
        assert text <= s <==> text[1..] <= s[1..] by { assert s == [s[0]] + s[1..] && text == [text[0]] + text[1..]; }
        if text <= s { assert s[1..][|text| - 1..] == s[|text|..]; }
      }
    }
  }

  /** Filled with these values the template gives this path, up to one trailing slash. */
  predicate FillsTo(t: Template, plus: bool, values: seq<string>, s: string) {
    && |values| == |Names(t)| && Fits(t, plus, values)
    && (s == Fill(t, values) || s == Fill(t, values) + "/")
  }

  lemma {:induction false} TemplateSpells(t: Template, plus: bool, values: seq<string>, s: string)
    ensures Spells(Same, Atoms(t, plus), values, s) <==> FillsTo(t, plus, values, s)
  {
    match t
    case End(text) =>
      assert Lits(text) + [] == Lits(text);
      LitsSpell(text, [], values, s);
      assert text <= s ==> s == text + s[|text|..];
      assert text + "" == text;
    case Variable(text, _, rest) =>
      var atoms := [Capture(plus && rest.End?)] + Atoms(rest, plus);
      LitsSpell(text, atoms, values, s);
      if values != [] && text + values[0] <= s {
        var tail := s[|text + values[0]|..];
        TemplateSpells(rest, plus, values[1..], tail);
        SplitTwice(text, values[0], s);
        assert atoms[1..] == Atoms(rest, plus);
        if |values| == |Names(t)| { SlashLast(text, values[0], Fill(rest, values[1..])); }
      } else if values != [] {
        PrefixOfSum(text, values[0], s);
        if |values| == |Names(t)| { SlashLast(text, values[0], Fill(rest, values[1..])); }
      }
  }

  lemma PrefixOfSum(a: string, b: string, s: string)
    ensures a + b <= s <==> a <= s && b <= s[|a|..]
    ensures forall more :: s == a + (b + more) ==> a + b <= s
  {
    if a <= s && b <= s[|a|..] {
      var more := s[|a|..][|b|..];
      assert s == a + s[|a|..] && s[|a|..] == b + more;
      assert a + (b + more) == a + b + more;
    }
    if a + b <= s { assert s == a + b + s[|a + b|..] == a + (b + s[|a + b|..]); }
    forall more ensures s == a + (b + more) ==> a + b <= s { assert a + (b + more) == a + b + more; }
  }

  lemma SplitTwice(a: string, b: string, s: string)
    requires a + b <= s
    ensures a <= s && b <= s[|a|..] && s[|a|..][|b|..] == s[|a + b|..]
    ensures forall more :: s[|a + b|..] == more <==> s == a + (b + more)
  {
    PrefixOfSum(a, b, s);
    assert s == a + b + s[|a + b|..];
    forall more ensures s[|a + b|..] == more <==> s == a + (b + more) {
      assert a + (b + more) == a + b + more;
      assert (a + b + more)[|a + b|..] == more;
    }
  }

  lemma SlashLast(a: string, b: string, more: string)
    ensures a + (b + more) + "/" == a + (b + (more + "/"))
  {}

  /** The path is the base path followed by the template filled with some values. */
  ghost predicate IsFilled(base: string, t: Template, path: string) {
    base <= path && exists values :: FillsTo(t, EndsInPlus(t), values, path[|base|..])
  }

  /** With letter case told apart, and with or without a slash at the end of the base path: a request path
      matches exactly when it is the base path followed by the filled template, or for the template "/" just
      the base path; in either case with or without one slash at the end. */
  lemma PathsMatchExactly(base: string, slash: bool, t: Template, path: string)
    requires Literal(base) && (base != "" ==> base[|base| - 1] != '/') && LiteralTemplate(t) && Proper(t)
    ensures |Pattern(base + if slash then "/" else "", t)| >= 4
    ensures Match(Same, Pattern(base + if slash then "/" else "", t), path).Some?
       <==> if Print(t) == "/" then path == base || path == base + "/"
            else IsFilled(base, t, path)
  {
    var basePath := base + if slash then "/" else "";
    assert Trimmed(basePath) == base;
    PatternParses(basePath, t);
    if Print(t) == "/" {
      assert Lits(base) + [] == Lits(base);
      BaseMatches(base, path);
    } else {
      FilledMatches(base, t, path);
    }
  }

  lemma BaseMatches(base: string, path: string)
    ensures Exec(Same, Lits(base) + [], path).Some? <==> path == base || path == base + "/"
  {
    var atoms := Lits(base) + [];
    MatchesAreInstances(Same, atoms, path);
    assert base <= path ==> path == base + path[|base|..];
    forall captures ensures Spells(Same, atoms, captures, path)
                       <==> captures == [] && (path == base || path == base + "/")
    {
      LitsSpell(base, [], captures, path);
    }
    assert path == base || path == base + "/" ==> Spells(Same, atoms, [], path);
  }

  lemma FilledMatches(base: string, t: Template, path: string)
    ensures Exec(Same, Lits(base) + Atoms(t, EndsInPlus(t)), path).Some? <==> IsFilled(base, t, path)
  {
    var plus, atoms := EndsInPlus(t), Lits(base) + Atoms(t, EndsInPlus(t));
    MatchesAreInstances(Same, atoms, path);
    if IsFilled(base, t, path) {
      var values :| FillsTo(t, plus, values, path[|base|..]);
      LitsSpell(base, Atoms(t, plus), values, path);
      TemplateSpells(t, plus, values, path[|base|..]);
    } else if Exec(Same, atoms, path).Some? {
      var captures :| Spells(Same, atoms, captures, path);
      LitsSpell(base, Atoms(t, plus), captures, path);
      TemplateSpells(t, plus, captures, path[|base|..]);
    }
  }

  function Captures(atoms: seq<Atom>): nat {
    if atoms == [] then 0 else (if atoms[0].Capture? then 1 else 0) + Captures(atoms[1..])
  }

  lemma {:induction false} CapturesAdd(a: seq<Atom>, b: seq<Atom>)
    ensures Captures(a + b) == Captures(a) + Captures(b)
  {
    if a == [] { assert a + b == b; } else { assert (a + b)[1..] == a[1..] + b; CapturesAdd(a[1..], b); }
  }

  lemma {:induction false} LitsCaptureNothing(text: string)
    ensures Captures(Lits(text)) == 0
  {
    if text != "" { LitsCaptureNothing(text[1..]); }
  }

  lemma {:induction false} OneGroupPerName(t: Template, plus: bool)
    ensures Captures(Atoms(t, plus)) == |Names(t)|
  {
    LitsCaptureNothing(t.text);
    if t.Variable? {
      OneGroupPerName(t.rest, plus);
      CapturesAdd([Capture(plus && t.rest.End?)], Atoms(t.rest, plus));
      CapturesAdd(Lits(t.text), [Capture(plus && t.rest.End?)] + Atoms(t.rest, plus));
    }
  }

  lemma {:induction false} SpellsAll(fold: char -> char, atoms: seq<Atom>, captures: seq<string>, s: string)
    requires Spells(fold, atoms, captures, s)
    ensures |captures| == Captures(atoms)
  {
    if atoms != [] {
      match atoms[0]
      case Lit(_) => SpellsAll(fold, atoms[1..], captures, s[1..]);
      case Capture(_) => SpellsAll(fold, atoms[1..], captures[1..], s[|captures[0]|..]);
    }
  }

  /** Every match captures one value per variable. */
  lemma MatchCapturesAll(fold: char -> char, basePath: string, t: Template, path: string)
    requires Literal(Trimmed(basePath)) && LiteralTemplate(t) && Proper(t)
    ensures |Pattern(basePath, t)| >= 4
    ensures var m := Match(fold, Pattern(basePath, t), path); m.Some? ==> |m.value| == |Names(t)|
  {
    PatternParses(basePath, t);
    var atoms := PathAtoms(basePath, t);
    if Exec(fold, atoms, path).Some? {
      ExecIsSound(fold, atoms, path);
      SpellsAll(fold, atoms, Exec(fold, atoms, path).value, path);
      LitsCaptureNothing(Trimmed(basePath));
      if Print(t) == "/" {
        PlainSlash(t);
        CapturesAdd(Lits(Trimmed(basePath)), []);
      } else {
        OneGroupPerName(t, EndsInPlus(t));
        CapturesAdd(Lits(Trimmed(basePath)), Atoms(t, EndsInPlus(t)));
      }
    }
  }

  // ---- Reading the parameters ---------------------------------------------------------------

  /** A value of string type, a list, or a value of any other type that conversion makes. */
  datatype Value = Undefined | Word(s: string) | Parts(parts: seq<string>) | Other(id: int)

  /** What converting to a parameter's type comes to; some conversions never settle. */
  datatype Conversion = Done(value: Value) | Failed | Stuck

  /** A path parameter with its type, or a parameter that was read and converted elsewhere. */
  datatype Param = InPath(name: string, kind: string) | Elsewhere(name: string, conversion: Conversion)

  /** `Rejected`: a path parameter of a path that does not match, or a failed conversion. `Hung`:
      the promise is never settled, because a conversion never is, or because something other than a
      string was to be split. */
  datatype Outcome = Parsed(result: map<string, Value>) | Rejected | Hung

  /** Where path parameters are read from, and how a string is converted to a type. */
  datatype Source = Source(grouping: map<string, nat>, captures: seq<string>, convert: (string, string) -> Conversion)

  /** A parameter without a captured value converts to no value, whatever its type. */
  function Raw(p: Param, src: Source): Conversion {
    match p
    case InPath(name, kind) =>
      if name in src.grouping && 1 <= src.grouping[name] <= |src.captures|
      then src.convert(kind, src.captures[src.grouping[name] - 1]) else Done(Undefined)
    case Elsewhere(_, conversion) => conversion
  }

  /** Only the last parameter may be a list. */
  predicate IsList(params: seq<Param>, i: nat)
    requires i < |params|
  {
    i == |params| - 1 && params[i].name != "" && params[i].name[0] == '+'
  }

  function Key(params: seq<Param>, i: nat): string
    requires i < |params|
  {
    if IsList(params, i) then params[i].name[1..] else params[i].name
  }

  function ValueOf(params: seq<Param>, value: Value, i: nat): Value
    requires i < |params|
  {
    if IsList(params, i) && value.Word? then Parts(Text.Split(value.s, '/')) else value
  }

  /** No later parameter below n has the same key. */
  predicate StandsBelow(params: seq<Param>, i: nat, n: nat)
    requires i < |params| && n <= |params|
  {
    forall j | i < j < n :: Key(params, j) != Key(params, i)
  }

  predicate Stands(params: seq<Param>, i: nat)
    requires i < |params|
  {
    StandsBelow(params, i, |params|)
  }

  /** The result holds the value of the last parameter with each key, and nothing else. */
  ghost predicate Holds(params: seq<Param>, src: Source, result: map<string, Value>) {
    && (forall i: nat | i < |params| && Stands(params, i) ::
          && Raw(params[i], src).Done?
          && Key(params, i) in result && result[Key(params, i)] == ValueOf(params, Raw(params[i], src).value, i))
    && (forall key <- result :: exists i: nat :: i < |params| && key == Key(params, i))
  }

  /** The last parameter is to be split, but is not a string. */
  predicate CannotSplit(params: seq<Param>, src: Source) {
    params != [] && IsList(params, |params| - 1) && Raw(params[|params| - 1], src).Done?
    && !Raw(params[|params| - 1], src).value.Word?
  }

  /** What becomes of all conversions together. */
  datatype Reading = Values(values: seq<Value>) | Refused | Pending

  /** The converted values, unless a path parameter meets a path that does not match, a conversion
      fails, or otherwise one never settles. */
  method ReadRaw(params: seq<Param>, src: Source, matched: bool) returns (r: Reading)
    ensures r.Refused? <==> (!matched && exists p <- params :: p.InPath?) || exists p <- params :: Raw(p, src).Failed?
    ensures r.Pending? <==> !r.Refused? && exists p <- params :: Raw(p, src).Stuck?
    ensures r.Values?
        ==> |r.values| == |params| && forall j | 0 <= j < |params| :: Raw(params[j], src) == Done(r.values[j])
  {
    var raws: seq<Value>, pending := [], false;
    for i := 0 to |params|
      invariant forall j | 0 <= j < i :: !Raw(params[j], src).Failed?
      invariant pending <==> exists j | 0 <= j < i :: Raw(params[j], src).Stuck?
      invariant !pending ==> |raws| == i && forall j | 0 <= j < i :: Raw(params[j], src) == Done(raws[j])
      invariant matched || forall j | 0 <= j < i :: !params[j].InPath?
    {
      if params[i].InPath? && !matched { return Refused; }
      match Raw(params[i], src)
      case Failed => return Refused;
      case Stuck => pending := true;
      case Done(v) => raws := raws + [v];
    }
    if pending { return Pending; }
    return Values(raws);
  }

  /** The result after the first n parameters. */
  ghost predicate Collected(params: seq<Param>, raws: seq<Value>, result: map<string, Value>, n: nat)
    requires n <= |params| == |raws|
  {
    && (forall i: nat | i < n && StandsBelow(params, i, n) ::
          Key(params, i) in result && result[Key(params, i)] == ValueOf(params, raws[i], i))
    && (forall key <- result :: exists i: nat :: i < n && key == Key(params, i))
  }

  lemma CollectOne(params: seq<Param>, raws: seq<Value>, result: map<string, Value>, n: nat)
    requires n < |params| == |raws| && Collected(params, raws, result, n)
    ensures Collected(params, raws, result[Key(params, n) := ValueOf(params, raws[n], n)], n + 1)
  {
    var next := result[Key(params, n) := ValueOf(params, raws[n], n)];
    forall i: nat | i < n + 1 && StandsBelow(params, i, n + 1)
      ensures Key(params, i) in next && next[Key(params, i)] == ValueOf(params, raws[i], i)
    {
      if i < n {
        assert StandsBelow(params, i, n);
        assert Key(params, n) != Key(params, i);
      }
    }
  }

  method Collect(params: seq<Param>, raws: seq<Value>) returns (o: Outcome)
    requires |raws| == |params|
    ensures !o.Rejected?
    ensures o.Hung? <==> params != [] && IsList(params, |params| - 1) && !raws[|params| - 1].Word?
    ensures o.Parsed? ==> Collected(params, raws, o.result, |params|)
  {
    var result: map<string, Value> := map[];
    for i := 0 to |params|
      invariant Collected(params, raws, result, i)
      invariant i == |params| > 0 && IsList(params, i - 1) ==> raws[i - 1].Word?
    {
      if IsList(params, i) && !raws[i].Word? { return Hung; }
      CollectOne(params, raws, result, i);
      result := result[Key(params, i) := ValueOf(params, raws[i], i)];
    }
    return Parsed(result);
  }

  method ParseParameters(fold: char -> char, convert: (string, string) -> Conversion, basePath: string, reqPath: string,
                         pathname: string, params: seq<Param>)
    returns (o: Outcome)
    requires Matched(reqPath, false) && Literal(Trimmed(basePath)) && LiteralTemplate(TemplateOf(reqPath))
    ensures |Pattern(basePath, TemplateOf(reqPath))| >= 4
    ensures var t := TemplateOf(reqPath);
            var m := Match(fold, Pattern(basePath, t), pathname);
            var src := Source(Grouping(Names(t)), if m.Some? then m.value else [], convert);
            && (o.Rejected?
                <==> (m.None? && exists p <- params :: p.InPath?) || exists p <- params :: Raw(p, src).Failed?)
            && (o.Hung? <==> !o.Rejected? && (CannotSplit(params, src) || exists p <- params :: Raw(p, src).Stuck?))
            && (o.Parsed? ==> Holds(params, src, o.result))
  {
    PatternParses(basePath, TemplateOf(reqPath));
    var pattern, grouping := MakePathRegex(basePath, reqPath);
    var m := Match(fold, pattern, pathname);
    var src := Source(grouping, if m.Some? then m.value else [], convert);
    var r := ReadRaw(params, src, m.Some?);
    match r
    case Refused => o := Rejected;
    case Pending => o := Hung;
    case Values(raws) => o := Collect(params, raws);
  }

  /** The list that was joined is the one that splitting recovers. */
  lemma SplitRecovers(value: string)
    ensures forall parts | parts != [] && (forall part <- parts :: '/' !in part) && Text.Join(parts, '/') == value ::
              Text.Split(value, '/') == parts
  {
    forall parts | parts != [] && (forall part <- parts :: '/' !in part) && Text.Join(parts, '/') == value
      ensures Text.Split(value, '/') == parts
    {
      Text.SplitJoin(parts, '/');
    }
  }

  /** For a path made by filling the template, every parameter that stands for a variable holds
      the variable's value as converted to its type; a list variable that stays a string holds the
      list that was joined. */
  lemma ParametersRoundTrip(fold: char -> char, convert: (string, string) -> Conversion, basePath: string, t: Template,
                            values: seq<string>, params: seq<Param>, result: map<string, Value>, i: nat, k: nat)
    requires Literal(Trimmed(basePath)) && LiteralTemplate(t) && Proper(t) && Delimited(t)
    requires |values| == |Names(t)| && Fits(t, EndsInPlus(t), values)
    requires forall a, b | 0 <= a < b < |Names(t)| :: Names(t)[a] != Names(t)[b]
    requires |Pattern(basePath, t)| >= 4
    requires var m := Match(fold, Pattern(basePath, t), Trimmed(basePath) + Fill(t, values));
             m.Some? ==> Holds(params, Source(Grouping(Names(t)), m.value, convert), result)
    requires i < |params| && Stands(params, i) && k < |values| && params[i].InPath? && params[i].name == Names(t)[k]
    ensures Key(params, i) in result && convert(params[i].kind, values[k]).Done?
    ensures !IsList(params, i) ==> Done(result[Key(params, i)]) == convert(params[i].kind, values[k])
    ensures IsList(params, i) && convert(params[i].kind, values[k]) == Done(Word(values[k])) ==>
              forall parts |
                  parts != [] && (forall part <- parts :: '/' !in part) && Text.Join(parts, '/') == values[k] ::
                result[Key(params, i)] == Parts(parts)
  {
    PathRoundTrip(fold, basePath, t, values);
    GroupingIsPosition(Names(t), k);
    assert Raw(params[i], Source(Grouping(Names(t)), values, convert)) == convert(params[i].kind, values[k]);
    SplitRecovers(values[k]);
  }

  /** A parameter that is not read from the path holds its converted value, and one that names no variable
      holds none; a last plus parameter goes without its plus sign and holds the list that was joined. */
  lemma OtherParametersHold(params: seq<Param>, src: Source, result: map<string, Value>, i: nat)
    requires Holds(params, src, result) && i < |params| && Stands(params, i)
    requires params[i].InPath? ==> params[i].name !in src.grouping
    ensures var name := params[i].name;
            var value := if params[i].InPath? then Done(Undefined) else params[i].conversion;
            if i == |params| - 1 && name != "" && name[0] == '+' then
              && name[1..] in result
              && (value.Done? && !value.value.Word? ==> Done(result[name[1..]]) == value)
              && forall parts | parts != [] && (forall part <- parts :: '/' !in part) ::
                   value == Done(Word(Text.Join(parts, '/'))) ==> result[name[1..]] == Parts(parts)
            else name in result && Done(result[name]) == value
  {
    if params[i].Elsewhere? && params[i].conversion.Done? && params[i].conversion.value.Word? {
      SplitRecovers(params[i].conversion.value.s);
    }
  }
}
