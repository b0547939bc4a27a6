/** Path templates: compiling `/pets/{kind}/{+rest}` to a regular expression by rewriting the
    template in place. */
module PathTemplate {
  import Text

  // ---- String primitives ------------------------------------------------------------

  /** The character does not occur. */
  predicate Free(s: string, c: char) { forall k | 0 <= k < |s| :: s[k] != c }

  predicate FreeIn(s: string, lo: int, hi: int, c: char) { forall k | lo <= k < hi && 0 <= k < |s| :: s[k] != c }

  /** i is the first position of the character, or -1. */
  predicate FirstAt(s: string, c: char, i: int) {
    if i < 0 then i == -1 && Free(s, c) else i < |s| && s[i] == c && forall k | 0 <= k < i :: s[k] != c
  }

  predicate LastAt(s: string, c: char, i: int) {
    if i < 0 then i == -1 && Free(s, c) else i < |s| && s[i] == c && forall k | i < k < |s| :: s[k] != c
  }

  predicate OccursAt(s: string, sub: string, p: int) {
    0 <= p <= |s| - |sub| && s[p..p + |sub|] == sub
  }

  predicate FirstOccurrence(s: string, sub: string, p: int) {
    OccursAt(s, sub, p) && forall q | 0 <= q < p :: !OccursAt(s, sub, q)
  }

  method IndexOf(s: string, c: char) returns (i: int)
    ensures FirstAt(s, c, i)
  {
    for k := 0 to |s|
      invariant forall j | 0 <= j < k :: s[j] != c
    {
      if s[k] == c { return k; }
    }
    return -1;
  }

  method LastIndexOf(s: string, c: char) returns (i: int)
    ensures LastAt(s, c, i)
  {
    for k := |s| downto 0
      invariant forall j | k <= j < |s| :: s[j] != c
    {
      if s[k] == c { return k; }
    }
    return -1;
  }

  /** Replace the first occurrence, if there is one. */
  method ReplaceFirst(s: string, sub: string, with: string) returns (r: string)
    ensures forall p | FirstOccurrence(s, sub, p) :: r == s[..p] + with + s[p + |sub|..]
    ensures (forall p | 0 <= p <= |s| :: !OccursAt(s, sub, p)) ==> r == s
  {
    var k := 0;
    while k + |sub| <= |s|
      invariant 0 <= k && forall q | 0 <= q < k :: !OccursAt(s, sub, q)
    {
      if s[k..k + |sub|] == sub {
        assert OccursAt(s, sub, k);
        return s[..k] + with + s[k + |sub|..];
      }
      k := k + 1;
    }
    return s;
  }

  // ---- Templates ----------------------------------------------------------------------

  /** A template with matched, unnested braces: literal text, a variable, and what follows. */
  datatype Template = End(text: string) | Variable(text: string, name: string, rest: Template)

  function Print(t: Template): string {
    match t
    case End(text) => text
    case Variable(text, name, rest) => text + ("{" + name + "}") + Print(rest)
  }

  predicate Plain(s: string) { Free(s, '{') && Free(s, '}') }

  predicate Proper(t: Template) {
    match t
    case End(text) => Plain(text)
    case Variable(text, name, rest) => Plain(text) && Plain(name) && Proper(rest)
  }

  function Names(t: Template): seq<string> {
    match t
    case End(_) => []
    case Variable(_, name, rest) => [name] + Names(rest)
  }

  /** Braces come in pairs and are not nested. */
  predicate Matched(s: string, open: bool) {
    if s == "" then !open
    else if s[0] == '{' then !open && Matched(s[1..], true)
    else if s[0] == '}' then open && Matched(s[1..], false)
    else Matched(s[1..], open)
  }

  function Reading(s: string, text: string, open: bool, name: string): Template
    requires Matched(s, open)
  {
    if s == "" then End(text)
    else if s[0] == '{' then Reading(s[1..], text, true, "")
    else if s[0] == '}' then Variable(text, name, Reading(s[1..], "", false, ""))
    else if open then Reading(s[1..], text, true, name + [s[0]])
    else Reading(s[1..], text + [s[0]], false, "")
  }

  /** The template a path spells. */
  function TemplateOf(path: string): Template
    requires Matched(path, false)
  {
    Reading(path, "", false, "")
  }

  lemma {:induction false} ReadingPrints(s: string, text: string, open: bool, name: string)
    requires Matched(s, open) && Plain(text) && Plain(name)
    ensures var t := Reading(s, text, open, name);
            Proper(t) && Print(t) == text + (if open then "{" + name else "") + s
  {
    if s == "" {
    } else if s[0] == '{' {
      ReadingPrints(s[1..], text, true, "");
      assert "{" + "" + s[1..] == s;
    } else if s[0] == '}' {
      ReadingPrints(s[1..], "", false, "");
      assert "" + s[1..] == s[1..];
      assert "}" + s[1..] == s;
    } else {
      assert [s[0]] + s[1..] == s;
      if open { ReadingPrints(s[1..], text, true, name + [s[0]]); }
      else { ReadingPrints(s[1..], text + [s[0]], false, ""); }
    }
  }

  /** Printing undoes reading. */
  lemma PrintOfReading(path: string)
    requires Matched(path, false)
    ensures Proper(TemplateOf(path)) && Print(TemplateOf(path)) == path
  {
    ReadingPrints(path, "", false, "");
    assert "" + "" + path == path;
  }

  lemma {:induction false} PlainIsRead(plain: string, s: string, text: string, open: bool, name: string)
    requires Plain(plain) && (open || name == "")
    ensures Matched(plain + s, open) <==> Matched(s, open)
    ensures Matched(s, open) && open ==> Reading(plain + s, text, open, name) == Reading(s, text, true, name + plain)
    ensures Matched(s, open) && !open ==> Reading(plain + s, text, open, name) == Reading(s, text + plain, false, "")
  {
    if plain == "" {
      assert plain + s == s && name + plain == name && text + plain == text;
    } else {
      var c, more := plain[0], plain[1..];
      assert plain + s == [c] + (more + s);
      assert name + [c] + more == name + plain && text + [c] + more == text + plain;
      if open { PlainIsRead(more, s, text, true, name + [c]); }
      else { PlainIsRead(more, s, text + [c], false, ""); }
    }
  }

  /** A variable is read off whole. */
  lemma VariableIsRead(text: string, name: string, tail: string)
    requires Plain(text) && Plain(name) && Matched(tail, false)
    ensures var s := text + ("{" + name + "}") + tail;
            Matched(s, false) && TemplateOf(s) == Variable(text, name, TemplateOf(tail))
  {
    var closing := "}" + tail;
    var opening := "{" + (name + closing);
    PlainIsRead(name, closing, text, true, "");
    PlainIsRead(text, opening, "", false, "");
    assert closing[1..] == tail && opening[1..] == name + closing && "" + text == text && "" + name == name;
    Text.Assoc(text, "{" + name + "}", tail);
    Text.Assoc("{" + name, "}", tail);
    Text.Assoc("{", name, closing);
  }

  /** Reading undoes printing. */
  lemma {:induction false} ReadingOfPrint(t: Template)
    requires Proper(t)
    ensures Matched(Print(t), false) && TemplateOf(Print(t)) == t
  {
    match t
    case End(text) =>
      PlainIsRead(text, "", "", false, "");
      assert text + "" == text && "" + text == text;
    case Variable(text, name, rest) =>
      ReadingOfPrint(rest);
      VariableIsRead(text, name, Print(rest));
  }

  const SEGMENT := "([^/]+)"
  const REST := "(.+)"

  /** With `plus`, the last variable takes the rest of the path. */
  function Group(rest: Template, plus: bool): string { if plus && rest.End? then REST else SEGMENT }

  /** The segment-by-segment translation to a regular expression. */
  function Translate(t: Template, plus: bool): string {
    match t
    case End(text) => text
    case Variable(text, _, rest) => text + Group(rest, plus) + Translate(rest, plus)
  }

  /** The last variable's name starts with a plus sign and nothing follows it. */
  predicate EndsInPlus(t: Template) {
    match t
    case End(_) => false
    case Variable(_, name, rest) => if rest.End? then rest.text == "" && |name| >= 2 && name[0] == '+'
        else EndsInPlus(rest)
  }

  predicate PlusAt(path: string, k: int) {
    && 0 <= k < |path| - 3 && path[k] == '{' && path[k + 1] == '+' && path[|path| - 1] == '}'
    && FreeIn(path, k + 2, |path| - 1, '}')
  }

  /** What the expression /{\+([^}]+)}$/ looks for in the printed template. */
  predicate PlusAtEnd(path: string) { exists k | 0 <= k < |path| :: PlusAt(path, k) }

  function Trimmed(basePath: string): string {
    if basePath != "" && basePath[|basePath| - 1] == '/' then basePath[..|basePath| - 1] else basePath
  }

  function Pattern(basePath: string, t: Template): string {
    "^" + Trimmed(basePath) + (if Print(t) == "/" then "" else Translate(t, EndsInPlus(t))) + "/?$"
  }

  /** Each name with the number of its last group, groups counting from 1. */
  function Grouping(names: seq<string>): map<string, nat> {
    if names == [] then map[] else Grouping(names[..|names| - 1])[names[|names| - 1] := |names|]
  }

  lemma GroupingStep(names: seq<string>, name: string)
    ensures Grouping(names + [name]) == Grouping(names)[name := |names| + 1]
  {
    assert (names + [name])[..|names|] == names;
  }

  /** Distinct names map to their positions. */
  lemma {:induction false} GroupingIsPosition(names: seq<string>, i: nat)
    requires i < |names| && forall j, k | 0 <= j < k < |names| :: names[j] != names[k]
    ensures names[i] in Grouping(names) && Grouping(names)[names[i]] == i + 1
  {
    if i < |names| - 1 { GroupingIsPosition(names[..|names| - 1], i); }
  }

  // ---- The rewriting loop ---------------------------------------------------------------

  lemma {:induction false} NoVariablesLeft(t: Template)
    requires Proper(t)
    ensures t.End? <==> Free(Print(t), '{')
  {
    if t.Variable? { assert Print(t)[|t.text|] == '{'; }
  }

  /** The characters of a text with one variable. */
  lemma Braced(text: string, name: string, tail: string)
    ensures var path, b := text + ("{" + name + "}") + tail, |text|;
            var e := b + 1 + |name|;
            && |path| == e + 1 + |tail| && path[b] == '{' && path[e] == '}'
            && (forall k | 0 <= k < b :: path[k] == text[k]) && (forall k | b < k < e :: path[k] == name[k - b - 1])
            && (forall k | e < k < |path| :: path[k] == tail[k - e - 1])
  {}

  /** The slices of such a text. */
  lemma BracedParts(text: string, name: string, tail: string)
    ensures var path, b := text + ("{" + name + "}") + tail, |text|;
            var e := b + 1 + |name|;
            && path[..b] == text && path[b..e + 1] == "{" + name + "}" && path[b + 1..e] == name
                && path[e + 1..] == tail
  {}

  /** Where the braces of the first variable lie behind rewritten text. */
  lemma FirstBraces(done: string, t: Template, path: string)
    requires Plain(done) && Proper(t) && t.Variable? && path == done + Print(t)
    ensures var b, e := |done| + |t.text|, |done| + |t.text| + 1 + |t.name|;
            && FirstAt(path, '{', b) && FirstAt(path, '}', e)
            && (LastAt(path, '{', b) <==> t.rest.End?) && FreeIn(path, b + 1, e + 1, '{')
            && path[b..e + 1] == "{" + t.name + "}" && path[b + 1..e] == t.name
            && path[..b] == done + t.text && path[e + 1..] == Print(t.rest)
  {
    var before, braces, tail := done + t.text, "{" + t.name + "}", Print(t.rest);
    Text.Assoc(done, t.text + braces, tail);
    Text.Assoc(done, t.text, braces);
    BracedParts(before, t.name, tail);
    BracesAt(before, t.name, tail);
    NoVariablesLeft(t.rest);
  }

  lemma BracesAt(text: string, name: string, tail: string)
    requires Plain(text) && Plain(name)
    ensures var path, b := text + ("{" + name + "}") + tail, |text|;
            var e := b + 1 + |name|;
            && FirstAt(path, '{', b) && FirstAt(path, '}', e) && FreeIn(path, b + 1, e + 1, '{')
            && (LastAt(path, '{', b) <==> Free(tail, '{'))
  {
    var path, b := text + ("{" + name + "}") + tail, |text|;
    Braced(text, name, tail);
    if LastAt(path, '{', b) {
      assert forall k | 0 <= k < |tail| :: tail[k] == path[b + 2 + |name| + k];
    }
  }

  lemma OccursStart(s: string, sub: string, p: int)
    requires sub != "" && OccursAt(s, sub, p)
    ensures s[p] == sub[0]
  {
    assert s[p] == s[p..p + |sub|][0];
  }

  /** A string that starts with a brace first occurs where the first brace is. */
  lemma OccursFirst(path: string, sub: string, b: int)
    requires sub != "" && FirstAt(path, sub[0], b) && OccursAt(path, sub, b)
    ensures FirstOccurrence(path, sub, b)
  {
    forall q | 0 <= q < b ensures !OccursAt(path, sub, q) {
      if OccursAt(path, sub, q) { OccursStart(path, sub, q); }
    }
  }

  /** The loop's invariant: `done` is rewritten, `todo` is not, `names` are the variables so far. */
  ghost predicate Rewriting(t: Template, plus: bool, path: string, grouping: map<string, nat>, i: int,
                            done: string, todo: Template, names: seq<string>)
  {
    && path == done + Print(todo) && Plain(done) && Proper(todo)
    && done + Translate(todo, plus) == Translate(t, plus)
    && names + Names(todo) == Names(t) && grouping == Grouping(names) && i == |names| + 1
  }

  lemma GroupsArePlain(rest: Template, plus: bool)
    ensures Plain(Group(rest, plus)) && Group(rest, plus) != ""
  {
    assert Plain(REST) && Plain(SEGMENT);
  }

  lemma TurnKeepsRewriting(t: Template, plus: bool, path: string, grouping: map<string, nat>, i: int,
                           done: string, todo: Template, names: seq<string>, next: string)
    requires Rewriting(t, plus, path, grouping, i, done, todo, names) && todo.Variable?
    requires next == done + todo.text + Group(todo.rest, plus) + Print(todo.rest)
    ensures Rewriting(t, plus, next, grouping[todo.name := i], i + 1,
                      done + todo.text + Group(todo.rest, plus), todo.rest, names + [todo.name])
  {
    var group, more := Group(todo.rest, plus), Translate(todo.rest, plus);
    GroupsArePlain(todo.rest, plus);
    GroupingStep(names, todo.name);
    Text.Assoc(names, [todo.name], Names(todo.rest));
    Text.Assoc(done, todo.text + group, more);
    Text.Assoc(done, todo.text, group);
  }

  // ---- The trailing plus ------------------------------------------------------------------

  /** A closing brace that is not the last character rules out a plus before it. */
  lemma PlusIsBehind(path: string, b: int, e: int, k: int)
    requires 0 <= b < e < |path| - 1 && FirstAt(path, '{', b) && FreeIn(path, b + 1, e + 1, '{') && path[e] == '}'
    requires PlusAt(path, k)
    ensures k > e
  {
  }

  lemma PlusShifts(prefix: string, tail: string, k: int)
    ensures k >= 0 ==> (PlusAt(prefix + tail, |prefix| + k) <==> PlusAt(tail, k))
  {
    var path := prefix + tail;
    if k >= 0 && PlusAt(path, |prefix| + k) {
      assert forall j | 0 <= j < |tail| :: tail[j] == path[|prefix| + j];
    }
  }

  lemma PlusComesLater(prefix: string, tail: string, b: int)
    requires 0 <= b < |prefix| - 1 && tail != "" && prefix[|prefix| - 1] == '}'
    requires FirstAt(prefix + tail, '{', b) && FreeIn(prefix + tail, b + 1, |prefix|, '{')
    ensures PlusAtEnd(prefix + tail) <==> PlusAtEnd(tail)
  {
    var path := prefix + tail;
    if PlusAtEnd(tail) {
      var k :| 0 <= k < |tail| && PlusAt(tail, k);
      PlusShifts(prefix, tail, k);
      assert PlusAt(path, |prefix| + k);
    }
    if PlusAtEnd(path) {
      var k :| 0 <= k < |path| && PlusAt(path, k);
      PlusIsBehind(path, b, |prefix| - 1, k);
      PlusShifts(prefix, tail, k - |prefix|);
      assert PlusAt(tail, k - |prefix|);
    }
  }

  /** The expression asks whether the template ends in a plus variable. */
  lemma {:induction false} PlusMeaning(t: Template)
    requires Proper(t)
    ensures PlusAtEnd(Print(t)) <==> EndsInPlus(t)
  {
    if t.Variable? {
      if t.rest.End? { PlusAlone(t); } else { PlusMeaning(t.rest); PlusBehind(t); }
    }
  }

  lemma LonePlus(text: string, name: string, tail: string)
    requires Plain(text) && Plain(name) && Plain(tail)
    ensures PlusAtEnd(text + ("{" + name + "}") + tail) <==> tail == "" && |name| >= 2 && name[0] == '+'
  {
    var path, b := text + ("{" + name + "}") + tail, |text|;
    Braced(text, name, tail);
    assert PlusAtEnd(path) <==> PlusAt(path, b);
  }

  lemma PlusAlone(t: Template)
    requires Proper(t) && t.Variable? && t.rest.End?
    ensures PlusAtEnd(Print(t)) <==> EndsInPlus(t)
  {
    LonePlus(t.text, t.name, t.rest.text);
  }

  lemma PlusBehind(t: Template)
    requires Proper(t) && t.Variable? && t.rest.Variable?
    ensures PlusAtEnd(Print(t)) <==> PlusAtEnd(Print(t.rest))
  {
    var path, prefix := Print(t), t.text + ("{" + t.name + "}");
    assert "" + path == path;
    FirstBraces("", t, path);
    NoVariablesLeft(t.rest);
    PlusComesLater(prefix, Print(t.rest), |t.text|);
  }

  method EndsWithPlus(path: string) returns (matches: bool)
    ensures matches <==> PlusAtEnd(path)
  {
    if path == "" || path[|path| - 1] != '}' { return false; }
    for k := 0 to |path|
      invariant forall j | 0 <= j < k :: !PlusAt(path, j)
    {
      if k < |path| - 3 && path[k] == '{' && path[k + 1] == '+' {
        var closing := IndexOf(path[k + 2..|path| - 1], '}');
        assert forall j | k + 2 <= j < |path| - 1 :: path[j] == path[k + 2..|path| - 1][j - k - 2];
        if closing < 0 { assert PlusAt(path, k); return true; }
      }
    }
    return false;
  }

  // ---- Compiling ----------------------------------------------------------------------------

  lemma NextBrace(done: string, todo: Template, path: string)
    requires Plain(done) && Proper(todo) && path == done + Print(todo)
    ensures todo.End? <==> Free(path, '{')
  {
    NoVariablesLeft(todo);
    assert forall k | 0 <= k < |path| :: path[k] == if k < |done| then done[k] else Print(todo)[k - |done|];
    if todo.Variable? { assert path[|done| + |todo.text|] == '{'; }
  }

  /** Where the first pair of braces lies, and that nothing like it comes before. */
  lemma FirstPair(path: string, b: int, e: int, done: string, todo: Template)
    requires Plain(done) && Proper(todo) && todo.Variable? && path == done + Print(todo)
    requires FirstAt(path, '{', b) && FirstAt(path, '}', e)
    ensures 0 <= b < e < |path| && path[b + 1..e] == todo.name
    ensures FirstOccurrence(path, path[b..e + 1], b)
    ensures path[..b] == done + todo.text && path[e + 1..] == Print(todo.rest)
    ensures LastAt(path, '{', b) <==> todo.rest.End?
  {
    FirstBraces(done, todo, path);
    OccursFirst(path, path[b..e + 1], b);
  }

  /** One turn: the first pair of braces, which begin at braceBegin, becomes a group. */
  method ReplaceBraces(path: string, braceBegin: int, matches: bool, ghost done: string, ghost todo: Template)
    returns (next: string, name: string)
    requires Plain(done) && Proper(todo) && todo.Variable? && path == done + Print(todo)
    requires FirstAt(path, '{', braceBegin)
    ensures next == done + todo.text + Group(todo.rest, matches) + Print(todo.rest) && name == todo.name
  {
    var lastBraceBegin := LastIndexOf(path, '{');
    var braceEnd := IndexOf(path, '}');
    FirstPair(path, braceBegin, braceEnd, done, todo);
    braceEnd := braceEnd + 1;
    var variablePath := path[braceBegin..braceEnd];
    name := path[braceBegin + 1..braceEnd - 1];
    var group := SEGMENT;
    if matches && braceBegin == lastBraceBegin { group := REST; }
    assert group == Group(todo.rest, matches);
    next := ReplaceFirst(path, variablePath, group);
  }

  lemma RewritingEnds(t: Template, plus: bool, path: string, grouping: map<string, nat>, i: int,
                      done: string, todo: Template, names: seq<string>)
    requires Rewriting(t, plus, path, grouping, i, done, todo, names) && todo.End?
    ensures path == Translate(t, plus) && grouping == Grouping(Names(t))
  {
    assert names + Names(todo) == names;
  }

  /** The loop replaces one pair of braces each turn until none is left. */
  method MakePathRegex(basePath: string, apiPath: string) returns (pattern: string, grouping: map<string, nat>)
    requires Matched(apiPath, false)
    ensures var t := TemplateOf(apiPath); pattern == Pattern(basePath, t) && grouping == Grouping(Names(t))
  {
    ghost var t := TemplateOf(apiPath);
    PrintOfReading(apiPath);
    var path, i := apiPath, 1;
    grouping := map[];
    PlusMeaning(t);
    var matches := EndsWithPlus(apiPath);
    ghost var done, todo, names := "", t, [];
    assert "" + Print(t) == Print(t) && "" + Translate(t, matches) == Translate(t, matches);
    while true
      invariant Rewriting(t, matches, path, grouping, i, done, todo, names)
      decreases todo
    {
      var braceBegin := IndexOf(path, '{');
      NextBrace(done, todo, path);
      if braceBegin < 0 { break; }
      var next, name := ReplaceBraces(path, braceBegin, matches, done, todo);
      TurnKeepsRewriting(t, matches, path, grouping, i, done, todo, names, next);
      path := next;
      done, names, todo := done + todo.text + Group(todo.rest, matches), names + [todo.name], todo.rest;
      grouping := grouping[name := i];
      i := i + 1;
    }
    RewritingEnds(t, matches, path, grouping, i, done, todo, names);
    pattern := "^" + Trimmed(basePath) + (if apiPath == "/" then "" else path) + "/?$";
  }
}
