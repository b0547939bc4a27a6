/** Choosing the API that serves a request: the candidates whose path and method match with
    the best score, those of them whose security requirements are met, and one champion. */
module Selection {
  import opened Options
  import EvalSecurity

  /** The largest finite number of the source's number type; scores do not exceed it. */
  const MAX_VALUE: int := 0xFFFFFFFFFFFFF800000000000000000000000000000000000000000000000000000000000000000000000000000000000000000000000000000000000000000000000000000000000000000000000000000000000000000000000000000000000000000000000000000000000000000000000000000000000000000000000000

  type Score = x: int | x <= MAX_VALUE witness 0

  datatype Operation = Operation(verb: string, requirements: EvalSecurity.Requirements)

  datatype Path = Path(regex: string, operations: seq<Operation>, score: Score)

  datatype Api = Api(
    name: string, visible: bool, cors: bool, paths: seq<Path>,
    planId: string, subscribed: bool, appState: string, state: string)

  /** A matched path of an API; without an operation it answers a preflight request. */
  datatype Candidate = Candidate(api: Api, path: Path, operation: Option<Operation>)

  // ---- Matching -------------------------------------------------------------------

  /** The first operation with this verb. */
  function FindOperation(operations: seq<Operation>, verb: string): (r: Option<Operation>)
    ensures r.Some? ==> r.value in operations && r.value.verb == verb
    ensures r.None? ==> forall o <- operations :: o.verb != verb
  {
    if operations == [] then None
    else if operations[0].verb == verb then Some(operations[0])
    else FindOperation(operations[1..], verb)
  }

  /** What one path contributes: nothing, or one candidate. */
  function MatchesOf(api: Api, path: Path, url: string, verb: string, test: (string, string) -> bool): seq<Candidate> {
    var operation := FindOperation(path.operations, verb);
    if test(path.regex, url) && (operation.Some? || (verb == "OPTIONS" && api.cors))
        then [Candidate(api, path, operation)] else []
  }

  function MatchesIn(api: Api, paths: seq<Path>, url: string, verb: string,
      test: (string, string) -> bool): seq<Candidate> {
    if paths == [] then []
    else MatchesIn(api, paths[..|paths| - 1], url, verb, test) + MatchesOf(api, paths[|paths| - 1], url, verb, test)
  }

  /** All matches of the visible APIs, in order: the first pass of the specification. */
  function AllMatches(apis: seq<Api>, url: string, verb: string, test: (string, string) -> bool): seq<Candidate> {
    if apis == [] then []
    else
      var a := apis[|apis| - 1];
      AllMatches(apis[..|apis| - 1], url, verb, test) + if a.visible then MatchesIn(a, a.paths, url, verb, test) else []
  }

  function MinScore(cs: seq<Candidate>): Score {
    if cs == [] then MAX_VALUE
    else
      var m := MinScore(cs[..|cs| - 1]);
      if cs[|cs| - 1].path.score < m then cs[|cs| - 1].path.score else m
  }

  /** The candidates with this score, in order. */
  function WithScore(cs: seq<Candidate>, score: Score): seq<Candidate> {
    if cs == [] then []
    else WithScore(cs[..|cs| - 1], score) + if cs[|cs| - 1].path.score == score then [cs[|cs| - 1]] else []
  }

  /** The matches of minimal score: the second pass of the specification. */
  function Best(cs: seq<Candidate>): seq<Candidate> { WithScore(cs, MinScore(cs)) }

  lemma {:induction false} MinScoreBounds(cs: seq<Candidate>)
    ensures forall c <- cs :: MinScore(cs) <= c.path.score
    ensures cs != [] ==> exists c <- cs :: c.path.score == MinScore(cs)
  {
    if cs != [] {
      var n := |cs| - 1;
      MinScoreBounds(cs[..n]);
      forall c <- cs ensures MinScore(cs) <= c.path.score {
        if c in cs[..n] {} else { assert c == cs[n]; }
      }
      assert cs[n] in cs;
      if cs[..n] != [] && cs[n].path.score >= MinScore(cs[..n]) {
        var c :| c in cs[..n] && c.path.score == MinScore(cs[..n]);
        assert c in cs;
      }
    }
  }

  lemma {:induction false} WithScoreMembers(cs: seq<Candidate>, score: Score)
    ensures forall c :: c in WithScore(cs, score) <==> c in cs && c.path.score == score
  {
    if cs != [] {
      var n := |cs| - 1;
      WithScoreMembers(cs[..n], score);
      assert cs == cs[..n] + [cs[n]];
    }
  }

  lemma {:induction false} NoneBelowMin(cs: seq<Candidate>, score: Score)
    requires score < MinScore(cs)
    ensures WithScore(cs, score) == []
  {
    if cs != [] { NoneBelowMin(cs[..|cs| - 1], score); }
  }

  /** The best candidates are exactly the matches that no other match beats. */
  lemma BestIsUnbeaten(cs: seq<Candidate>, c: Candidate)
    ensures c in Best(cs) <==> c in cs && forall d <- cs :: c.path.score <= d.path.score
  {
    MinScoreBounds(cs);
    WithScoreMembers(cs, MinScore(cs));
  }

  lemma BestOfMore(cs: seq<Candidate>, c: Candidate)
    ensures MinScore(cs + [c]) == if c.path.score < MinScore(cs) then c.path.score else MinScore(cs)
    ensures Best(cs + [c]) == if c.path.score < MinScore(cs) then [c]
                              else if c.path.score == MinScore(cs) then Best(cs) + [c] else Best(cs)
  {
    assert (cs + [c])[..|cs|] == cs;
    if c.path.score < MinScore(cs) { NoneBelowMin(cs, c.path.score); }
  }

  // ---- What a match is --------------------------------------------------------------------

  /** The k-th operation of the path is the first with this verb. */
  predicate FirstWithVerb(path: Path, verb: string, k: nat) {
    && k < |path.operations| && path.operations[k].verb == verb
    && forall j: nat | j < k :: path.operations[j].verb != verb
  }

  /** The candidate serves the verb by the path's first operation with it, or it answers a preflight
      request for an API with CORS, none of the path's operations having the verb. */
  predicate Serves(c: Candidate, verb: string) {
    match c.operation
    case Some(o) =>
      exists k | 0 <= k < |c.path.operations| :: FirstWithVerb(c.path, verb, k) && c.path.operations[k] == o
    case None => verb == "OPTIONS" && c.api.cors && forall o <- c.path.operations :: o.verb != verb
  }

  /** Which path of which API. */
  datatype Place = Place(api: nat, path: nat)

  predicate Before(p: Place, q: Place) { p.api < q.api || (p.api == q.api && p.path < q.path) }

  predicate IsPlace(apis: seq<Api>, p: Place) { p.api < |apis| && p.path < |apis[p.api].paths| }

  /** The candidate is this path of this API, which is visible, matches the URL and serves the verb. */
  predicate MatchAt(apis: seq<Api>, p: Place, url: string, verb: string, test: (string, string) -> bool, c: Candidate) {
    && IsPlace(apis, p) && apis[p.api].visible
    && c.api == apis[p.api] && c.path == apis[p.api].paths[p.path]
    && test(c.path.regex, url) && Serves(c, verb)
  }

  /** Each candidate is the match at its place, and the places are in order. */
  predicate Located(apis: seq<Api>, places: seq<Place>, url: string, verb: string, test: (string, string) -> bool,
                    cs: seq<Candidate>)
  {
    && |places| == |cs|
    && (forall k | 0 <= k < |cs| :: MatchAt(apis, places[k], url, verb, test, cs[k]))
    && (forall j, k | 0 <= j < k < |cs| :: Before(places[j], places[k]))
  }

  lemma {:induction false} FoundIsFirst(path: Path, operations: seq<Operation>, verb: string, n: nat) returns (k: nat)
    requires n <= |path.operations| && operations == path.operations[n..]
    requires forall j: nat | j < n :: path.operations[j].verb != verb
    ensures var r := FindOperation(operations, verb);
            if r.Some? then FirstWithVerb(path, verb, k) && path.operations[k] == r.value
            else forall o <- path.operations :: o.verb != verb
    decreases |operations|
  {
    k := n;
    if operations != [] {
      assert operations[0] == path.operations[n];
      if operations[0].verb != verb { k := FoundIsFirst(path, operations[1..], verb, n + 1); }
    }
  }

  /** One path contributes the one candidate that serves the verb there. */
  lemma MatchesOfServe(api: Api, path: Path, url: string, verb: string, test: (string, string) -> bool)
    ensures var ms := MatchesOf(api, path, url, verb, test);
            && |ms| <= 1
            && forall c :: c in ms <==> c.api == api && c.path == path && test(path.regex, url) && Serves(c, verb)
  {
    forall c ensures c in MatchesOf(api, path, url, verb, test)
                <==> c.api == api && c.path == path && test(path.regex, url) && Serves(c, verb)
    {
      OneServes(api, path, verb, c);
    }
  }

  lemma OneServes(api: Api, path: Path, verb: string, c: Candidate)
    ensures var found := FindOperation(path.operations, verb);
            c == Candidate(api, path, found) && (found.Some? || (verb == "OPTIONS" && api.cors))
            <==> c.api == api && c.path == path && Serves(c, verb)
  {
    var k := FoundIsFirst(path, path.operations, verb, 0);
    if c.path == path && c.operation.Some? && Serves(c, verb) {
      var j :| 0 <= j < |path.operations| && FirstWithVerb(path, verb, j) && path.operations[j] == c.operation.value;
      assert j == k;
    }
  }

  lemma LocatedPush(apis: seq<Api>, places: seq<Place>, url: string, verb: string, test: (string, string) -> bool,
                    cs: seq<Candidate>, p: Place, c: Candidate)
    requires Located(apis, places, url, verb, test, cs) && MatchAt(apis, p, url, verb, test, c)
    requires forall q <- places :: Before(q, p)
    ensures Located(apis, places + [p], url, verb, test, cs + [c])
  {}

  lemma LocatedAppend(apis: seq<Api>, ps: seq<Place>, qs: seq<Place>, url: string, verb: string,
                      test: (string, string) -> bool, cs: seq<Candidate>, ds: seq<Candidate>)
    requires Located(apis, ps, url, verb, test, cs) && Located(apis, qs, url, verb, test, ds)
    requires forall p <- ps, q <- qs :: Before(p, q)
    ensures Located(apis, ps + qs, url, verb, test, cs + ds)
  {}

  /** The candidates of path n, in terms of its place. */
  lemma MatchesAtPlace(apis: seq<Api>, p: Place, url: string, verb: string, test: (string, string) -> bool)
    requires IsPlace(apis, p) && apis[p.api].visible
    ensures var ms := MatchesOf(apis[p.api], apis[p.api].paths[p.path], url, verb, test);
            |ms| <= 1 && forall c :: c in ms <==> MatchAt(apis, p, url, verb, test, c)
  {
    MatchesOfServe(apis[p.api], apis[p.api].paths[p.path], url, verb, test);
  }

  lemma {:induction false} PlacesIn(apis: seq<Api>, i: nat, n: nat, url: string, verb: string,
                                    test: (string, string) -> bool)
    returns (places: seq<Place>)
    requires i < |apis| && apis[i].visible && n <= |apis[i].paths|
    ensures Located(apis, places, url, verb, test, MatchesIn(apis[i], apis[i].paths[..n], url, verb, test))
    ensures forall p <- places :: p.api == i && p.path < n
    ensures forall j: nat, c :: j < n && MatchAt(apis, Place(i, j), url, verb, test, c) ==> Place(i, j) in places
  {
    places := [];
    if n > 0 {
      var a, p := apis[i], Place(i, n - 1);
      var front := PlacesIn(apis, i, n - 1, url, verb, test);
      assert a.paths[..n][..n - 1] == a.paths[..n - 1];
      var cs, ms := MatchesIn(a, a.paths[..n - 1], url, verb, test), MatchesOf(a, a.paths[n - 1], url, verb, test);
      MatchesAtPlace(apis, p, url, verb, test);
      places := front;
      if ms == [] {
        assert cs + ms == cs;
      } else {
        assert ms[0] in ms && ms == [ms[0]];
        LocatedPush(apis, front, url, verb, test, cs, p, ms[0]);
        places := front + [p];
      }
      assert forall q <- front :: q in places;
    }
  }

  lemma {:induction false} PlacesOf(apis: seq<Api>, n: nat, url: string, verb: string, test: (string, string) -> bool)
    returns (places: seq<Place>)
    requires n <= |apis|
    ensures Located(apis, places, url, verb, test, AllMatches(apis[..n], url, verb, test))
    ensures forall p <- places :: p.api < n
    ensures forall p: Place, c :: p.api < n && MatchAt(apis, p, url, verb, test, c) ==> p in places
  {
    places := [];
    if n > 0 {
      var front := PlacesOf(apis, n - 1, url, verb, test);
      var a, cs := apis[n - 1], AllMatches(apis[..n - 1], url, verb, test);
      assert apis[..n][..n - 1] == apis[..n - 1];
      places := front;
      if !a.visible {
        assert cs + [] == cs;
      } else {
        assert a.paths[..|a.paths|] == a.paths;
        var more := PlacesIn(apis, n - 1, |a.paths|, url, verb, test);
        LocatedAppend(apis, front, more, url, verb, test, cs, MatchesIn(a, a.paths, url, verb, test));
        places := front + more;
        forall p: Place, c | p.api == n - 1 && MatchAt(apis, p, url, verb, test, c) ensures p in more {
          assert p == Place(n - 1, p.path);
        }
      }
    }
  }

  /** The list of matches holds, in the order of APIs and paths, one candidate for each path of a
      visible API that matches the URL and serves the verb, and nothing else. */
  lemma MatchesArePlaces(apis: seq<Api>, url: string, verb: string, test: (string, string) -> bool)
    returns (places: seq<Place>)
    ensures Located(apis, places, url, verb, test, AllMatches(apis, url, verb, test))
    ensures forall p: Place :: p in places <==> exists c :: MatchAt(apis, p, url, verb, test, c)
    ensures forall c :: c in AllMatches(apis, url, verb, test)
                  <==> exists p: Place :: MatchAt(apis, p, url, verb, test, c)
  {
    assert apis[..|apis|] == apis;
    places := PlacesOf(apis, |apis|, url, verb, test);
    var all := AllMatches(apis, url, verb, test);
    forall c ensures c in all <==> exists p: Place :: MatchAt(apis, p, url, verb, test, c) {
      if p: Place :| MatchAt(apis, p, url, verb, test, c) {
        var k :| 0 <= k < |places| && places[k] == p;
        MatchIsUnique(apis, p, url, verb, test, c, all[k]);
      }
    }
    forall p: Place ensures p in places <==> exists c :: MatchAt(apis, p, url, verb, test, c) {
      if p in places {
        var k :| 0 <= k < |places| && places[k] == p;
        assert MatchAt(apis, p, url, verb, test, all[k]);
      }
    }
  }

  lemma MatchIsUnique(apis: seq<Api>, p: Place, url: string, verb: string, test: (string, string) -> bool,
                      c: Candidate, d: Candidate)
    requires MatchAt(apis, p, url, verb, test, c) && MatchAt(apis, p, url, verb, test, d)
    ensures c == d
  {
    OneServes(c.api, c.path, verb, c);
    OneServes(c.api, c.path, verb, d);
  }

  /** The best matches, and their score, among the matches seen so far. */
  ghost predicate AreBest(matches: seq<Candidate>, bestScore: Score, seen: seq<Candidate>) {
    matches == Best(seen) && bestScore == MinScore(seen)
  }

  /** Consider one path, starting over when it scores better than everything so far. */
  method MatchPath(api: Api, path: Path, url: string, verb: string, test: (string, string) -> bool,
                   soFar: seq<Candidate>, scoreSoFar: Score, ghost seen: seq<Candidate>)
    returns (matches: seq<Candidate>, bestScore: Score)
    requires AreBest(soFar, scoreSoFar, seen)
    ensures AreBest(matches, bestScore, seen + MatchesOf(api, path, url, verb, test))
  {
    matches, bestScore := soFar, scoreSoFar;
    assert seen + [] == seen;
    if !test(path.regex, url) { return; }
    var operation := FindOperation(path.operations, verb);
    if operation.None? && (verb != "OPTIONS" || !api.cors) { return; }
    BestOfMore(seen, Candidate(api, path, operation));
    if path.score <= bestScore {
      if path.score < bestScore {
        matches := [];
        bestScore := path.score;
      }
      matches := matches + [Candidate(api, path, operation)];
    }
  }

  lemma OneMorePath(api: Api, j: nat, url: string, verb: string, test: (string, string) -> bool, before: seq<Candidate>)
    requires j < |api.paths|
    ensures before + MatchesIn(api, api.paths[..j + 1], url, verb, test)
         == before + MatchesIn(api, api.paths[..j], url, verb, test) + MatchesOf(api, api.paths[j], url, verb, test)
  {
    assert api.paths[..j + 1][..j] == api.paths[..j];
  }

  /** Extend the best matches so far by those among one API's paths. */
  method MatchPaths(api: Api, url: string, verb: string, test: (string, string) -> bool,
                    soFar: seq<Candidate>, scoreSoFar: Score, ghost before: seq<Candidate>)
    returns (matches: seq<Candidate>, bestScore: Score)
    requires AreBest(soFar, scoreSoFar, before)
    ensures AreBest(matches, bestScore, before + MatchesIn(api, api.paths, url, verb, test))
  {
    matches, bestScore := soFar, scoreSoFar;
    assert before + [] == before;
    for j := 0 to |api.paths|
      invariant AreBest(matches, bestScore, before + MatchesIn(api, api.paths[..j], url, verb, test))
    {
      OneMorePath(api, j, url, verb, test, before);
      matches, bestScore := MatchPath(api, api.paths[j], url, verb, test, matches, bestScore,
                                      before + MatchesIn(api, api.paths[..j], url, verb, test));
    }
    assert api.paths[..|api.paths|] == api.paths;
  }

  lemma OneMoreApi(apis: seq<Api>, i: nat, url: string, verb: string, test: (string, string) -> bool)
    requires i < |apis|
    ensures AllMatches(apis[..i + 1], url, verb, test)
         == AllMatches(apis[..i], url, verb, test)
            + if apis[i].visible then MatchesIn(apis[i], apis[i].paths, url, verb, test) else []
  {
    assert apis[..i + 1][..i] == apis[..i];
  }

  /** One pass over all visible APIs. */
  method MatchApis(apis: seq<Api>, url: string, verb: string, test: (string, string) -> bool)
      returns (matches: seq<Candidate>)
    ensures matches == Best(AllMatches(apis, url, verb, test))
  {
    matches := [];
    var bestScore: Score := MAX_VALUE;
    for i := 0 to |apis|
      invariant AreBest(matches, bestScore, AllMatches(apis[..i], url, verb, test))
    {
      ghost var before := AllMatches(apis[..i], url, verb, test);
      OneMoreApi(apis, i, url, verb, test);
      assert before + [] == before;
      if apis[i].visible {
        matches, bestScore := MatchPaths(apis[i], url, verb, test, matches, bestScore, before);
      }
    }
    assert apis[..|apis|] == apis;
  }

  // ---- The security filter ----------------------------------------------------------

  /** Whether the security check lets a candidate pass, given what its evaluation reported. */
  predicate Passes(c: Candidate, report: EvalSecurity.Verdict) {
    c.operation.None? || (report.Reported? && !report.error && report.pass)
  }

  function Filtered(cs: seq<Candidate>, reports: seq<EvalSecurity.Verdict>): seq<Candidate>
    requires |cs| == |reports|
  {
    if cs == [] then []
    else Filtered(cs[..|cs| - 1], reports[..|cs| - 1])
         + if Passes(cs[|cs| - 1], reports[|cs| - 1]) then [cs[|cs| - 1]] else []
  }

  datatype Admission = Admitted(champion: Candidate) | Rejected(status: int)

  /** The first candidate of the requested plan, else the first of all. */
  function Champion(cs: seq<Candidate>, planId: string): (c: Candidate)
    requires cs != []
    ensures c in cs
    ensures planId != "" && (exists d <- cs :: d.api.planId == planId) ==> c.api.planId == planId
  {
    var k := FirstOfPlan(cs, planId);
    if planId != "" && k < |cs| then cs[k] else cs[0]
  }

  /** The index of the first candidate of this plan, or the length. */
  function FirstOfPlan(cs: seq<Candidate>, planId: string): (k: nat)
    ensures k <= |cs| && (k < |cs| ==> cs[k].api.planId == planId)
    ensures forall j | 0 <= j < k :: cs[j].api.planId != planId
  {
    if cs == [] || cs[0].api.planId == planId then 0 else 1 + FirstOfPlan(cs[1..], planId)
  }

  predicate NeedsSubscription(c: Candidate) { c.operation.Some? && c.operation.value.requirements != [] }

  predicate Subscribed(api: Api) { api.subscribed && api.appState == "ACTIVE" }

  /** An error status set before is kept when nothing passes; 0 stands for none. */
  function Decide(cs: seq<Candidate>, planId: string, status: int): Admission {
    if cs == [] then Rejected(if status < 400 then 401 else status)
    else
      var c := Champion(cs, planId);
      if NeedsSubscription(c) && !Subscribed(c.api) then Rejected(401)
      else if c.api.state == "suspended" then Rejected(503)
      else Admitted(c)
  }

  method CheckSecurity(cs: seq<Candidate>, reports: seq<EvalSecurity.Verdict>, planId: string, status: int)
    returns (r: Admission)
    requires |cs| == |reports|
    ensures r == Decide(Filtered(cs, reports), planId, status)
  {
    var matches: seq<Candidate> := [];
    for i := 0 to |cs|
      invariant matches == Filtered(cs[..i], reports[..i])
    {
      assert cs[..i + 1][..i] == cs[..i] && reports[..i + 1][..i] == reports[..i];
      var c, report := cs[i], reports[i];
      if c.operation.None? {
        matches := matches + [c];
      } else if report.Reported? && !report.error && report.pass {
        matches := matches + [c];
      }
    }
    assert cs[..|cs|] == cs && reports[..|cs|] == reports;
    if matches == [] {
      if status < 400 { return Rejected(401); }
      return Rejected(status);
    }
    var champion := matches[0];
    if |matches| > 1 && planId != "" {
      for i := 0 to |matches|
        invariant champion == matches[0]
        invariant forall j | 0 <= j < i :: matches[j].api.planId != planId
      {
        if matches[i].api.planId == planId {
          champion := matches[i];
          break;
        }
      }
    }
    if champion.operation.Some? && champion.operation.value.requirements != []
       && (!champion.api.subscribed || champion.api.appState != "ACTIVE") {
      return Rejected(401);
    }
    if champion.api.state == "suspended" { return Rejected(503); }
    return Admitted(champion);
  }

  // ---- Matching and filtering together -------------------------------------------------

  /** Each report is what some complete evaluation of the candidate's requirements reported. */
  ghost predicate Evaluated(cs: seq<Candidate>, reports: seq<EvalSecurity.Verdict>) {
    |cs| == |reports| &&
    forall i | 0 <= i < |cs| && cs[i].operation.Some? ::
      exists events: seq<EvalSecurity.Event> ::
        var reqs := cs[i].operation.value.requirements;
        EvalSecurity.Schedule(reqs, events) && EvalSecurity.Complete(reqs, events)
        && reports[i] == EvalSecurity.Run(reqs, events).verdict
  }

  lemma {:induction false} FilteredMembers(cs: seq<Candidate>, reports: seq<EvalSecurity.Verdict>, c: Candidate)
    requires |cs| == |reports|
    ensures c in Filtered(cs, reports) <==> exists i | 0 <= i < |cs| :: cs[i] == c && Passes(c, reports[i])
  {
    if cs != [] {
      var n := |cs| - 1;
      FilteredMembers(cs[..n], reports[..n], c);
      if c in Filtered(cs[..n], reports[..n]) {
        var i :| 0 <= i < n && cs[..n][i] == c && Passes(c, reports[..n][i]);
        assert cs[i] == c && Passes(c, reports[i]);
      }
      if i :| 0 <= i < |cs| && cs[i] == c && Passes(c, reports[i]) {
        if i < n { assert cs[..n][i] == c && Passes(c, reports[..n][i]); }
      }
    }
  }

  predicate Entitled(c: Candidate) { c.operation.Some? ==> EvalSecurity.SomePasses(c.operation.value.requirements) }

  predicate FullyDefined(c: Candidate) {
    c.operation.Some? ==> !EvalSecurity.SomeMissing(c.operation.value.requirements)
  }

  lemma PassesIsEntitled(cs: seq<Candidate>, reports: seq<EvalSecurity.Verdict>, i: nat)
    requires Evaluated(cs, reports) && i < |cs|
    ensures Passes(cs[i], reports[i]) ==> Entitled(cs[i])
    ensures FullyDefined(cs[i]) && Entitled(cs[i]) ==> Passes(cs[i], reports[i])
  {
    if cs[i].operation.Some? {
      var reqs := cs[i].operation.value.requirements;
      var events: seq<EvalSecurity.Event> :|
        EvalSecurity.Schedule(reqs, events) && EvalSecurity.Complete(reqs, events)
            && reports[i] == EvalSecurity.Run(reqs, events).verdict;
      EvalSecurity.CallsBackOnce(reqs, events);
      EvalSecurity.CallsBackAtMostOnce(reqs, events);
      if reports[i].pass { EvalSecurity.PassIsDeserved(reqs, events); }
      if !EvalSecurity.SomeMissing(reqs) { EvalSecurity.VerdictIsOrOfAnds(reqs, events); }
    }
  }

  /** The filter keeps the order: what passes before a kept candidate is kept before it. */
  lemma {:induction false} FilteredAt(cs: seq<Candidate>, reports: seq<EvalSecurity.Verdict>, k: nat) returns (i: nat)
    requires |cs| == |reports| && k < |Filtered(cs, reports)|
    ensures i < |cs| && cs[i] == Filtered(cs, reports)[k] && Passes(cs[i], reports[i])
    ensures forall j | 0 <= j < i && Passes(cs[j], reports[j]) :: cs[j] in Filtered(cs, reports)[..k]
  {
    var n := |cs| - 1;
    var front := Filtered(cs[..n], reports[..n]);
    if k < |front| {
      i := FilteredAt(cs[..n], reports[..n], k);
      assert Filtered(cs, reports)[..k] == front[..k];
      forall j | 0 <= j < i && Passes(cs[j], reports[j]) ensures cs[j] in front[..k] {
        assert cs[..n][j] == cs[j] && reports[..n][j] == reports[j];
      }
    } else {
      i := n;
      assert Filtered(cs, reports)[..k] == front;
      forall j | 0 <= j < n && Passes(cs[j], reports[j]) ensures cs[j] in front {
        FilteredMembers(cs[..n], reports[..n], cs[j]);
        assert cs[..n][j] == cs[j] && reports[..n][j] == reports[j];
      }
    }
  }

  /** Candidate i is the first that passes and has the requested plan, or the first that passes when
      none has it or none is requested. */
  predicate ChosenAt(cs: seq<Candidate>, reports: seq<EvalSecurity.Verdict>, planId: string, i: nat)
    requires |cs| == |reports|
  {
    && i < |cs| && Passes(cs[i], reports[i])
    && if planId != "" && exists k | 0 <= k < |cs| :: Passes(cs[k], reports[k]) && cs[k].api.planId == planId
       then cs[i].api.planId == planId && forall j | 0 <= j < i && Passes(cs[j], reports[j]) ::
           cs[j].api.planId != planId
       else forall j | 0 <= j < i :: !Passes(cs[j], reports[j])
  }

  lemma ChampionIsChosen(cs: seq<Candidate>, reports: seq<EvalSecurity.Verdict>, planId: string) returns (i: nat)
    requires |cs| == |reports| && Filtered(cs, reports) != []
    ensures ChosenAt(cs, reports, planId, i) && cs[i] == Champion(Filtered(cs, reports), planId)
  {
    var passing := Filtered(cs, reports);
    var k := FirstOfPlan(passing, planId);
    i := FilteredAt(cs, reports, if planId != "" && k < |passing| then k else 0);
    forall h | 0 <= h < |cs| && Passes(cs[h], reports[h]) ensures cs[h] in passing {
      FilteredMembers(cs, reports, cs[h]);
    }
  }

  /** Whatever order the security handlers answer in: an admitted candidate is an unbeaten match and
      the chosen one among those that pass, its requirements are met, it has an active subscription
      if it has requirements, and it is not suspended. */
  lemma AdmittedIsEntitled(apis: seq<Api>, url: string, verb: string, test: (string, string) -> bool,
                           reports: seq<EvalSecurity.Verdict>, planId: string, status: int)
    requires var cs := Best(AllMatches(apis, url, verb, test));
             Evaluated(cs, reports) && Decide(Filtered(cs, reports), planId, status).Admitted?
    ensures var all := AllMatches(apis, url, verb, test);
            var c := Decide(Filtered(Best(all), reports), planId, status).champion;
            && c in all && (forall d <- all :: c.path.score <= d.path.score)
            && (exists i: nat :: ChosenAt(Best(all), reports, planId, i) && Best(all)[i] == c)
            && Entitled(c) && (NeedsSubscription(c) ==> Subscribed(c.api)) && c.api.state != "suspended"
  {
    var all := AllMatches(apis, url, verb, test);
    var cs := Best(all);
    var i := ChampionIsChosen(cs, reports, planId);
    PassesIsEntitled(cs, reports, i);
    BestIsUnbeaten(all, cs[i]);
  }

  /** With every scheme defined, a request is turned away for lack of authentication exactly
      when no unbeaten match is entitled to serve it. */
  lemma NobodyIsEntitled(apis: seq<Api>, url: string, verb: string, test: (string, string) -> bool,
      reports: seq<EvalSecurity.Verdict>)
    requires var cs := Best(AllMatches(apis, url, verb, test));
             Evaluated(cs, reports) && forall c <- cs :: FullyDefined(c)
    ensures var all := AllMatches(apis, url, verb, test);
            Filtered(Best(all), reports) == []
            <==> forall c <- all :: (forall d <- all :: c.path.score <= d.path.score) ==> !Entitled(c)
  {
    var all := AllMatches(apis, url, verb, test);
    var cs := Best(all);
    var passing := Filtered(cs, reports);
    if passing != [] {
      var c := passing[0];
      FilteredMembers(cs, reports, c);
      var i :| 0 <= i < |cs| && cs[i] == c && Passes(c, reports[i]);
      PassesIsEntitled(cs, reports, i);
      BestIsUnbeaten(all, c);
    }
    forall c | c in all && (forall d <- all :: c.path.score <= d.path.score) && Entitled(c) ensures c in passing {
      BestIsUnbeaten(all, c);
      var i :| 0 <= i < |cs| && cs[i] == c;
      PassesIsEntitled(cs, reports, i);
      FilteredMembers(cs, reports, c);
    }
  }

  lemma ChosenIsUnique(cs: seq<Candidate>, reports: seq<EvalSecurity.Verdict>, planId: string, i: nat, j: nat)
    requires |cs| == |reports| && ChosenAt(cs, reports, planId, i) && ChosenAt(cs, reports, planId, j)
    ensures i == j
  {}

  /** What becomes of the request: when nothing passes, an error status set before is kept and otherwise
      it is 401; else the chosen candidate decides. One with requirements needs an active subscription
      (401), a suspended one is unavailable (503), and every other is admitted. */
  lemma AdmissionIsExact(cs: seq<Candidate>, reports: seq<EvalSecurity.Verdict>, planId: string, status: int)
    requires |cs| == |reports|
    ensures var r := Decide(Filtered(cs, reports), planId, status);
            && ((exists i: nat :: ChosenAt(cs, reports, planId, i))
                <==> exists i | 0 <= i < |cs| :: Passes(cs[i], reports[i]))
            && ((forall i | 0 <= i < |cs| :: !Passes(cs[i], reports[i])) ==>
                  r == Rejected(if status >= 400 then status else 401))
            && forall i: nat | ChosenAt(cs, reports, planId, i) ::
                 var c := cs[i];
                 var guarded := c.operation.Some? && c.operation.value.requirements != [];
                 var active := c.api.subscribed && c.api.appState == "ACTIVE";
                 && (r == Rejected(401) <==> guarded && !active)
                 && (r == Rejected(503) <==> (guarded ==> active) && c.api.state == "suspended")
                 && (r == Admitted(c) <==> (guarded ==> active) && c.api.state != "suspended")
  {
    var passing := Filtered(cs, reports);
    if passing == [] {
      forall i | 0 <= i < |cs| ensures !Passes(cs[i], reports[i]) { FilteredMembers(cs, reports, cs[i]); }
    } else {
      var i := ChampionIsChosen(cs, reports, planId);
      assert Passes(cs[i], reports[i]);
      forall j: nat | ChosenAt(cs, reports, planId, j) ensures j == i { ChosenIsUnique(cs, reports, planId, i, j); }
    }
  }

  /** A request is only admitted without an operation if it is an OPTIONS request, its URL matches the
      path, and the API is visible and has CORS. */
  lemma PreflightOnly(apis: seq<Api>, url: string, verb: string, test: (string, string) -> bool,
                      reports: seq<EvalSecurity.Verdict>, planId: string, status: int)
    requires var cs := Best(AllMatches(apis, url, verb, test));
             Evaluated(cs, reports) && Decide(Filtered(cs, reports), planId, status).Admitted?
    ensures var c := Decide(Filtered(Best(AllMatches(apis, url, verb, test)), reports), planId, status).champion;
            && c.api in apis && c.api.visible && c.path in c.api.paths && test(c.path.regex, url)
            && (c.operation.Some? ==> c.operation.value in c.path.operations && c.operation.value.verb == verb)
            && (c.operation.None? ==> verb == "OPTIONS" && c.api.cors)
  {
    AdmittedIsEntitled(apis, url, verb, test, reports, planId, status);
    var places := MatchesArePlaces(apis, url, verb, test);
  }
}
