/** Security requirements are alternatives, each a conjunction of schemes, evaluated by
    callbacks that may answer in any order and share their variables. Both levels iterate by
    `async.forEach`: every item is started, the first error reaches the final callback at
    once, otherwise the final callback runs when all items have completed, and never twice. */
module EvalSecurity {

  /** What becomes of one scheme: its handler passes or fails, or it has no definition. */
  datatype Outcome = Pass | Fail | Missing

  /** The schemes of each requirement. */
  type Requirements = seq<seq<Outcome>>

  /** A requirement is started, or one of its schemes calls back. */
  datatype Event = Start(req: nat) | Answer(req: nat, scheme: nat)

  /** What the final callback receives. */
  datatype Verdict = Waiting | Reported(error: bool, pass: bool)

  /** One inner iteration: completed schemes, and whether its final callback ran. */
  datatype Inner = Inner(completed: nat, fired: bool)

  datatype State = State(evalResult: bool, inner: seq<Inner>, completed: nat, verdict: Verdict, calls: nat)

  function Initial(reqs: Requirements): State {
    var s := State(reqs == [], seq(|reqs|, _ => Inner(0, false)), 0, Waiting, 0);
    if reqs == [] then Finish(s, false, false) else s
  }

  /** The outer final callback, which async runs at most once; a break is not an error. */
  function Finish(s: State, error: bool, isBreak: bool): State {
    if s.verdict.Reported? then s
    else s.(verdict := Reported(error && !isBreak, s.evalResult), calls := s.calls + 1)
  }

  /** One requirement calls back to the outer iteration. */
  function OuterDone(s: State, error: bool, isBreak: bool): State {
    if error then Finish(s, true, isBreak)
    else
      var t := s.(completed := s.completed + 1);
      if t.completed == |s.inner| then Finish(t, false, false) else t
  }

  /** The inner final callback of requirement i. */
  function InnerFinish(s: State, i: nat, error: bool, isBreak: bool): State
    requires i < |s.inner|
  {
    if s.inner[i].fired then s
    else
      var t := s.(inner := s.inner[i := s.inner[i].(fired := true)]);
      if !error then OuterDone(t.(evalResult := true), true, true)
      else if isBreak then OuterDone(t, false, false)
      else OuterDone(t, true, false)
  }

  /** A scheme of requirement i calls back. */
  function InnerDone(s: State, i: nat, width: nat, o: Outcome): State
    requires i < |s.inner|
  {
    match o
    case Fail => InnerFinish(s, i, true, true)
    case Missing => InnerFinish(s, i, true, false)
    case Pass =>
      var t := s.(inner := s.inner[i := s.inner[i].(completed := s.inner[i].completed + 1)]);
      if t.inner[i].completed == width then InnerFinish(t, i, false, false) else t
  }

  /** Starting a requirement without schemes completes it. */
  function Step(reqs: Requirements, s: State, e: Event): State
    requires |s.inner| == |reqs| && InRange(reqs, e)
  {
    match e
    case Start(i) => if reqs[i] == [] then InnerFinish(s, i, false, false) else s
    case Answer(i, j) => InnerDone(s, i, |reqs[i]|, reqs[i][j])
  }

  predicate InRange(reqs: Requirements, e: Event) {
    e.req < |reqs| && (e.Answer? ==> e.scheme < |reqs[e.req]|)
  }

  lemma StepShape(reqs: Requirements, s: State, e: Event)
    requires |s.inner| == |reqs| && InRange(reqs, e)
    ensures |Step(reqs, s, e).inner| == |reqs|
  {}

  function Seen(events: seq<Event>): set<Event> { set e | e in events }

  /** Requirement k was started, which makes its schemes without definition call back at once. */
  predicate Settled(reqs: Requirements, seen: set<Event>, k: nat) {
    k < |reqs| && Start(k) in seen && forall j: nat | j < |reqs[k]| && reqs[k][j] == Missing :: Answer(k, j) in seen
  }

  /** The schemes of a requirement are started in order. */
  predicate InTurn(req: seq<Outcome>, seen: set<Event>, i: nat, j: nat)
    requires j <= |req|
  {
    forall h: nat | h < j && req[h] == Missing :: Answer(i, h) in seen
  }

  predicate AllSettled(reqs: Requirements, seen: set<Event>) { forall k: nat | k < |reqs| :: Settled(reqs, seen, k) }

  /** What may happen after the events seen. Requirements are started in order, in one go: until
      all have settled, only a handler of the latest one can have answered. */
  predicate MayFollow(reqs: Requirements, seen: set<Event>, e: Event) {
    && InRange(reqs, e) && e !in seen
    && match e
       case Start(i) => forall k: nat | k < i :: Settled(reqs, seen, k)
       case Answer(i, j) =>
         && Start(i) in seen && InTurn(reqs[i], seen, i, j)
         && (Start(i + 1) !in seen || AllSettled(reqs, seen))
  }

  /** A schedule of starts and answers; the latest event comes last. */
  predicate Schedule(reqs: Requirements, events: seq<Event>) {
    events != [] ==>
      var n := |events| - 1;
      Schedule(reqs, events[..n]) && MayFollow(reqs, Seen(events[..n]), events[n])
  }

  /** Everything has started and every handler has answered. */
  predicate Complete(reqs: Requirements, events: seq<Event>) {
    forall i | 0 <= i < |reqs| :: Start(i) in events && forall j | 0 <= j < |reqs[i]| :: Answer(i, j) in events
  }

  /** The state after a schedule. */
  function Run(reqs: Requirements, events: seq<Event>): (s: State)
    requires Schedule(reqs, events)
    ensures |s.inner| == |reqs|
  {
    if events == [] then Initial(reqs)
    else
      var n := |events| - 1;
      StepShape(reqs, Run(reqs, events[..n]), events[n]);
      Step(reqs, Run(reqs, events[..n]), events[n])
  }

  // ---- What the outcomes say ----------------------------------------------------------

  predicate AllPass(req: seq<Outcome>) { forall o <- req :: o == Pass }

  predicate SomePasses(reqs: Requirements) { reqs == [] || exists req <- reqs :: AllPass(req) }

  predicate SomeMissing(reqs: Requirements) { exists req <- reqs :: Missing in req }

  // ---- The invariant ------------------------------------------------------------------

  predicate Below(i: nat, n: nat) { i < n }

  function Range(n: nat): set<nat> { set i: nat | i < n && Below(i, n) }

  lemma {:induction false} RangeSize(n: nat)
    ensures |Range(n)| == n
  {
    if n > 0 {
      RangeSize(n - 1);
      assert Range(n) == Range(n - 1) + {n - 1};
    }
  }

  /** A part of a range is all of it when it is as large. */
  lemma FullRange(part: set<nat>, n: nat)
    requires part <= Range(n)
    ensures |part| <= n && (|part| == n <==> part == Range(n))
  {
    RangeSize(n);
    assert Range(n) == part + (Range(n) - part);
  }

  function Passed(req: seq<Outcome>, i: nat, seen: set<Event>): set<nat> {
    set j: nat | j < |req| && Answer(i, j) in seen && req[j] == Pass
  }

  predicate Erred(req: seq<Outcome>, i: nat, seen: set<Event>) {
    exists j: nat | j < |req| :: Answer(i, j) in seen && req[j] != Pass
  }

  predicate Fulfilled(req: seq<Outcome>, i: nat, seen: set<Event>) {
    Start(i) in seen && forall j: nat | j < |req| :: Answer(i, j) in seen && req[j] == Pass
  }

  function FiredSet(s: State): set<nat> { set i: nat | i < |s.inner| && s.inner[i].fired }

  predicate InnerOk(req: seq<Outcome>, i: nat, seen: set<Event>, n: Inner) {
    && n.completed == |Passed(req, i, seen)|
    && (n.fired <==> Erred(req, i, seen) || Fulfilled(req, i, seen))
  }

  predicate VerdictOk(reqs: Requirements, s: State)
    requires |s.inner| == |reqs|
  {
    match s.verdict
    case Waiting =>
      && s.calls == 0 && reqs != [] && !s.evalResult
      && s.completed == |FiredSet(s)| < |reqs|
      && forall i | 0 <= i < |reqs| && s.inner[i].fired :: Fail in reqs[i]
    case Reported(true, pass) => s.calls == 1 && !pass && SomeMissing(reqs)
    case Reported(false, true) => s.calls == 1 && SomePasses(reqs)
    case Reported(false, false) => s.calls == 1 && reqs != [] && forall req <- reqs :: Fail in req
  }

  predicate Inv(reqs: Requirements, seen: set<Event>, s: State) {
    && |s.inner| == |reqs|
    && (forall i | 0 <= i < |reqs| :: InnerOk(reqs[i], i, seen, s.inner[i]))
    && (forall e <- seen :: e.Answer? ==> Start(e.req) in seen)
    && (s.evalResult ==> SomePasses(reqs))
    && VerdictOk(reqs, s)
  }

  /** The inner iteration of requirement i after an event. */
  function After(req: seq<Outcome>, n: Inner, i: nat, e: Event): Inner
    requires e.req == i && e.Answer? ==> e.scheme < |req|
  {
    if e.req != i then n
    else match e
    case Start(_) => if req == [] then n.(fired := true) else n
    case Answer(_, j) =>
      if req[j] == Pass then Inner(n.completed + 1, n.fired || n.completed + 1 == |req|) else n.(fired := true)
  }

  lemma StepInner(reqs: Requirements, s: State, e: Event, i: nat)
    requires |s.inner| == |reqs| && InRange(reqs, e) && i < |reqs|
    ensures |Step(reqs, s, e).inner| == |reqs| && Step(reqs, s, e).inner[i] == After(reqs[i], s.inner[i], i, e)
  {}

  lemma PassKeepsInner(req: seq<Outcome>, i: nat, seen: set<Event>, n: Inner, j: nat)
    requires InnerOk(req, i, seen, n) && j < |req| && req[j] == Pass && Answer(i, j) !in seen && Start(i) in seen
    ensures InnerOk(req, i, seen + {Answer(i, j)}, After(req, n, i, Answer(i, j)))
  {
    var now := seen + {Answer(i, j)};
    var before, after := Passed(req, i, seen), Passed(req, i, now);
    assert after == before + {j} && j !in before;
    assert Erred(req, i, now) == Erred(req, i, seen);
    assert !Fulfilled(req, i, seen);
    PassedFulfils(req, i, now);
  }

  /** All schemes have passed when as many passed as there are. */
  lemma PassedFulfils(req: seq<Outcome>, i: nat, seen: set<Event>)
    requires Start(i) in seen
    ensures |Passed(req, i, seen)| == |req| <==> Fulfilled(req, i, seen)
  {
    FullRange(Passed(req, i, seen), |req|);
    if Passed(req, i, seen) == Range(|req|) {
      forall k: nat | k < |req| ensures Answer(i, k) in seen && req[k] == Pass { assert k in Range(|req|); }
    }
  }

  lemma ErrorKeepsInner(req: seq<Outcome>, i: nat, seen: set<Event>, n: Inner, j: nat)
    requires InnerOk(req, i, seen, n) && j < |req| && req[j] != Pass
    ensures InnerOk(req, i, seen + {Answer(i, j)}, After(req, n, i, Answer(i, j)))
  {
    var now := seen + {Answer(i, j)};
    assert Passed(req, i, now) == Passed(req, i, seen);
    assert Answer(i, j) in now;
  }

  lemma OtherKeepsInner(req: seq<Outcome>, i: nat, seen: set<Event>, n: Inner, e: Event)
    requires InnerOk(req, i, seen, n) && (e.req == i ==> e.Start?)
    requires e == Start(i) ==> forall j: nat | j < |req| :: Answer(i, j) !in seen
    ensures InnerOk(req, i, seen + {e}, After(req, n, i, e))
  {
    var now := seen + {e};
    assert Passed(req, i, now) == Passed(req, i, seen);
    assert Erred(req, i, now) == Erred(req, i, seen);
    if e != Start(i) { assert Fulfilled(req, i, now) == Fulfilled(req, i, seen); }
    else if req != [] { assert Answer(i, 0) !in now; }
  }

  predicate Next(reqs: Requirements, seen: set<Event>, e: Event) {
    InRange(reqs, e) && e !in seen && (e.Answer? ==> Start(e.req) in seen)
  }

  lemma StepKeepsInner(reqs: Requirements, seen: set<Event>, s: State, e: Event, i: nat)
    requires Inv(reqs, seen, s) && Next(reqs, seen, e) && i < |reqs|
    ensures |Step(reqs, s, e).inner| == |reqs| && InnerOk(reqs[i], i, seen + {e}, Step(reqs, s, e).inner[i])
  {
    StepInner(reqs, s, e, i);
    assert InnerOk(reqs[i], i, seen, s.inner[i]);
    if e.req == i && e.Answer? {
      if reqs[i][e.scheme] == Pass { PassKeepsInner(reqs[i], i, seen, s.inner[i], e.scheme); }
      else { ErrorKeepsInner(reqs[i], i, seen, s.inner[i], e.scheme); }
    } else {
      OtherKeepsInner(reqs[i], i, seen, s.inner[i], e);
    }
  }

  /** Requirement i's final callback keeps the verdict right. */
  lemma FinishKeepsVerdict(reqs: Requirements, s: State, i: nat, error: bool, isBreak: bool)
    requires |s.inner| == |reqs| && i < |reqs| && VerdictOk(reqs, s) && (s.evalResult ==> SomePasses(reqs))
    requires !error ==> AllPass(reqs[i])
    requires error && isBreak ==> Fail in reqs[i]
    requires error && !isBreak ==> Missing in reqs[i]
    ensures var t := InnerFinish(s, i, error, isBreak);
            |t.inner| == |reqs| && VerdictOk(reqs, t) && (t.evalResult ==> SomePasses(reqs))
  {
    if !s.inner[i].fired {
      var t := s.(inner := s.inner[i := s.inner[i].(fired := true)]);
      assert FiredSet(t) == FiredSet(s) + {i};
      assert FiredSet(t) <= Range(|reqs|);
      FullRange(FiredSet(t), |reqs|);
      if error && isBreak && FiredSet(t) == Range(|reqs|) && s.verdict.Waiting? {
        forall k | 0 <= k < |reqs| ensures Fail in reqs[k] { assert k in FiredSet(t); }
      }
    }
  }

  lemma StepKeepsVerdict(reqs: Requirements, seen: set<Event>, s: State, e: Event)
    requires Inv(reqs, seen, s) && Next(reqs, seen, e)
    ensures var t := Step(reqs, s, e);
            |t.inner| == |reqs| && VerdictOk(reqs, t) && (t.evalResult ==> SomePasses(reqs))
  {
    var i := e.req;
    match e
    case Start(_) =>
      if reqs[i] == [] { FinishKeepsVerdict(reqs, s, i, false, false); }
    case Answer(_, j) =>
      if reqs[i][j] == Pass {
        var t := s.(inner := s.inner[i := s.inner[i].(completed := s.inner[i].completed + 1)]);
        assert FiredSet(t) == FiredSet(s);
        if t.inner[i].completed == |reqs[i]| {
          StepKeepsInner(reqs, seen, s, e, i);
          FulfilledPasses(reqs[i], i, seen + {e}, t.inner[i].completed);
          FinishKeepsVerdict(reqs, t, i, false, false);
        }
      } else {
        FinishKeepsVerdict(reqs, s, i, true, reqs[i][j] == Fail);
      }
  }

  lemma FulfilledPasses(req: seq<Outcome>, i: nat, seen: set<Event>, completed: nat)
    requires completed == |Passed(req, i, seen)| == |req|
    ensures AllPass(req)
  {
    assert Passed(req, i, seen) <= Range(|req|);
    FullRange(Passed(req, i, seen), |req|);
    forall k | 0 <= k < |req| ensures req[k] == Pass { assert k in Range(|req|); }
  }

  lemma StepKeepsInv(reqs: Requirements, seen: set<Event>, s: State, e: Event)
    requires Inv(reqs, seen, s) && Next(reqs, seen, e)
    ensures Inv(reqs, seen + {e}, Step(reqs, s, e))
  {
    forall i | 0 <= i < |reqs|
      ensures |Step(reqs, s, e).inner| == |reqs| && InnerOk(reqs[i], i, seen + {e}, Step(reqs, s, e).inner[i])
    {
      StepKeepsInner(reqs, seen, s, e, i);
    }
    StepKeepsVerdict(reqs, seen, s, e);
  }

  lemma {:induction false} RunKeepsInv(reqs: Requirements, events: seq<Event>)
    requires Schedule(reqs, events)
    ensures Inv(reqs, Seen(events), Run(reqs, events))
  {
    if events == [] {
      InitialInv(reqs);
      assert Seen(events) == {};
    } else {
      var n := |events| - 1;
      RunKeepsInv(reqs, events[..n]);
      StepKeepsInv(reqs, Seen(events[..n]), Run(reqs, events[..n]), events[n]);
      assert events == events[..n] + [events[n]];
      assert Seen(events) == Seen(events[..n]) + {events[n]};
    }
  }

  lemma InitialInv(reqs: Requirements)
    ensures Inv(reqs, {}, Initial(reqs))
  {
    var s := Initial(reqs);
    assert FiredSet(s) == {};
    forall i | 0 <= i < |reqs| ensures InnerOk(reqs[i], i, {}, s.inner[i]) {
      assert Passed(reqs[i], i, {}) == {};
    }
  }

  // ---- Results --------------------------------------------------------------------------

  /** In every interleaving the final callback runs at most once. */
  lemma {:induction false} CallsBackAtMostOnce(reqs: Requirements, events: seq<Event>)
    requires Schedule(reqs, events)
    ensures Run(reqs, events).calls <= 1 && (Run(reqs, events).calls == 1 <==> Run(reqs, events).verdict.Reported?)
  {
    RunKeepsInv(reqs, events);
  }

  /** When all handlers have answered, it has run. */
  lemma CallsBackOnce(reqs: Requirements, events: seq<Event>)
    requires Schedule(reqs, events) && Complete(reqs, events)
    ensures Run(reqs, events).calls == 1
  {
    RunKeepsInv(reqs, events);
    var s := Run(reqs, events);
    if s.verdict.Waiting? {
      forall i | 0 <= i < |reqs| ensures s.inner[i].fired {
        assert InnerOk(reqs[i], i, Seen(events), s.inner[i]);
        if !Fulfilled(reqs[i], i, Seen(events)) {
          var j: nat :| j < |reqs[i]| && !(Answer(i, j) in Seen(events) && reqs[i][j] == Pass);
          assert Answer(i, j) in Seen(events) && reqs[i][j] != Pass;
        }
      }
      assert FiredSet(s) == Range(|reqs|);
      RangeSize(|reqs|);
    }
  }

  /** With every scheme defined, whatever is reported, in whatever order the handlers answer,
      is no error and the disjunction of conjunctions that the requirements stand for. */
  lemma VerdictIsOrOfAnds(reqs: Requirements, events: seq<Event>)
    requires Schedule(reqs, events) && !SomeMissing(reqs)
    ensures Run(reqs, events).verdict in {Waiting, Reported(false, SomePasses(reqs))}
  {
    RunKeepsInv(reqs, events);
  }

  /** Even with missing definitions, a pass is only reported when some requirement passes,
      and an error never comes with a pass. */
  lemma PassIsDeserved(reqs: Requirements, events: seq<Event>)
    requires Schedule(reqs, events) && Run(reqs, events).verdict.Reported? && Run(reqs, events).verdict.pass
    ensures SomePasses(reqs) && !Run(reqs, events).verdict.error
  {
    RunKeepsInv(reqs, events);
  }

  // ---- Schedules ----------------------------------------------------------------------------

  /** The events of a longer schedule. */
  lemma SeenGrows(events: seq<Event>)
    requires events != []
    ensures Seen(events) == Seen(events[..|events| - 1]) + {events[|events| - 1]}
  {
    assert events == events[..|events| - 1] + [events[|events| - 1]];
  }

  /** When a requirement has started, those before it have settled. */
  lemma {:induction false} StartedInOrder(reqs: Requirements, events: seq<Event>, i: nat, k: nat)
    requires Schedule(reqs, events) && Start(i) in events && k < i
    ensures Settled(reqs, Seen(events), k)
  {
    SeenGrows(events);
    var front := events[..|events| - 1];
    if Start(i) in front { StartedInOrder(reqs, front, i, k); }
    assert Settled(reqs, Seen(front), k);
  }

  function AllEvents(reqs: Requirements): set<Event> {
    (set i: nat | i < |reqs| && Below(i, |reqs|) :: Start(i))
    + (set i: nat, j: nat | i < |reqs| && j < |reqs[i]| && Below(i, |reqs|) && Below(j, |reqs[i]|) :: Answer(i, j))
  }

  lemma InRangeIsEvent(reqs: Requirements, e: Event)
    requires InRange(reqs, e)
    ensures e in AllEvents(reqs)
  {
    assert Below(e.req, |reqs|);
    if e.Answer? { assert Below(e.scheme, |reqs[e.req]|); }
  }

  /** The first scheme without definition that has not called back. */
  lemma {:induction false} FirstUnsettled(req: seq<Outcome>, seen: set<Event>, i: nat, j: nat) returns (h: nat)
    requires j < |req| && req[j] == Missing && Answer(i, j) !in seen
    ensures h < |req| && Answer(i, h) !in seen && InTurn(req, seen, i, h)
  {
    if InTurn(req, seen, i, j) {
      h := j;
    } else {
      var g: nat :| g < j && req[g] == Missing && Answer(i, g) !in seen;
      h := FirstUnsettled(req, seen, i, g);
    }
  }

  /** The first requirement that has not settled. */
  lemma {:induction false} FirstUnready(reqs: Requirements, seen: set<Event>, i: nat) returns (k: nat)
    requires i < |reqs| && !Settled(reqs, seen, i)
    ensures k <= i && !Settled(reqs, seen, k) && forall h: nat | h < k :: Settled(reqs, seen, h)
  {
    if h: nat :| h < i && !Settled(reqs, seen, h) { k := FirstUnready(reqs, seen, h); } else { k := i; }
  }

  /** As long as something has not happened, something may happen next. */
  lemma Progress(reqs: Requirements, events: seq<Event>) returns (e: Event)
    requires Schedule(reqs, events) && !Complete(reqs, events)
    ensures MayFollow(reqs, Seen(events), e)
  {
    var seen := Seen(events);
    if AllSettled(reqs, seen) {
      forall i | 0 <= i < |reqs| ensures Start(i) in events { assert Settled(reqs, seen, i); }
      var i: nat, j: nat :| i < |reqs| && j < |reqs[i]| && Answer(i, j) !in events;
      assert Settled(reqs, seen, i);
      e := Answer(i, j);
    } else {
      var i: nat :| i < |reqs| && !Settled(reqs, seen, i);
      var k := FirstUnready(reqs, seen, i);
      if Start(k) in seen {
        var g: nat :| g < |reqs[k]| && reqs[k][g] == Missing && Answer(k, g) !in seen;
        var h := FirstUnsettled(reqs[k], seen, k, g);
        if Start(k + 1) in events { StartedInOrder(reqs, events, k + 1, k); }
        e := Answer(k, h);
      } else {
        e := Start(k);
      }
    }
  }

  /** Every schedule goes on to a complete one. */
  lemma {:induction false} Completed(reqs: Requirements, events: seq<Event>) returns (full: seq<Event>)
    requires Schedule(reqs, events)
    ensures Schedule(reqs, full) && Complete(reqs, full) && events <= full
    decreases |AllEvents(reqs) - Seen(events)|
  {
    if Complete(reqs, events) {
      full := events;
    } else {
      var e := Progress(reqs, events);
      var next := events + [e];
      assert next[..|events|] == events;
      SeenGrows(next);
      InRangeIsEvent(reqs, e);
      assert AllEvents(reqs) - Seen(next) == AllEvents(reqs) - Seen(events) - {e};
      full := Completed(reqs, next);
    }
  }

  /** What was reported stays. */
  lemma {:induction false} VerdictIsFinal(reqs: Requirements, events: seq<Event>, full: seq<Event>)
    requires Schedule(reqs, full) && events <= full
    ensures Schedule(reqs, events)
    ensures Run(reqs, events).verdict.Reported? ==> Run(reqs, full).verdict == Run(reqs, events).verdict
  {
    if events != full {
      var n := |full| - 1;
      VerdictIsFinal(reqs, events, full[..n]);
    }
  }

  // ---- Errors -----------------------------------------------------------------------------

  /** A requirement with an undefined scheme comes before every empty one. */
  predicate MissingLeads(reqs: Requirements) {
    exists i | 0 <= i < |reqs| :: Missing in reqs[i] && forall k | 0 <= k < i :: reqs[k] != []
  }

  /** An empty requirement that has started has had its pass reported. */
  lemma EmptyPasses(reqs: Requirements, events: seq<Event>, k: nat)
    requires Schedule(reqs, events) && k < |reqs| && reqs[k] == [] && Start(k) in events
    ensures Run(reqs, events).verdict.Reported?
  {
    RunKeepsInv(reqs, events);
    assert InnerOk(reqs[k], k, Seen(events), Run(reqs, events).inner[k]);
    assert Fulfilled(reqs[k], k, Seen(events));
  }

  lemma {:induction false} ErrorNeedsMissingFirst(reqs: Requirements, events: seq<Event>)
    requires Schedule(reqs, events) && Run(reqs, events).verdict.Reported? && Run(reqs, events).verdict.error
    ensures MissingLeads(reqs)
  {
    var n := |events| - 1;
    var front := events[..n];
    if Run(reqs, front).verdict.Reported? {
      VerdictIsFinal(reqs, front, events);
      ErrorNeedsMissingFirst(reqs, front);
    } else {
      var e := events[n];
      assert e.Answer? && reqs[e.req][e.scheme] == Missing;
      forall k | 0 <= k < e.req ensures reqs[k] != [] {
        StartedInOrder(reqs, front, e.req, k);
        if reqs[k] == [] { EmptyPasses(reqs, front, k); }
      }
    }
  }

  function Starts(n: nat): seq<Event> { if n == 0 then [] else Starts(n - 1) + [Start(n - 1)] }

  lemma {:induction false} StartsMembers(n: nat, e: Event)
    ensures e in Starts(n) <==> e.Start? && e.req < n
  {
    if n > 0 { StartsMembers(n - 1, e); }
  }

  /** The latest event of a schedule. */
  lemma RunPush(reqs: Requirements, events: seq<Event>, e: Event)
    requires Schedule(reqs, events) && MayFollow(reqs, Seen(events), e)
    ensures Schedule(reqs, events + [e]) && Run(reqs, events + [e]) == Step(reqs, Run(reqs, events), e)
  {
    assert (events + [e])[..|events|] == events;
  }

  /** Starting requirements that are neither empty nor lack definitions reports nothing. */
  lemma {:induction false} StartsAreQuiet(reqs: Requirements, n: nat)
    requires n <= |reqs| && (forall k | 0 <= k < n :: reqs[k] != [])
    requires (forall k | 0 <= k < n - 1 :: Missing !in reqs[k])
    ensures Schedule(reqs, Starts(n)) && Run(reqs, Starts(n)) == Initial(reqs)
  {
    if n > 0 {
      StartsAreQuiet(reqs, n - 1);
      StartMayFollow(reqs, n - 1);
      RunPush(reqs, Starts(n - 1), Start(n - 1));
    }
  }

  lemma StartMayFollow(reqs: Requirements, n: nat)
    requires n < |reqs| && forall k | 0 <= k < n :: Missing !in reqs[k]
    ensures MayFollow(reqs, Seen(Starts(n)), Start(n))
  {
    StartsMembers(n, Start(n));
    forall k: nat | k < n ensures Settled(reqs, Seen(Starts(n)), k) { StartsMembers(n, Start(k)); }
  }

  lemma MissingMayFollow(reqs: Requirements, i: nat, j: nat)
    requires i < |reqs| && j < |reqs[i]| && forall h | 0 <= h < j :: reqs[i][h] != Missing
    ensures MayFollow(reqs, Seen(Starts(i + 1)), Answer(i, j))
  {
    StartsMembers(i + 1, Start(i));
    StartsMembers(i + 1, Start(i + 1));
    StartsMembers(i + 1, Answer(i, j));
  }

  lemma MissingReports(reqs: Requirements, i: nat, j: nat)
    requires i < |reqs| && j < |reqs[i]| && reqs[i][j] == Missing
    ensures Step(reqs, Initial(reqs), Answer(i, j)).verdict == Reported(true, false)
  {}

  /** The first requirement with an undefined scheme reports the error as it is started. */
  lemma MissingFirst(reqs: Requirements, i: nat, j: nat)
    requires i < |reqs| && j < |reqs[i]| && reqs[i][j] == Missing
    requires forall k | 0 <= k < i :: reqs[k] != [] && Missing !in reqs[k]
    requires forall h | 0 <= h < j :: reqs[i][h] != Missing
    ensures Schedule(reqs, Starts(i + 1) + [Answer(i, j)])
    ensures Run(reqs, Starts(i + 1) + [Answer(i, j)]).verdict == Reported(true, false)
  {
    StartsAreQuiet(reqs, i + 1);
    MissingMayFollow(reqs, i, j);
    RunPush(reqs, Starts(i + 1), Answer(i, j));
    MissingReports(reqs, i, j);
  }

  lemma {:induction false} FirstMissing(reqs: Requirements, i: nat) returns (k: nat, j: nat)
    requires i < |reqs| && Missing in reqs[i]
    ensures k <= i && j < |reqs[k]| && reqs[k][j] == Missing
    ensures (forall h | 0 <= h < k :: Missing !in reqs[h]) && forall h | 0 <= h < j :: reqs[k][h] != Missing
  {
    if h: nat :| h < i && Missing in reqs[h] {
      k, j := FirstMissing(reqs, h);
    } else {
      k := i;
      j := FirstOf(reqs[i]);
    }
  }

  lemma {:induction false} FirstOf(req: seq<Outcome>) returns (j: nat)
    requires Missing in req
    ensures j < |req| && req[j] == Missing && forall h | 0 <= h < j :: req[h] != Missing
  {
    if req[0] == Missing {
      j := 0;
    } else {
      j := FirstOf(req[1..]);
      assert forall h | 0 < h <= j :: req[h] == req[1..][h - 1];
      j := j + 1;
    }
  }

  /** Some complete evaluation reports an error exactly when a requirement with an undefined
      scheme comes before every empty requirement. */
  lemma ErrorsComeFromMissingDefinitions(reqs: Requirements)
    ensures MissingLeads(reqs)
      <==> exists events: seq<Event> ::
          Schedule(reqs, events) && Complete(reqs, events) && Run(reqs, events).verdict == Reported(true, false)
  {
    if MissingLeads(reqs) {
      var i :| 0 <= i < |reqs| && Missing in reqs[i] && forall k | 0 <= k < i :: reqs[k] != [];
      var k, j := FirstMissing(reqs, i);
      MissingFirst(reqs, k, j);
      var full := Completed(reqs, Starts(k + 1) + [Answer(k, j)]);
      VerdictIsFinal(reqs, Starts(k + 1) + [Answer(k, j)], full);
    }
    forall events: seq<Event> |
        Schedule(reqs, events) && Complete(reqs, events) && Run(reqs, events).verdict == Reported(true, false)
      ensures MissingLeads(reqs)
    {
      ErrorNeedsMissingFirst(reqs, events);
    }
  }

  /** An empty requirement in front hides a missing definition from every evaluation. */
  lemma EmptyRequirementHidesMissing(events: seq<Event>)
    requires Schedule([[], [Missing]], events) && Complete([[], [Missing]], events)
    ensures SomeMissing([[], [Missing]]) && Run([[], [Missing]], events).verdict == Reported(false, true)
  {
    var reqs: Requirements := [[], [Missing]];
    assert reqs[0] == [] && reqs[1] == [Missing] && Missing in reqs[1];
    RunKeepsInv(reqs, events);
    CallsBackOnce(reqs, events);
    if Run(reqs, events).verdict.error { ErrorNeedsMissingFirst(reqs, events); }
    assert Fail !in reqs[0];
  }

  // ---- The shared variables in place ------------------------------------------------------

  /** One call of evalSecurity: the variables its callbacks share, and the counters that the two
      levels of iteration keep. */
  class Evaluation {
    const reqs: Requirements
    var evalResult: bool
    var completed: nat
    var innerCompleted: seq<nat>
    var innerFired: seq<bool>
    var verdict: Verdict
    var calls: nat

    ghost predicate Valid()
      reads this
    {
      |innerCompleted| == |innerFired| == |reqs|
    }

    ghost function View(): (s: State)
      requires Valid()
      reads this
      ensures |s.inner| == |reqs|
    {
      State(evalResult,
            seq(|reqs|, i requires 0 <= i < |reqs| reads this requires Valid() =>
                Inner(innerCompleted[i], innerFired[i])),
            completed, verdict, calls)
    }

    constructor (securityReqs: Requirements)
      ensures Valid() && reqs == securityReqs && View() == Initial(securityReqs)
    {
      reqs := securityReqs;
      evalResult, completed, verdict, calls := securityReqs == [], 0, Waiting, 0;
      innerCompleted, innerFired := seq(|securityReqs|, _ => 0), seq(|securityReqs|, _ => false);
      new;
      if |reqs| == 0 { FinalCallback(false, false); }
    }

    method FinalCallback(error: bool, isBreak: bool)
      requires Valid()
      modifies `verdict, `calls
      ensures Valid() && View() == Finish(old(View()), error, isBreak)
    {
      if verdict.Waiting? {
        verdict := Reported(error && !isBreak, evalResult);
        calls := calls + 1;
      }
    }

    method OutAsyncCB(error: bool, isBreak: bool)
      requires Valid()
      modifies `verdict, `calls, `completed
      ensures Valid() && View() == OuterDone(old(View()), error, isBreak)
    {
      if error {
        FinalCallback(true, isBreak);
      } else {
        completed := completed + 1;
        if completed == |reqs| { FinalCallback(false, false); }
      }
    }

    method InnerCallback(i: nat, error: bool, isBreak: bool)
      requires Valid() && i < |reqs|
      modifies this
      ensures Valid() && View() == InnerFinish(old(View()), i, error, isBreak)
    {
      if innerFired[i] { return; }
      ghost var s := View();
      innerFired := innerFired[i := true];
      assert View() == s.(inner := s.inner[i := s.inner[i].(fired := true)]);
      if error {
        if isBreak { OutAsyncCB(false, false); } else { OutAsyncCB(true, false); }
      } else {
        evalResult := true;
        OutAsyncCB(true, true);
      }
    }

    /** Requirement i is started; with no schemes its iteration is over. */
    method StartRequirement(i: nat)
      requires Valid() && i < |reqs|
      modifies this
      ensures Valid() && View() == Step(reqs, old(View()), Start(i))
    {
      if |reqs[i]| == 0 { InnerCallback(i, false, false); }
    }

    /** Scheme j of requirement i calls back. */
    method InAsyncCB(i: nat, j: nat)
      requires Valid() && i < |reqs| && j < |reqs[i]|
      modifies this
      ensures Valid() && View() == Step(reqs, old(View()), Answer(i, j))
    {
      match reqs[i][j]
      case Fail => InnerCallback(i, true, true);
      case Missing => InnerCallback(i, true, false);
      case Pass =>
        ghost var s := View();
        innerCompleted := innerCompleted[i := innerCompleted[i] + 1];
        assert View() == s.(inner := s.inner[i := s.inner[i].(completed := s.inner[i].completed + 1)]);
        if innerCompleted[i] == |reqs[i]| { InnerCallback(i, false, false); }
    }
  }
}
