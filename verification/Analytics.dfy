/** The analytics batching queue: events wait until the batch is full or the timer fires, then
    are posted together as lines of text. */
module Analytics {
  import Text

  const DEFAULT_SIZE := 50

  /** An event's two serialised objects, each a line without line breaks. */
  datatype Record = Record(create: string, event: string)

  predicate OneLine(r: Record) { '\n' !in r.create && '\n' !in r.event }

  predicate OneLines(batch: seq<Record>) { forall k | 0 <= k < |batch| :: OneLine(batch[k]) }

  datatype State = State(queue: seq<Record>, armed: bool, posted: seq<seq<Record>>)

  datatype Event = Arrives(record: Record) | TimerFires

  const INITIAL := State([], false, [])

  function Publish(s: State): State { State([], false, s.posted + [s.queue]) }

  /** A timer that is not armed does not fire. */
  function Step(size: int, s: State, e: Event): State {
    match e
    case Arrives(r) =>
      var q := s.(queue := s.queue + [r]);
      if |q.queue| >= size then Publish(q) else q.(armed := true)
    case TimerFires => if s.armed then Publish(s) else s
  }

  function Run(size: int, events: seq<Event>): State {
    if events == [] then INITIAL else Step(size, Run(size, events[..|events| - 1]), events[|events| - 1])
  }

  function Arrivals(events: seq<Event>): seq<Record> {
    if events == [] then []
    else Arrivals(events[..|events| - 1]) + Incoming(events[|events| - 1])
  }

  function Flat(batches: seq<seq<Record>>): seq<Record> {
    if batches == [] then [] else Flat(batches[..|batches| - 1]) + batches[|batches| - 1]
  }

  /** Between steps the queue is shorter than a batch, and the timer runs exactly while events
      wait. No batch is empty or over-full. */
  predicate Inv(size: int, s: State) {
    && (s.queue == [] || |s.queue| < size) && (s.armed <==> s.queue != [])
    && (forall k | 0 <= k < |s.posted| :: s.posted[k] != [] && (|s.posted[k]| <= size || |s.posted[k]| == 1))
  }

  lemma {:induction false} RunKeepsInv(size: int, events: seq<Event>)
    ensures Inv(size, Run(size, events))
  {
    if events != [] { RunKeepsInv(size, events[..|events| - 1]); }
  }

  lemma FlatPush(batches: seq<seq<Record>>, b: seq<Record>)
    ensures Flat(batches + [b]) == Flat(batches) + b
  {
    assert (batches + [b])[..|batches|] == batches;
  }

  /** The posted batches followed by the queue are the events in arrival order, each once. */
  lemma {:induction false} Conservation(size: int, events: seq<Event>)
    ensures var s := Run(size, events); Flat(s.posted) + s.queue == Arrivals(events)
  {
    if events != [] {
      var before := Run(size, events[..|events| - 1]);
      Conservation(size, events[..|events| - 1]);
      FlatPush(before.posted, before.queue);
      if events[|events| - 1].Arrives? { FlatPush(before.posted, before.queue + [events[|events| - 1].record]); }
    }
  }

  /** What arrives with an event. */
  function Incoming(e: Event): seq<Record> { if e.Arrives? then [e.record] else [] }

  /** A batch is posted when an arrival fills it or the timer fires while events wait, and only then; it
      holds everything that waits, and posted batches stay as they are. */
  lemma PostedWhenDue(size: int, events: seq<Event>, e: Event)
    ensures var s, t := Run(size, events), Run(size, events + [e]);
            if (e.Arrives? && |s.queue| + 1 >= size) || (e.TimerFires? && s.queue != [])
            then t.posted == s.posted + [s.queue + Incoming(e)] && t.queue == []
            else t.posted == s.posted && t.queue == s.queue + Incoming(e)
  {
    RunKeepsInv(size, events);
    assert (events + [e])[..|events|] == events;
    assert Run(size, events).queue + [] == Run(size, events).queue;
  }

  /** The k-th batch was posted by event i, at which the timer fired. */
  predicate TimedAt(size: int, events: seq<Event>, i: nat, k: nat) {
    && i < |events| && events[i].TimerFires?
    && |Run(size, events[..i]).posted| == k && |Run(size, events[..i + 1]).posted| == k + 1
  }

  /** A batch that is not full was posted by the timer. */
  lemma {:induction false} ShortBatchesAreTimed(size: int, events: seq<Event>, k: nat)
    requires k < |Run(size, events).posted| && |Run(size, events).posted[k]| < size
    ensures exists i: nat :: TimedAt(size, events, i, k)
  {
    if events != [] {
      var front, e := events[..|events| - 1], events[|events| - 1];
      assert events == front + [e];
      PostedWhenDue(size, front, e);
      if k < |Run(size, front).posted| {
        ShortBatchesAreTimed(size, front, k);
        var i: nat :| TimedAt(size, front, i, k);
        assert front[..i] == events[..i] && front[..i + 1] == events[..i + 1];
        assert TimedAt(size, events, i, k);
      } else {
        assert events[..|front|] == front && events[..|front| + 1] == events;
        assert TimedAt(size, events, |front|, k);
      }
    }
  }

  // ---- Serialisation ------------------------------------------------------------------

  function Data(r: Record): string { Text.Join([r.create, r.event], '\n') }

  function AllData(batch: seq<Record>): seq<string> {
    if batch == [] then [] else AllData(batch[..|batch| - 1]) + [Data(batch[|batch| - 1])]
  }

  function Body(batch: seq<Record>): string { Text.Join(AllData(batch), '\n') + ['\n'] }

  function Bodies(batches: seq<seq<Record>>): seq<string> {
    if batches == [] then [] else Bodies(batches[..|batches| - 1]) + [Body(batches[|batches| - 1])]
  }

  function Lines(batch: seq<Record>): seq<string> {
    if batch == [] then [] else [batch[0].create, batch[0].event] + Lines(batch[1..])
  }

  /** Pair up the lines again. */
  function Unpack(lines: seq<string>): seq<Record> {
    if |lines| < 2 then [] else [Record(lines[0], lines[1])] + Unpack(lines[2..])
  }

  lemma {:induction false} AllDataCons(batch: seq<Record>)
    requires batch != []
    ensures AllData(batch) == [Data(batch[0])] + AllData(batch[1..])
  {
    if |batch| > 1 {
      AllDataCons(batch[..|batch| - 1]);
      assert batch[..|batch| - 1][1..] == batch[1..][..|batch| - 2];
    }
  }

  lemma DataText(r: Record)
    ensures Data(r) == r.create + ['\n'] + r.event
  {
    assert [r.create, r.event][1..] == [r.event] && Text.Join([r.event], '\n') == r.event;
  }

  lemma LinesSplit(a: string, b: string, tail: string)
    requires '\n' !in a && '\n' !in b
    ensures Text.Split(a + ['\n'] + b + ['\n'] + tail, '\n') == [a, b] + Text.Split(tail, '\n')
  {
    var more := b + ['\n'] + tail;
    assert a + ['\n'] + b + ['\n'] + tail == a + ['\n'] + more;
    Text.SplitWord(a, more, '\n');
    Text.SplitWord(b, tail, '\n');
  }

  lemma DataSplits(r: Record, tail: string)
    requires OneLine(r)
    ensures Text.Split(Data(r) + ['\n'] + tail, '\n') == [r.create, r.event] + Text.Split(tail, '\n')
  {
    DataText(r);
    LinesSplit(r.create, r.event, tail);
  }

  lemma BodyUnfolds(batch: seq<Record>)
    requires batch != []
    ensures Body(batch) == Data(batch[0]) + ['\n'] + (if |batch| == 1 then "" else Body(batch[1..]))
  {
    AllDataCons(batch);
    if |batch| > 1 {
      AllDataCons(batch[1..]);
      assert AllData(batch)[1..] == AllData(batch[1..]);
      assert Text.Join(AllData(batch), '\n') == Data(batch[0]) + ['\n'] + Text.Join(AllData(batch[1..]), '\n');
    } else {
      assert AllData(batch) == [Data(batch[0])];
    }
  }

  /** The lines of a posted body, with an empty one after the final line break. */
  lemma {:induction false} BodySplits(batch: seq<Record>)
    requires batch != [] && OneLines(batch)
    ensures Text.Split(Body(batch), '\n') == Lines(batch) + [""]
  {
    BodyUnfolds(batch);
    DataSplits(batch[0], if |batch| == 1 then "" else Body(batch[1..]));
    if |batch| > 1 { BodySplits(batch[1..]); }
    assert Lines(batch) == [batch[0].create, batch[0].event] + Lines(batch[1..]);
  }

  lemma {:induction false} UnpackLines(batch: seq<Record>)
    ensures Unpack(Lines(batch) + [""]) == batch
  {
    if batch != [] {
      assert (Lines(batch) + [""])[2..] == Lines(batch[1..]) + [""];
      UnpackLines(batch[1..]);
    }
  }

  /** What the receiver reads from the posted bodies. */
  function Received(bodies: seq<string>): seq<Record> {
    if bodies == [] then []
    else Received(bodies[..|bodies| - 1]) + Unpack(Text.Split(bodies[|bodies| - 1], '\n'))
  }

  lemma {:induction false} ReceivedIsPosted(batches: seq<seq<Record>>)
    requires forall k | 0 <= k < |batches| :: batches[k] != [] && OneLines(batches[k])
    ensures Received(Bodies(batches)) == Flat(batches)
  {
    if batches != [] {
      var last := batches[|batches| - 1];
      ReceivedIsPosted(batches[..|batches| - 1]);
      assert Bodies(batches)[..|Bodies(batches)| - 1] == Bodies(batches[..|batches| - 1]);
      BodySplits(last);
      UnpackLines(last);
    }
  }

  lemma {:induction false} RecordsComeFromArrivals(size: int, events: seq<Event>)
    requires forall k | 0 <= k < |events| :: events[k].Arrives? ==> OneLine(events[k].record)
    ensures var s := Run(size, events);
            OneLines(s.queue) && forall k | 0 <= k < |s.posted| :: OneLines(s.posted[k])
  {
    if events != [] { RecordsComeFromArrivals(size, events[..|events| - 1]); }
  }

  /** Reading every posted body line by line gives all events that are no longer waiting, in
      arrival order, each once. */
  lemma NothingIsLost(size: int, events: seq<Event>)
    requires forall k | 0 <= k < |events| :: events[k].Arrives? ==> OneLine(events[k].record)
    ensures var s := Run(size, events); Received(Bodies(s.posted)) + s.queue == Arrivals(events)
  {
    RunKeepsInv(size, events);
    RecordsComeFromArrivals(size, events);
    ReceivedIsPosted(Run(size, events).posted);
    Conservation(size, events);
  }

  // ---- The queue in place ---------------------------------------------------------------

  class Queue {
    const queueSize: int
    var pushQueue: seq<string>
    var pushTimer: bool
    var posts: seq<string>
    ghost var view: State

    /** The fields hold the text of the abstract state. */
    ghost predicate Valid()
      reads this
    {
      pushQueue == AllData(view.queue) && pushTimer == view.armed && posts == Bodies(view.posted)
    }

    constructor (batchSize: int)
      ensures Valid() && view == INITIAL && queueSize == (if batchSize == 0 then 50 else batchSize)
    {
      queueSize := if batchSize == 0 then DEFAULT_SIZE else batchSize;
      pushQueue, pushTimer, posts := [], false, [];
      view := INITIAL;
    }

    method ProcessApiEvent(event: Record)
      requires Valid()
      modifies this
      ensures Valid() && view == Step(queueSize, old(view), Arrives(event))
    {
      var data := Text.Join([event.create, event.event], '\n');
      pushQueue := pushQueue + [data];
      view := view.(queue := view.queue + [event]);
      assert |AllData(view.queue)| == |view.queue| by { AllDataLength(view.queue); }
      if |pushQueue| >= queueSize {
        if pushTimer { pushTimer := false; view := view.(armed := false); }
        BatchPublish();
      } else if !pushTimer {
        pushTimer, view := true, view.(armed := true);
      }
    }

    method BatchPublish()
      requires Valid()
      modifies this
      ensures Valid() && view == Publish(old(view))
    {
      var body := Text.Join(pushQueue, '\n') + ['\n'];
      pushQueue := [];
      posts := posts + [body];
      pushTimer := false;
      view := Publish(view);
      assert view.posted[..|view.posted| - 1] == old(view).posted;
    }

    method TimerExpires()
      requires Valid()
      modifies this
      ensures Valid() && view == Step(queueSize, old(view), TimerFires)
    {
      if pushTimer { BatchPublish(); }
    }
  }

  lemma {:induction false} AllDataLength(batch: seq<Record>)
    ensures |AllData(batch)| == |batch|
  {
    if batch != [] { AllDataLength(batch[..|batch| - 1]); }
  }
}
