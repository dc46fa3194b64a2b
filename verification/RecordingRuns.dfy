/** Two viewers, one recording: runs in which a stop from the other viewer does its damage. */
module RecordingRuns {
  import opened Wrappers
  import opened SampleFanout
  import opened RecordingControl

  ghost predicate Reachable(st: State) { exists events :: IsRun(INITIAL, events) && After(INITIAL, events) == st }

  lemma {:induction false} RunMore(st: State, events: seq<Event>, e: Event)
    requires IsRun(st, events) && CanHappen(After(st, events), e)
    ensures IsRun(st, events + [e]) && After(st, events + [e]) == Happen(After(st, events), e)
    decreases events
  {
    hide CanHappen, Happen;
    if events == [] {
      assert [e][1..] == [];
      assert events + [e] == [e];
    } else {
      RunMore(Happen(st, events[0]), events[1..], e);
      assert (events + [e])[1..] == events[1..] + [e];
    }
  }

  lemma ReachMore(st: State, e: Event)
    requires Reachable(st) && CanHappen(st, e)
    ensures Reachable(Happen(st, e))
  {
    hide IsRun, After, CanHappen, Happen;
    var events :| IsRun(INITIAL, events) && After(INITIAL, events) == st;
    RunMore(INITIAL, events, e);
  }

  lemma Initially()
    ensures Reachable(INITIAL)
  {
    assert IsRun(INITIAL, []) && After(INITIAL, []) == INITIAL;
  }

  // ---------- whole operations, with nothing else happening meanwhile ----------

  predicate AtRest(st: State) { st.task == Idle && st.lock == Free }

  /** The list edit of an operation does not care what else goes on. */
  lemma RemoveAlike(st: State, st': State, p: Pair)
    requires st'.list == st.list && st'.entries == st.entries && st'.produced == st.produced
    ensures RemovePair(st', p) == st'.(list := RemovePair(st, p).list, entries := RemovePair(st, p).entries)
  {
  }

  /** The five steps of an operation from its begin to its conclusion. */
  lemma FiveSteps(st: State)
    requires Reachable(st) && MainCanStep(st) && st.lock == Free && st.task.phase == Begin && st.task.op != Freeing
    ensures var op, i := st.task.op, st.task.session;
      var edited := Edit(Prepare(st, op, i), op, i).(task := Task(op, i, Released));
      i < |edited.sessions| && Reachable(Conclude(edited, op, i)) && edited.lock == Free
  {
    hide Reachable, AppendPair, RemovePair;
    var op, i := st.task.op, st.task.session;
    ReachMore(st, Continue);
    var s2 := MainStep(st);
    ReachMore(s2, Continue);
    var s3 := MainStep(s2);
    ReachMore(s3, Continue);
    var s4 := MainStep(s3);
    EditShape(s3, PairOf(op, i));
    ReachMore(s4, Continue);
    var s5 := MainStep(s4);
    ReachMore(s5, Continue);
    assert s5 == Edit(Prepare(st, op, i), op, i).(task := Task(op, i, Released)) by {
      var p := PairOf(op, i);
      AppendAlike(Prepare(st, op, i), s3, p);
      RemoveAlike(Prepare(st, op, i), s3, p);
      EditShape(Prepare(st, op, i), p);
    }
  }

  lemma AppendAlike(st: State, st': State, p: Pair)
    requires st'.list == st.list && st'.entries == st.entries && st'.produced == st.produced
    ensures AppendPair(st', p) == st'.(list := AppendPair(st, p).list, entries := AppendPair(st, p).entries)
  {
  }

  function Connects(st: State): State {
    var n := |st.sessions|;
    AppendPair(st.(sessions := st.sessions + [Session(false, true, Made(|st.entries|), NO_SOURCES, false)]),
      Pair(n, Send))
  }

  lemma ReachConnected(st: State)
    requires Reachable(st) && AtRest(st)
    ensures Reachable(Connects(st)) && AtRest(Connects(st))
  {
    hide Reachable;
    ReachMore(st, Connect);
    var st1 := Happen(st, Connect);
    FiveSteps(st1);
    var n := |st.sessions|;
    var edited := Edit(Prepare(st1, Connecting, n), Connecting, n).(task := Task(Connecting, n, Released));
    assert Conclude(edited, Connecting, n) == Connects(st);
  }

  function Starts(st: State, i: nat): State
    requires i < |st.sessions|
  {
    AppendPair(Prepare(st, Starting, i), Pair(i, Record))
  }

  lemma ReachStarted(st: State, i: nat)
    requires Reachable(st) && AtRest(st) && Connected(st, i) && !st.recording
    ensures Reachable(Starts(st, i)) && AtRest(Starts(st, i))
  {
    hide Reachable;
    ReachMore(st, StartRecord(i));
    var st1 := Happen(st, StartRecord(i));
    FiveSteps(st1);
    var edited := Edit(Prepare(st1, Starting, i), Starting, i).(task := Task(Starting, i, Released));
    assert Conclude(edited, Starting, i) == Starts(st, i);
  }

  function Stops(st: State, i: nat): State
    requires i < |st.sessions|
  {
    var cut := RemovePair(st, Pair(i, Record));
    cut.(recording := false, sessions := st.sessions[i := StoppedSession(st.sessions[i])])
  }

  lemma ReachStopped(st: State, i: nat)
    requires Reachable(st) && AtRest(st) && Connected(st, i)
    ensures Reachable(Stops(st, i)) && AtRest(Stops(st, i))
  {
    hide Reachable, RemovePair;
    ReachMore(st, StopRecord(i));
    var st1 := Happen(st, StopRecord(i));
    FiveSteps(st1);
    var p := Pair(i, Record);
    RemoveAlike(st, Prepare(st1, Stopping, i), p);
    EditShape(st, p);
    var edited := Edit(Prepare(st1, Stopping, i), Stopping, i).(task := Task(Stopping, i, Released));
    assert Conclude(edited, Stopping, i) == Stops(st, i);
  }

  /** A recording session closes: both pairs are removed once each, the references dropped, the record freed. */
  function Closes(st: State, i: nat): State
    requires i < |st.sessions|
  {
    var s := st.sessions[i];
    var gone := s.(inTable := false, freed := true, send := Drop(s.send), rec := Drop(s.rec), pipeline := false);
    var cut := RemovePair(RemovePair(st, Pair(i, Send)), Pair(i, Record));
    cut.(recording := false, sessions := st.sessions[i := gone])
  }

  lemma ReachClosed(st: State, i: nat)
    requires Reachable(st) && AtRest(st) && Connected(st, i) && st.sessions[i].pipeline
    ensures Reachable(Closes(st, i)) && AtRest(Closes(st, i))
  {
    hide Reachable, RemovePair;
    ReachMore(st, Close(i));
    var st1 := Happen(st, Close(i));
    FiveSteps(st1);
    var p, q := Pair(i, Send), Pair(i, Record);
    var cut := RemovePair(st, p);
    RemoveAlike(st, st1, p);
    EditShape(st, p);
    EditShape(cut, q);
    var sent := Conclude(Edit(st1, ClosingSend, i).(task := Task(ClosingSend, i, Released)), ClosingSend, i);
    FiveSteps(sent);
    RemoveAlike(cut, Prepare(sent, ClosingRecord, i), q);
    var edited := Edit(Prepare(sent, ClosingRecord, i), ClosingRecord, i).(task := Task(ClosingRecord, i, Released));
    var recorded := Conclude(edited, ClosingRecord, i);
    ReachMore(recorded, Continue);
    assert MainStep(recorded) == Closes(st, i);
  }

  // ---------- the run ----------

  function OneRecords(): State { Starts(Connects(Connects(INITIAL)), 0) }

  function Viewer(entry: nat): Session { Session(false, true, Made(entry), NO_SOURCES, false) }

  const NOTHING := Entry(Cut(0, 0), None, Feed([], []))

  lemma OneRecordsIs()
    ensures OneRecords() == State([Viewer(0).(rec := Made(2), pipeline := true), Viewer(1)],
      [Node(Pair(0, Send), 0), Node(Pair(1, Send), 1), Node(Pair(0, Record), 2)], Free, Idle, true,
      Feed([], []), [NOTHING, NOTHING, NOTHING])
  {
  }

  /** Viewer 0 records, and viewer 1 stops. */
  function OtherStopped(): State { OneRecords().(recording := false) }

  lemma OtherStoppedIs()
    ensures Stops(OneRecords(), 1) == OtherStopped()
  {
    OneRecordsIs();
    var st := OneRecords();
    assert st.list[0].pair != Pair(1, Record) && st.list[1].pair != Pair(1, Record) &&
      st.list[2].pair != Pair(1, Record);
    assert IndexOf(st.list, Pair(1, Record)) == 3;
    assert st.sessions[1 := st.sessions[1]] == st.sessions;
  }

  /** Viewer 0 starts again: its pair is on the list twice. */
  function Twice(): State { Starts(OtherStopped(), 0) }

  lemma TwiceIs()
    ensures Twice() == State([Viewer(0).(rec := Made(3), pipeline := true), Viewer(1)],
      [Node(Pair(0, Send), 0), Node(Pair(1, Send), 1), Node(Pair(0, Record), 2), Node(Pair(0, Record), 3)],
      Free, Idle, true, Feed([], []), [NOTHING, NOTHING, NOTHING, NOTHING])
  {
    OneRecordsIs();
  }

  lemma ReachTwice()
    ensures Reachable(OneRecords()) && Reachable(OtherStopped()) && Reachable(Twice())
    ensures AtRest(OneRecords()) && AtRest(OtherStopped()) && AtRest(Twice())
  {
    hide Reachable, Connects, Starts, Stops;
    Initially();
    ReachConnected(INITIAL);
    ReachConnected(Connects(INITIAL));
    OneRecordsIs();
    OtherStoppedIs();
    TwoViewers();
    ReachStarted(Connects(Connects(INITIAL)), 0);
    ReachStopped(OneRecords(), 1);
    ReachStarted(OtherStopped(), 0);
  }

  lemma TwoViewers()
    ensures Connected(Connects(Connects(INITIAL)), 0) && !Connects(Connects(INITIAL)).recording
  {
  }

  /** The flag is clear though viewer 0 goes on recording, and viewer 1's start is let through beside it. */
  lemma StopByAnotherFails()
    ensures Reachable(OneRecords()) && Reachable(OtherStopped())
    ensures FlagTrue(OneRecords()) && !FlagTrue(OtherStopped()) && Piped(OtherStopped(), 0)
    ensures Happen(OtherStopped(), StartRecord(1)).task == Task(Starting, 1, Begin)
  {
    hide Reachable;
    ReachTwice();
    OneRecordsIs();
    assert Piped(OneRecords(), 0) && Piped(OtherStopped(), 0);
  }

  function Got(xs: seq<int>): Entry { NOTHING.(got := Feed(xs, [])) }

  /** After one more video sample has gone through the list: the second recording's sources got it twice, and the
      first registration, still open, got nothing. */
  function Fed(x: int): State {
    Twice().(produced := Feed([x], []), entries := [Got([x]), Got([x]), Got([]), Got([x, x])])
  }

  /** The state while a video sample goes through the list. */
  function Feeding(x: int, k: nat, entries: seq<Entry>): State {
    Twice().(lock := Stream(Video, k), produced := Feed([x], []), entries := entries)
  }

  lemma FeedOne(x: int, k: nat, entries: seq<Entry>, e: nat, next: seq<Entry>)
    requires k < 4 && e < |entries| && e == [0, 1, 3, 3][k] && Reachable(Feeding(x, k, entries))
    requires |next| == |entries| && next[e] == Got(entries[e].got.video + [x]) &&
      entries[e] == Got(entries[e].got.video)
    requires forall i :: 0 <= i < |next| && i != e ==> next[i] == entries[i]
    ensures Reachable(Feeding(x, k + 1, next))
  {
    hide Reachable, Twice;
    TwiceIs();
    ReachMore(Feeding(x, k, entries), PushOne);
    assert next == entries[e := entries[e].(got := entries[e].got.Push(Video, x))];
  }

  lemma TwiceDeliversTwice(x: int)
    ensures Reachable(Fed(x)) && !Once(Fed(x).list)
    ensures Fed(x).entries[2].to == None && Fed(x).entries[2].got.video == [] && Fed(x).entries[3].got.video == [x, x]
  {
    hide Reachable, Twice;
    ReachTwice();
    TwiceIs();
    ReachMore(Twice(), TakeSample(Video, x));
    var none := [NOTHING, NOTHING, NOTHING, NOTHING];
    assert Happen(Twice(), TakeSample(Video, x)) == Feeding(x, 0, none);
    var one, two := Got([x]), Got([x, x]);
    FeedOne(x, 0, none, 0, [one, NOTHING, NOTHING, NOTHING]);
    FeedOne(x, 1, [one, NOTHING, NOTHING, NOTHING], 1, [one, one, NOTHING, NOTHING]);
    FeedOne(x, 2, [one, one, NOTHING, NOTHING], 3, [one, one, NOTHING, one]);
    FeedOne(x, 3, [one, one, NOTHING, one], 3, [one, one, NOTHING, two]);
    ReachMore(Feeding(x, 4, [one, one, NOTHING, two]), LeaveList);
    assert Fed(x).list[2].pair == Fed(x).list[3].pair;
  }

  /** Viewer 0 then closes: one node goes, its session is freed, and the other node still points into it. */
  lemma ClosedStaysListed()
    ensures Reachable(Closes(Twice(), 0))
    ensures var st := Closes(Twice(), 0); |st.list| == 2 && st.list[1].pair == Pair(0, Record) && st.sessions[0].freed
    ensures !PairLives(Closes(Twice(), 0), 1)
  {
    hide Reachable, RemovePair;
    ReachTwice();
    TwiceIs();
    ReachClosed(Twice(), 0);
    ListAfterClosing();
  }

  lemma ListAfterClosing()
    ensures RemovePair(RemovePair(Twice(), Pair(0, Send)), Pair(0, Record)).list ==
      [Node(Pair(1, Send), 1), Node(Pair(0, Record), 3)]
  {
    TwiceIs();
    var st := Twice();
    var sent := RemovePair(st, Pair(0, Send));
    assert sent.list == [Node(Pair(1, Send), 1), Node(Pair(0, Record), 2), Node(Pair(0, Record), 3)] by {
      assert IndexOf(st.list, Pair(0, Send)) == 0;
    }
    assert IndexOf(sent.list, Pair(0, Record)) == 1 by {
      assert sent.list[1].pair == Pair(0, Record) && sent.list[0].pair != Pair(0, Record);
    }
    assert RemovePair(sent, Pair(0, Record)).list == [Node(Pair(1, Send), 1), Node(Pair(0, Record), 3)];
  }

  /** Viewer 0 stops its own recording twice: the references of its sources are dropped twice. */
  lemma StopTwiceFails()
    ensures Reachable(Stops(OneRecords(), 0)) && Returned(Stops(OneRecords(), 0))
    ensures Reachable(Stops(Stops(OneRecords(), 0), 0)) && !Returned(Stops(Stops(OneRecords(), 0), 0))
  {
    hide Reachable, RemovePair;
    ReachTwice();
    OneRecordsIs();
    var st := OneRecords();
    ReachStopped(st, 0);
    EditShape(st, Pair(0, Record));
    var once := Stops(st, 0);
    assert once.sessions[0].rec == Sources(true, 0, 2) && once.sessions[1] == Viewer(1);
    ReachStopped(once, 0);
    EditShape(once, Pair(0, Record));
    assert Stops(once, 0).sessions[0].rec.refs == -1;
  }
}
