/** Who records: what the recording flag says, when references balance, and what stops and starts do. */
module RecordingControl {
  import opened SampleFanout

  // ---------- the flag ----------

  /** A session whose pipeline runs, and is not on its way to be stopped. */
  ghost predicate Recording(s: Session, task: Task) {
    s.pipeline && !(task.Task? && (task.op == Stopping || task.op == ClosingRecord) && task.phase != Begin)
  }

  ghost predicate RecordingIn(st: State, i: nat) {
    i < |st.sessions| && Recording(st.sessions[i], TaskOf(st.task, i))
  }

  ghost predicate Piped(st: State, i: nat) { i < |st.sessions| && st.sessions[i].pipeline }

  ghost predicate OnePipeline(st: State) { forall i: nat, j: nat :: Piped(st, i) && Piped(st, j) ==> i == j }

  ghost predicate FlagOk(st: State) {
    && (st.recording <==> exists i: nat :: RecordingIn(st, i))
    && OnePipeline(st)
    && (st.task.Task? && st.task.op == Starting && st.task.phase == Begin ==> !st.recording)
    && (st.task.Task? && st.task.op == Stopping && st.task.phase == Begin ==>
          Piped(st, st.task.session) || !st.recording)
  }

  /** Between callbacks: the flag says whether some live session has a pipeline, and only one has. */
  ghost predicate FlagTrue(st: State) {
    && (st.recording <==> exists i: nat :: Piped(st, i))
    && (forall i: nat :: Piped(st, i) ==> !st.sessions[i].freed)
    && OnePipeline(st)
  }

  /** A stop comes from the session that records, or when nobody does. */
  ghost predicate StopsOwn(st: State, e: Event) { e.StopRecord? ==> Piped(st, e.session) || !st.recording }

  lemma FlagSame(st: State, st': State)
    requires FlagOk(st) && st'.recording == st.recording
    requires forall i: nat :: (RecordingIn(st', i) <==> RecordingIn(st, i)) && (Piped(st', i) ==> Piped(st, i))
    requires st'.task.Task? && st'.task.op == Starting && st'.task.phase == Begin ==> !st.recording
    requires st'.task.Task? && st'.task.op == Stopping && st'.task.phase == Begin ==>
      Piped(st', st'.task.session) || !st.recording
    ensures FlagOk(st')
  {
    hide RecordingIn, Piped;
  }

  /** A start finds the flag clear, so nobody has a pipeline. */
  lemma FlagStarts(st: State)
    requires Inv(st) && FlagOk(st) && MainCanStep(st) && st.task.op == Starting && st.task.phase == Begin
    ensures FlagOk(MainStep(st))
  {
    hide SessionsOk, EntriesOk, ListOk, SourcesOk, Listed;
    var st', i := MainStep(st), st.task.session;
    SessionAt(st, i);
    forall j: nat | Piped(st', j) ensures j == i {
      assert j != i ==> RecordingIn(st, j);
    }
    assert RecordingIn(st', i);
  }

  /** Once the recorder's stop is on its way nobody is recording. */
  lemma FlagStops(st: State)
    requires Inv(st) && FlagOk(st) && MainCanStep(st) && st.task.phase == Begin && Piped(st, st.task.session)
    requires st.task.op == Stopping || st.task.op == ClosingRecord
    ensures FlagOk(MainStep(st))
  {
    hide SessionsOk, EntriesOk, ListOk, SourcesOk, Listed;
    var st', i := MainStep(st), st.task.session;
    forall j: nat ensures !RecordingIn(st', j) && (Piped(st', j) ==> Piped(st, j)) {
      assert Piped(st', j) ==> Piped(st, j);
    }
  }

  lemma FlagMain(st: State)
    requires Inv(st) && FlagOk(st) && MainCanStep(st)
    ensures FlagOk(MainStep(st))
  {
    hide SessionsOk, EntriesOk, ListOk, SourcesOk, FlagOk, AppendPair, RemovePair, Listed;
    SessionAt(st, st.task.session);
    EditShape(st, PairOf(st.task.op, st.task.session));
    FlagAtBegin(st);
    if st.task.phase == Begin && st.task.op == Starting {
      FlagStarts(st);
    } else if st.task.phase == Begin && Piped(st, st.task.session) &&
      (st.task.op == Stopping || st.task.op == ClosingRecord) {
      FlagStops(st);
    } else {
      FlagSame(st, MainStep(st));
    }
  }

  lemma FlagAtBegin(st: State)
    requires FlagOk(st)
    ensures st.task.Task? && st.task.op == Stopping && st.task.phase == Begin ==>
      Piped(st, st.task.session) || !st.recording
  {
  }

  lemma QuietFlag(st: State, i: nat)
    requires FlagOk(st) && st.task == Idle && !st.recording
    ensures !Piped(st, i) && !RecordingIn(st, i)
  {
    assert !RecordingIn(st, i);
  }

  /** While the flag is right, a start that is let through finds its pair not listed. */
  lemma FlagMakesFresh(st: State, e: Event)
    requires Inv(st) && FlagOk(st) && CanHappen(st, e)
    ensures Fresh(st, e)
  {
    hide SessionsOk, FlagOk, EntriesOk, ListOk, SourcesOk, LockOk, Listed;
    if e.StartRecord? && !st.recording {
      SessionAt(st, e.session);
      QuietFlag(st, e.session);
    }
  }

  lemma FlagReads(st: State, e: Event, j: nat)
    requires CanHappen(st, e) && (e.Connect? || SessionCommand(e))
    requires e.StartRecord? && !st.recording ==> !RecordingIn(st, e.session)
    ensures RecordingIn(Happen(st, e), j) == RecordingIn(st, j) && Piped(Happen(st, e), j) == Piped(st, j)
  {
  }

  lemma FlagCommand(st: State, e: Event)
    requires FlagOk(st) && CanHappen(st, e) && StopsOwn(st, e) && (e.Connect? || SessionCommand(e))
    ensures FlagOk(Happen(st, e))
  {
    hide FlagOk;
    if e.StartRecord? && !st.recording {
      QuietFlag(st, e.session);
    }
    forall j: nat ensures RecordingIn(Happen(st, e), j) == RecordingIn(st, j) &&
      Piped(Happen(st, e), j) == Piped(st, j) {
      FlagReads(st, e, j);
    }
    FlagSame(st, Happen(st, e));
  }

  lemma FlagStreams(st: State, st': State)
    requires FlagOk(st) && SameMain(st, st')
    ensures FlagOk(st')
  {
    hide Recording;
    assert forall i: nat :: RecordingIn(st', i) == RecordingIn(st, i) && Piped(st', i) == Piped(st, i);
  }

  /** Every step keeps the flag right, as long as nobody stops another's recording. */
  lemma FlagStep(st: State, e: Event)
    requires Inv(st) && FlagOk(st) && CanHappen(st, e) && StopsOwn(st, e)
    ensures FlagOk(Happen(st, e))
  {
    hide FlagOk, StopsOwn, SessionsOk, EntriesOk, ListOk, SourcesOk, LockOk, MainStep;
    if e == Continue {
      FlagMain(st);
    } else if e.Connect? || SessionCommand(e) {
      FlagCommand(st, e);
    } else {
      FlagStreams(st, Happen(st, e));
    }
  }

  ghost predicate OwnStops(st: State, events: seq<Event>)
    requires IsRun(st, events)
    decreases events
  {
    events == [] || (StopsOwn(st, events[0]) && OwnStops(Happen(st, events[0]), events[1..]))
  }

  /** When nobody stops another's recording, the flag stays right and every start is fresh. */
  lemma {:induction false} RunKeepsFlag(st: State, events: seq<Event>)
    requires Inv(st) && FlagOk(st) && IsRun(st, events) && OwnStops(st, events)
    ensures FreshStarts(st, events) && FlagOk(After(st, events))
    decreases events
  {
    hide Inv, FlagOk, CanHappen, Happen, Fresh, StopsOwn;
    if events == [] {
    } else {
      FlagMakesFresh(st, events[0]);
      StepKeeps(st, events[0]);
      FlagStep(st, events[0]);
      RunKeepsFlag(Happen(st, events[0]), events[1..]);
    }
  }

  lemma InitialFlag()
    ensures FlagOk(INITIAL)
  {
    forall i: nat ensures !RecordingIn(INITIAL, i) {
    }
  }

  /** Between callbacks the recording flag says whether some live session has a pipeline, and only one ever has. */
  lemma FlagMeansRecording(events: seq<Event>)
    requires IsRun(INITIAL, events) && OwnStops(INITIAL, events) && After(INITIAL, events).task == Idle
    ensures FlagTrue(After(INITIAL, events)) && FreshStarts(INITIAL, events)
  {
    hide IsRun, After, Inv, FlagOk, FlagTrue, OwnStops;
    InitialOk();
    InitialFlag();
    RunKeepsFlag(INITIAL, events);
    RunKeeps(INITIAL, events);
    FlagMeans(After(INITIAL, events));
  }

  lemma FlagMeans(st: State)
    requires Inv(st) && FlagOk(st) && st.task == Idle
    ensures FlagTrue(st)
  {
    hide SessionsOk, Listed, ListOk, SourcesOk, EntriesOk, LockOk;
    forall i: nat ensures RecordingIn(st, i) == Piped(st, i) && (Piped(st, i) ==> !st.sessions[i].freed) {
      if Piped(st, i) {
        SessionAt(st, i);
      }
    }
  }

  // ---------- the references ----------

  /** What is not recorded from owns no reference, and none is due to be given back for sources never made. */
  ghost predicate Balanced(s: Session, task: Task) {
    !s.pipeline ==> s.rec.refs == 0 && (task.Task? && task.op == Stopping ==> !s.rec.set_)
  }

  ghost predicate AllBalanced(st: State) {
    forall i: nat :: i < |st.sessions| ==> Balanced(st.sessions[i], TaskOf(st.task, i))
  }

  /** A stop comes from the session that records, or from one that never did. */
  ghost predicate StopsOnce(st: State, e: Event) {
    e.StopRecord? && e.session < |st.sessions| ==>
      st.sessions[e.session].pipeline || !st.sessions[e.session].rec.set_
  }

  lemma BalanceMain(st: State)
    requires Inv(st) && AllBalanced(st) && MainCanStep(st)
    ensures AllBalanced(MainStep(st))
  {
    hide SessionsOk, EntriesOk, ListOk, SourcesOk, LockOk, AppendPair, RemovePair, Listed;
    var i := st.task.session;
    SessionAt(st, i);
    EditShape(st, PairOf(st.task.op, i));
    assert Balanced(st.sessions[i], st.task);
    forall k: nat | k < |MainStep(st).sessions|
      ensures Balanced(MainStep(st).sessions[k], TaskOf(MainStep(st).task, k)) {
      assert Balanced(st.sessions[k], TaskOf(st.task, k));
    }
  }

  lemma BalanceStep(st: State, e: Event)
    requires Inv(st) && AllBalanced(st) && CanHappen(st, e) && StopsOnce(st, e)
    ensures AllBalanced(Happen(st, e))
  {
    hide Inv, MainStep, Current;
    if e == Continue {
      BalanceMain(st);
    }
  }

  ghost predicate SingleStops(st: State, events: seq<Event>)
    requires IsRun(st, events)
    decreases events
  {
    events == [] || (StopsOnce(st, events[0]) && SingleStops(Happen(st, events[0]), events[1..]))
  }

  lemma {:induction false} RunKeepsBalance(st: State, events: seq<Event>)
    requires Inv(st) && AllBalanced(st) && IsRun(st, events) && FreshStarts(st, events) && SingleStops(st, events)
    ensures AllBalanced(After(st, events))
    decreases events
  {
    hide Inv, AllBalanced, CanHappen, Happen, Fresh, StopsOnce;
    if events == [] {
    } else {
      StepKeeps(st, events[0]);
      BalanceStep(st, events[0]);
      RunKeepsBalance(Happen(st, events[0]), events[1..]);
    }
  }

  /** Every reference is given back once: at most one is owned, and none by a freed session. */
  ghost predicate Returned(st: State) {
    forall i :: 0 <= i < |st.sessions| ==>
      && 0 <= st.sessions[i].send.refs <= 1 && 0 <= st.sessions[i].rec.refs <= 1
      && (st.sessions[i].freed ==> st.sessions[i].send.refs == 0 && st.sessions[i].rec.refs == 0)
  }

  lemma BalanceMeans(st: State)
    requires Inv(st) && AllBalanced(st)
    ensures Returned(st)
  {
    hide SessionsOk, Listed, ListOk, SourcesOk, EntriesOk, LockOk;
    forall i | 0 <= i < |st.sessions|
      ensures 0 <= st.sessions[i].send.refs <= 1 && 0 <= st.sessions[i].rec.refs <= 1
      ensures st.sessions[i].freed ==> st.sessions[i].send.refs == 0 && st.sessions[i].rec.refs == 0
    {
      SessionAt(st, i);
    }
  }

  /** When no session that has stopped recording is stopped again, every reference is given back exactly once. */
  lemma ReferencesReturned(events: seq<Event>)
    requires IsRun(INITIAL, events) && FreshStarts(INITIAL, events) && SingleStops(INITIAL, events)
    ensures Returned(After(INITIAL, events))
  {
    hide IsRun, After, Inv, AllBalanced, Returned, FreshStarts, SingleStops;
    InitialOk();
    assert AllBalanced(INITIAL) by { NothingOwned(); }
    RunKeeps(INITIAL, events);
    RunKeepsBalance(INITIAL, events);
    BalanceMeans(After(INITIAL, events));
  }

  lemma NothingOwned()
    ensures AllBalanced(INITIAL)
  {
  }

  // ---------- one stop, from any session ----------

  ghost predicate Command(e: Event) { e.Connect? || SessionCommand(e) }

  /** Events that finish what is under way: no new command for the main thread. */
  ghost predicate Quiet(events: seq<Event>) { forall k :: 0 <= k < |events| ==> !Command(events[k]) }

  function StoppedSession(s: Session): Session { s.(rec := Drop(s.rec), pipeline := false) }

  /** What sessions and flag look like while session i's stop goes on, and when it is over. */
  ghost predicate StopGoesOn(st0: State, i: nat, st: State)
    requires i < |st0.sessions|
  {
    match st.task
    case Idle => st.sessions == st0.sessions[i := StoppedSession(st0.sessions[i])] && !st.recording
    case Task(op, k, phase) =>
      && op == Stopping && k == i && st.sessions == st0.sessions
      && st.recording == if phase == Begin then st0.recording else false
  }

  lemma StopMoves(st0: State, i: nat, st: State, e: Event)
    requires i < |st0.sessions| && StopGoesOn(st0, i, st) && CanHappen(st, e) && !Command(e)
    ensures StopGoesOn(st0, i, Happen(st, e))
  {
    hide RemovePair, AppendPair, Current;
    EditShape(st, Pair(i, Record));
  }

  lemma {:induction false} StopEnds(st0: State, i: nat, st: State, events: seq<Event>)
    requires i < |st0.sessions| && StopGoesOn(st0, i, st) && IsRun(st, events) && Quiet(events)
    ensures StopGoesOn(st0, i, After(st, events))
    decreases events
  {
    hide StopGoesOn, CanHappen, Happen;
    if events == [] {
    } else {
      StopMoves(st0, i, st, events[0]);
      assert forall k :: 0 <= k < |events[1..]| ==> events[1..][k] == events[k + 1];
      StopEnds(st0, i, Happen(st, events[0]), events[1..]);
    }
  }

  lemma {:induction false} QuietIsFresh(st: State, events: seq<Event>)
    requires IsRun(st, events) && Quiet(events)
    ensures FreshStarts(st, events)
    decreases events
  {
    hide CanHappen, Happen;
    if events == [] {
    } else {
      assert !Command(events[0]);
      assert forall k :: 0 <= k < |events[1..]| ==> events[1..][k] == events[k + 1];
      QuietIsFresh(Happen(st, events[0]), events[1..]);
    }
  }

  /** The flag after session i's stop. */
  lemma StoppedFlag(st: State, i: nat, st': State)
    requires FlagTrue(st) && i < |st.sessions| && !st'.recording
    requires st'.sessions == st.sessions[i := StoppedSession(st.sessions[i])]
    ensures FlagTrue(st') <==> Piped(st, i) || !st.recording
  {
    forall j: nat ensures Piped(st', j) <==> Piped(st, j) && j != i {
    }
    if !Piped(st, i) && st.recording {
      var j: nat :| Piped(st, j);
      assert Piped(st', j);
    }
  }

  /** The references after session i's stop. */
  lemma StoppedReferences(st: State, i: nat, st': State)
    requires Returned(st) && i < |st.sessions| && Balanced(st.sessions[i], Idle) && Inv(st) && st.task == Idle
    requires !st.sessions[i].freed && st'.sessions == st.sessions[i := StoppedSession(st.sessions[i])]
    ensures Returned(st') <==> st.sessions[i].pipeline || !st.sessions[i].rec.set_
  {
    hide SessionsOk, Listed, ListOk, SourcesOk, EntriesOk, LockOk;
    SessionAt(st, i);
    assert st'.sessions[i].rec.refs == if st.sessions[i].rec.set_ then st.sessions[i].rec.refs - 1
      else st.sessions[i].rec.refs;
  }

  /** A stop from any connected session, whatever the streaming threads do meanwhile. Afterwards listed pairs still live
      and deliveries go on; the flag is right if and only if that session records or nobody does; and no reference is
      dropped twice if and only if that session records or never did. */
  lemma StopKeepsIff(st: State, i: nat, events: seq<Event>)
    requires Inv(st) && CanHappen(st, StopRecord(i))
    requires IsRun(Happen(st, StopRecord(i)), events) && Quiet(events)
    requires After(Happen(st, StopRecord(i)), events).task == Idle
    ensures Inv(After(Happen(st, StopRecord(i)), events))
    ensures FlagTrue(st) ==>
      (FlagTrue(After(Happen(st, StopRecord(i)), events)) <==> Piped(st, i) || !st.recording)
    ensures AllBalanced(st) ==>
      (Returned(After(Happen(st, StopRecord(i)), events)) <==> st.sessions[i].pipeline || !st.sessions[i].rec.set_)
  {
    hide Inv, IsRun, After, FlagTrue, AllBalanced, Returned, Quiet;
    var st1 := Happen(st, StopRecord(i));
    var st' := After(st1, events);
    StepKeeps(st, StopRecord(i));
    QuietIsFresh(st1, events);
    RunKeeps(st1, events);
    StopEnds(st, i, st1, events);
    if FlagTrue(st) {
      StoppedFlag(st, i, st');
    }
    if AllBalanced(st) {
      BalanceMeans(st);
      ConnectedLives(st, i);
      StoppedReferences(st, i, st');
    }
  }

  lemma ConnectedLives(st: State, i: nat)
    requires Inv(st) && AllBalanced(st) && st.task == Idle && Connected(st, i)
    ensures !st.sessions[i].freed && Balanced(st.sessions[i], Idle)
  {
    hide SessionsOk, Listed, ListOk, SourcesOk, EntriesOk, LockOk;
    SessionAt(st, i);
  }

  // ---------- one start, from any session ----------

  /** The list while session i's start goes on, and when it is over. */
  ghost predicate StartGoesOn(st0: State, i: nat, st: State) {
    var longer := |st.list| == |st0.list| + 1 && st.list[..|st0.list|] == st0.list &&
      st.list[|st0.list|].pair == Pair(i, Record);
    match st.task
    case Idle => longer
    case Task(op, k, phase) => op == Starting && k == i && if BeforeEdit(phase) then st.list == st0.list else longer
  }

  lemma StartMoves(st0: State, i: nat, st: State, e: Event)
    requires StartGoesOn(st0, i, st) && CanHappen(st, e) && !Command(e)
    ensures StartGoesOn(st0, i, Happen(st, e))
  {
    hide Current;
  }

  lemma {:induction false} StartEnds(st0: State, i: nat, st: State, events: seq<Event>)
    requires StartGoesOn(st0, i, st) && IsRun(st, events) && Quiet(events)
    ensures StartGoesOn(st0, i, After(st, events))
    decreases events
  {
    hide StartGoesOn, CanHappen, Happen;
    if events == [] {
    } else {
      StartMoves(st0, i, st, events[0]);
      assert forall k :: 0 <= k < |events[1..]| ==> events[1..][k] == events[k + 1];
      StartEnds(st0, i, Happen(st, events[0]), events[1..]);
    }
  }

  lemma LongerOnce(list: seq<Node>, list': seq<Node>, p: Pair)
    requires Once(list) && |list'| == |list| + 1 && list'[..|list|] == list && list'[|list|].pair == p
    ensures Once(list') <==> !Listed(list, p)
  {
    assert forall j :: 0 <= j < |list| ==> list'[j] == list[j];
    if j :| 0 <= j < |list| && list[j].pair == p {
      assert list'[j].pair == list'[|list|].pair;
    }
  }

  /** A start that is let through, whatever the streaming threads do meanwhile, leaves pairs on the list once if and
      only if the session's pair was not on it. */
  lemma StartKeepsIff(st: State, i: nat, events: seq<Event>)
    requires Once(st.list) && CanHappen(st, StartRecord(i)) && !st.recording
    requires IsRun(Happen(st, StartRecord(i)), events) && Quiet(events)
    requires After(Happen(st, StartRecord(i)), events).task == Idle
    ensures Once(After(Happen(st, StartRecord(i)), events).list) <==> !Listed(st.list, Pair(i, Record))
  {
    hide IsRun, After, Quiet, Once, Listed;
    var st1 := Happen(st, StartRecord(i));
    StartEnds(st, i, st1, events);
    LongerOnce(st.list, After(st1, events).list, Pair(i, Record));
  }
}
