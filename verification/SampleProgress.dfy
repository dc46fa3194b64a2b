/** Nothing waits for ever: a streaming thread gets through the list, and the main thread through its operation. */
module SampleProgress {
  import opened SampleFanout

  // ---------- runs put together ----------

  lemma {:induction false} RunAppend(st: State, a: seq<Event>, b: seq<Event>)
    requires IsRun(st, a) && IsRun(After(st, a), b)
    ensures IsRun(st, a + b) && After(st, a + b) == After(After(st, a), b)
    decreases a
  {
    hide CanHappen, Happen;
    if a == [] {
      assert a + b == b;
    } else {
      assert (a + b)[1..] == a[1..] + b;
      RunAppend(Happen(st, a[0]), a[1..], b);
    }
  }

  lemma RunOne(st: State, e: Event)
    requires CanHappen(st, e)
    ensures IsRun(st, [e]) && After(st, [e]) == Happen(st, e)
  {
    hide CanHappen, Happen;
    assert [e][1..] == [];
  }

  ghost predicate NoStarts(events: seq<Event>) { forall k :: 0 <= k < |events| ==> !events[k].StartRecord? }

  lemma {:induction false} NoStartsFresh(st: State, events: seq<Event>)
    requires IsRun(st, events) && NoStarts(events)
    ensures FreshStarts(st, events)
    decreases events
  {
    hide CanHappen, Happen;
    if events == [] {
    } else {
      NoStartsFresh(Happen(st, events[0]), events[1..]);
    }
  }

  // ---------- the streaming threads ----------

  /** A push for each of the nodes left, then the lock is given back. */
  function Pushes(n: nat): (events: seq<Event>)
    ensures |events| == n + 1
  {
    if n == 0 then [LeaveList] else [PushOne] + Pushes(n - 1)
  }

  lemma {:induction false} PushesOnly(n: nat, m: Medium)
    ensures NoStarts(Pushes(n)) && Taken(Pushes(n), m) == []
  {
    if n == 0 {
      assert Taken([LeaveList], m) == Taken([LeaveList][1..], m);
    } else {
      PushesOnly(n - 1, m);
      assert Pushes(n)[1..] == Pushes(n - 1);
    }
  }

  lemma {:induction false} StreamLeaves(st: State)
    requires st.lock.Stream? && st.lock.next <= |st.list|
    ensures IsRun(st, Pushes(|st.list| - st.lock.next))
    ensures var end := After(st, Pushes(|st.list| - st.lock.next));
      end.lock == Free && end.list == st.list && end.task == st.task && end.sessions == st.sessions
    decreases |st.list| - st.lock.next
  {
    hide Current;
    var n := |st.list| - st.lock.next;
    if n == 0 {
      RunOne(st, LeaveList);
    } else {
      var next := Happen(st, PushOne);
      StreamLeaves(next);
      RunOne(st, PushOne);
      RunAppend(st, [PushOne], Pushes(n - 1));
    }
  }

  /** While no thread holds the lock a sample of either medium can be taken; its thread then reaches the end of the list
      and gives the lock back, and every listed registration has received the sample, once. */
  lemma SamplePasses(before: seq<Event>, m: Medium, x: int)
    requires IsRun(INITIAL, before) && FreshStarts(INITIAL, before) && After(INITIAL, before).lock == Free
    ensures var st := After(INITIAL, before);
      var events := [TakeSample(m, x)] + Pushes(|st.list|);
      && IsRun(st, events)
      && var end := After(st, events);
        && end.lock == Free && end.list == st.list && end.task == st.task && end.sessions == st.sessions
        && forall e: nat :: OnList(st.list, e) ==>
             e < |st.entries| <= |end.entries| && end.entries[e].got.Get(m) == st.entries[e].got.Get(m) + [x]
  {
    hide Inv, FreshStarts, IsRun, After;
    var st, take := After(INITIAL, before), TakeSample(m, x);
    var next, n := Happen(st, take), |st.list|;
    RunOne(st, take);
    StreamLeaves(next);
    RunAppend(st, [take], Pushes(n));
    var events := [take] + Pushes(n);
    var end := After(st, events);
    PushesOnly(n, m);
    assert events[0] == take && events[1..] == Pushes(n);
    NoStartsFresh(st, events);
    assert Taken(events, m) == [x] + [];
    forall e: nat | OnList(st.list, e)
      ensures e < |st.entries| <= |end.entries| && end.entries[e].got.Get(m) == st.entries[e].got.Get(m) + [x]
    {
      ReceivesWhileListed(before, events, m, e);
    }
  }

  // ---------- the main thread ----------

  function Rank(op: Op): nat {
    match op
    case ClosingSend => 3
    case ClosingRecord => 2
    case Connecting => 1
    case Starting => 1
    case Stopping => 1
    case Freeing => 1
  }

  function Left(phase: Phase): nat {
    match phase
    case Begin => 4
    case WantLock => 3
    case HoldLock => 2
    case Edited => 1
    case Released => 0
  }

  /** How many steps an operation can have before it. */
  function Steps(task: Task): nat { if task.Task? then 5 * Rank(task.op) + Left(task.phase) else 0 }

  lemma OneStep(st: State)
    requires Inv(st) && st.task.Task? && !st.lock.Stream?
    ensures CanHappen(st, Continue)
    ensures var next := Happen(st, Continue);
      Inv(next) && !next.lock.Stream? && (Steps(next.task) < Steps(st.task) || next.task == Idle)
  {
    hide SessionsOk, ListOk, SourcesOk, EntriesOk, IndexOf;
    if st.task.op == Freeing {
      FreeingBegins(st);
    }
    StepKeeps(st, Continue);
  }

  lemma FreeingBegins(st: State)
    requires Inv(st) && st.task.Task? && st.task.op == Freeing
    ensures st.task.phase == Begin
  {
    hide ListOk, SourcesOk, EntriesOk;
    SessionAt(st, st.task.session);
  }

  /** Whatever the main thread is doing, once it gets the lock it comes to its end. */
  lemma {:induction false} MainFinishes(st: State) returns (events: seq<Event>)
    requires Inv(st) && !st.lock.Stream?
    ensures IsRun(st, events) && After(st, events).task == Idle && After(st, events).lock == Free
    ensures forall k :: 0 <= k < |events| ==> events[k] == Continue
    decreases Steps(st.task)
  {
    hide Inv, CanHappen, Happen;
    if st.task == Idle {
      events := [];
      IdleLeavesLock(st);
    } else {
      OneStep(st);
      var next := Happen(st, Continue);
      if next.task == Idle {
        IdleLeavesLock(next);
        events := [Continue];
        RunOne(st, Continue);
      } else {
        var rest := MainFinishes(next);
        events := [Continue] + rest;
        RunOne(st, Continue);
        RunAppend(st, [Continue], rest);
      }
    }
  }

  lemma IdleLeavesLock(st: State)
    requires Inv(st) && st.task == Idle
    ensures st.lock != Main
  {
    hide SessionsOk, ListOk, SourcesOk, EntriesOk;
  }

  /** From every state that a run with fresh starts reaches, letting the threads go on brings them all to rest. */
  lemma NeverStuck(before: seq<Event>) returns (events: seq<Event>)
    requires IsRun(INITIAL, before) && FreshStarts(INITIAL, before)
    ensures IsRun(After(INITIAL, before), events)
    ensures var end := After(After(INITIAL, before), events); end.task == Idle && end.lock == Free
    ensures forall k :: 0 <= k < |events| ==> events[k] in {PushOne, LeaveList, Continue}
  {
    hide Inv, IsRun, After, FreshStarts, CanHappen, Happen;
    InitialOk();
    RunKeeps(INITIAL, before);
    var st := After(INITIAL, before);
    if st.lock.Stream? {
      StreamInList(st);
      var pushes := Pushes(|st.list| - st.lock.next);
      StreamLeaves(st);
      PushesOnly(|st.list| - st.lock.next, Video);
      NoStartsFresh(st, pushes);
      RunKeeps(st, pushes);
      var rest := MainFinishes(After(st, pushes));
      RunAppend(st, pushes, rest);
      events := pushes + rest;
      PushesAre(|st.list| - st.lock.next);
    } else {
      events := MainFinishes(st);
    }
  }

  lemma StreamInList(st: State)
    requires Inv(st) && st.lock.Stream?
    ensures st.lock.next <= |st.list|
  {
    hide SessionsOk, ListOk, SourcesOk, EntriesOk;
  }

  lemma {:induction false} PushesAre(n: nat)
    ensures forall k :: 0 <= k < |Pushes(n)| ==> Pushes(n)[k] == PushOne || Pushes(n)[k] == LeaveList
  {
    if n == 0 {
    } else {
      PushesAre(n - 1);
      assert forall k :: 0 < k < |Pushes(n)| ==> Pushes(n)[k] == Pushes(n - 1)[k - 1];
    }
  }
}
