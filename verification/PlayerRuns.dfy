// What the runs of the player's two threads keep count of: one process at a time, each wait that an event
// ends paid for by a SetEvent, every item that was asked for; and how soon the next item is started.
module PlayerRuns {
  import opened Basics
  import opened Player

  // A run ends with its last action.
  lemma {:induction false} RunLast(s: State, acts: seq<Action>)
    requires Run(s, acts).Some? && acts != []
    ensures var n := |acts| - 1;
      Run(s, acts[..n]).Some? && Enabled(Run(s, acts[..n]).value, acts[n]) && Safe(Run(s, acts[..n]).value, acts[n])
      && Run(s, acts) == Some(Do(Run(s, acts[..n]).value, acts[n]))
    decreases |acts|
  {
    hide Do, Enabled, Safe;
    var n := |acts| - 1;
    if n == 0 {
      assert acts[..0] == [];
      assert acts[1..] == [];
    } else {
      RunLast(Do(s, acts[0]), acts[1..]);
      assert acts[1..][..n - 1] == acts[..n][1..];
    }
  }

  // The processes that CreateProcess has started, and those that the player has seen to end.
  function Spawns(acts: seq<Action>): nat
  {
    if acts == [] then 0 else Spawns(acts[..|acts| - 1]) + (if acts[|acts| - 1] == PSpawn(true) then 1 else 0)
  }

  function Ends(acts: seq<Action>): nat
  {
    if acts == [] then 0 else Ends(acts[..|acts| - 1]) + (if acts[|acts| - 1].PProcessEnds? then 1 else 0)
  }

  // The player has a process that it has not seen to end.
  predicate HasProcess(p: PlayerPc)
  {
    match p
    case Unlink(created) => created
    case RelockInner(event) => event
    case TestInner(event) => event
    case _ => p.LeaveInner? || p.WaitInner?
  }

  // Processes left running: one where the player has one, and otherwise none, but for the one that
  // h_quit has taken the player away from.
  predicate Processes(s: State, running: int)
  {
    if HasProcess(s.p) then running == 1
    else running == 0 || (running == 1 && s.quit && (s.p.TestQuit? || s.p.Drain? || s.p.Finished?))
  }

  lemma ProcessesKept(s: State, a: Action, running: int)
    requires Enabled(s, a) && Safe(s, a) && Processes(s, running)
    ensures Processes(Do(s, a), running + (if a == PSpawn(true) then 1 else 0) - (if a.PProcessEnds? then 1 else 0))
  {
  }

  // At any time there is at most one process that has been started and not seen to end; the player waits
  // for a process exactly while there is one, and while there is one it starts no other.
  lemma {:induction false} OneProcess(acts: seq<Action>)
    requires Run(Initial(), acts).Some?
    ensures var s, running := Run(Initial(), acts).value, Spawns(acts) - Ends(acts);
      && 0 <= running <= 1 && Processes(s, running)
      && (s.p.WaitInner? ==> running == 1) && (s.p.Spawn? ==> running == 0)
    decreases |acts|
  {
    hide Do, Enabled, Safe, Initial;
    if acts == [] {
      StartsIdle();
    } else {
      var n := |acts| - 1;
      RunLast(Initial(), acts);
      OneProcess(acts[..n]);
      ProcessesKept(Run(Initial(), acts[..n]).value, acts[n], Spawns(acts[..n]) - Ends(acts[..n]));
    }
  }

  lemma StartsIdle()
    ensures Processes(Initial(), 0) && !Initial().p.WaitInner? && !Initial().event && Initial().played == [] && Initial().linked == []
    ensures !Initial().m.HasCell? && !Initial().m.Locked?
  {
  }

  // SetEvent calls, and the waits ended by one.
  function Signals(acts: seq<Action>): nat
  {
    if acts == [] then 0
    else Signals(acts[..|acts| - 1]) + (if acts[|acts| - 1].Signal? || acts[|acts| - 1].SignalQuit? then 1 else 0)
  }

  function Wakes(acts: seq<Action>): nat
  {
    if acts == [] then 0 else Wakes(acts[..|acts| - 1]) + (if acts[|acts| - 1].PWakeEvent? then 1 else 0)
  }

  lemma SignalsKept(s: State, a: Action)
    requires Enabled(s, a) && Safe(s, a)
    ensures if a.Signal? || a.SignalQuit? then Do(s, a).event
            else if a.PWakeEvent? then s.event && !Do(s, a).event
            else Do(s, a).event == s.event
  {
  }

  // The event resets itself: no more waits are ended than SetEvent was called, not counting a signal that
  // no wait has taken yet.
  lemma {:induction false} WakesAreSignalled(acts: seq<Action>)
    requires Run(Initial(), acts).Some?
    ensures Wakes(acts) + (if Run(Initial(), acts).value.event then 1 else 0) <= Signals(acts)
    decreases |acts|
  {
    hide Do, Enabled, Safe, Initial;
    if acts == [] {
      StartsIdle();
    } else {
      var n := |acts| - 1;
      RunLast(Initial(), acts);
      WakesAreSignalled(acts[..n]);
      SignalsKept(Run(Initial(), acts[..n]).value, acts[n]);
    }
  }

  // What play_video was called with, in order, and the calls of CreateProcess.
  function Asked(acts: seq<Action>): seq<Item>
  {
    if acts == [] then []
    else Asked(acts[..|acts| - 1]) + (if acts[|acts| - 1].NewCell? then [acts[|acts| - 1].item] else [])
  }

  function Tries(acts: seq<Action>): nat
  {
    if acts == [] then 0 else Tries(acts[..|acts| - 1]) + (if acts[|acts| - 1].PSpawn? then 1 else 0)
  }

  // The item that the main thread has built a cell for and not linked yet.
  function InHand(s: State): seq<Item>
  {
    if (s.m.HasCell? || s.m.Locked?) && s.m.cell in s.heap then [s.heap[s.m.cell].item] else []
  }

  lemma AskedKept(s: State, a: Action)
    requires Inv(s) && Enabled(s, a) && Safe(s, a)
    ensures Do(s, a).linked + InHand(Do(s, a)) == s.linked + InHand(s) + (if a.NewCell? then [a.item] else [])
    ensures |Do(s, a).played| == |s.played| + (if a.PSpawn? then 1 else 0)
  {
    hide Inv, Do, InHand, Enabled, Safe;
    if a.PUnlink? || a.PDrainOne? {
      HandKept(s, a);
    } else if a.AssignLink? {
      HandLinked(s);
    } else {
      HandOtherwise(s, a);
    }
  }

  lemma HandKept(s: State, a: Action)
    requires Inv(s) && Enabled(s, a) && Safe(s, a) && (a.PUnlink? || a.PDrainOne?)
    ensures Do(s, a).linked == s.linked && InHand(Do(s, a)) == InHand(s) && Do(s, a).played == s.played
  {
    hide Fifo, TailerOk, Locks, Wakeups;
  }

  lemma HandLinked(s: State)
    requires Inv(s) && Enabled(s, AssignLink) && Safe(s, AssignLink)
    ensures Do(s, AssignLink).linked == s.linked + InHand(s) && InHand(Do(s, AssignLink)) == [] && Do(s, AssignLink).played == s.played
  {
    hide Inv;
  }

  lemma HandOtherwise(s: State, a: Action)
    requires Enabled(s, a) && Safe(s, a) && !a.PUnlink? && !a.PDrainOne? && !a.AssignLink?
    ensures Do(s, a).linked == s.linked && InHand(Do(s, a)) == InHand(s) + (if a.NewCell? then [a.item] else [])
    ensures |Do(s, a).played| == |s.played| + (if a.PSpawn? then 1 else 0)
  {
  }

  // Every item asked for is linked in, in the order of the calls, but for the one in hand; and CreateProcess
  // is called once for each item counted as played.
  lemma {:induction false} NoneForgotten(acts: seq<Action>)
    requires Run(Initial(), acts).Some?
    ensures var s := Run(Initial(), acts).value;
      s.linked + InHand(s) == Asked(acts) && |s.played| == Tries(acts)
    decreases |acts|
  {
    hide Do, Enabled, Safe, Initial, Inv;
    if acts == [] {
      StartsIdle();
    } else {
      var n := |acts| - 1;
      RunLast(Initial(), acts);
      NoneForgotten(acts[..n]);
      InvInitial();
      RunKeeps(Initial(), acts[..n]);
      AskedKept(Run(Initial(), acts[..n]).value, acts[n]);
    }
  }

  // The player's own steps.
  function OwnSteps(acts: seq<Action>): nat
  {
    if acts == [] then 0 else (if ByPlayer(acts[0]) then 1 else 0) + OwnSteps(acts[1..])
  }

  // On its way to the next item, with no process to wait for: how many of its own steps it is from
  // starting that or waiting for one; none when it is doing something else.
  function Ahead(p: PlayerPc): Option<nat>
  {
    match p
    case RelockInner(event) => if event then None else Some(5)
    case TestInner(event) => if event then None else Some(4)
    case Unlink(created) => if created then None else Some(4)
    case Starting | Relock => Some(4)
    case TestQuit => Some(3)
    case TestHead => Some(2)
    case LeaveEmpty => Some(1)
    case WaitEmpty | Spawn => Some(0)
    case _ => None
  }

  // About to look for the next item, or about to start it.
  predicate Looks(p: PlayerPc) { Ahead(p).Some? && !p.Unlink? && !p.LeaveEmpty? && !p.WaitEmpty? }

  lemma AheadDrops(s: State, a: Action)
    requires Enabled(s, a) && Safe(s, a) && Ahead(s.p).Some? && !Do(s, a).quit
    ensures var t := Do(s, a);
      if !ByPlayer(a) then t.p == s.p
      else a.PSpawn? || a.PWakeEvent? || (Ahead(t.p).Some? && Ahead(t.p).value < Ahead(s.p).value)
  {
  }

  lemma LooksOn(s: State, a: Action)
    requires Enabled(s, a) && Safe(s, a) && Looks(s.p) && s.header.Some? && s.queue != [] && !a.PSpawn? && !Do(s, a).quit
    ensures Looks(Do(s, a).p) && Do(s, a).queue != []
  {
  }

  lemma HeaderLeads(s: State)
    requires Inv(s) && s.queue != []
    ensures s.header.Some?
  {
  }

  lemma QuitStays(s: State, a: Action)
    requires Enabled(s, a) && Safe(s, a) && s.quit
    ensures Do(s, a).quit
  {
  }

  lemma {:induction false} NoQuitBefore(s: State, acts: seq<Action>)
    requires Run(s, acts).Some? && !Run(s, acts).value.quit
    ensures !s.quit
    decreases |acts|
  {
    hide Do, Enabled, Safe;
    if acts != [] && s.quit {
      QuitStays(s, acts[0]);
      NoQuitBefore(Do(s, acts[0]), acts[1..]);
    }
  }

  predicate Starts(acts: seq<Action>) { exists i :: 0 <= i < |acts| && acts[i].PSpawn? }

  predicate Wakens(acts: seq<Action>) { exists i :: 0 <= i < |acts| && acts[i].PWakeEvent? }

  // Without h_quit the player, with no process to wait for, as when one has just ended, starts an item or
  // waits for one after at most five of its own steps, whatever the main thread does meanwhile; and if an
  // item is linked in when it looks, that is started.
  lemma {:induction false} NextSoon(s: State, acts: seq<Action>)
    requires Inv(s) && Run(s, acts).Some? && !Run(s, acts).value.quit
    requires Ahead(s.p).Some? && OwnSteps(acts) > Ahead(s.p).value
    ensures Starts(acts) || Wakens(acts)
    ensures Looks(s.p) && s.queue != [] ==> Starts(acts)
    decreases |acts|
  {
    hide Do, Enabled, Safe, Inv, Ahead;
    var a, t := acts[0], Do(s, acts[0]);
    NoQuitBefore(t, acts[1..]);
    InvKept(s, a);
    AheadDrops(s, a);
    if !a.PSpawn? {
      if ByPlayer(a) && a.PWakeEvent? && !(Looks(s.p) && s.queue != []) {
        assert Wakens(acts);
      } else {
        LookingWakesNot(s, a);
        if Looks(s.p) && s.queue != [] {
          HeaderLeads(s);
          LooksOn(s, a);
        }
        NextSoon(t, acts[1..]);
        assert forall i :: 0 <= i < |acts| - 1 ==> acts[1..][i] == acts[i + 1];
      }
    }
  }

  lemma LookingWakesNot(s: State, a: Action)
    requires Enabled(s, a)
    ensures Looks(s.p) ==> !a.PWakeEvent?
  {
  }

  // The process that was waited for has ended: the next item linked in is started within six steps of the
  // player's own.
  lemma NextItemStarted(s: State, acts: seq<Action>)
    requires Reachable(s) && Enabled(s, PProcessEnds) && s.queue != []
    requires Run(s, [PProcessEnds] + acts).Some? && !Run(s, [PProcessEnds] + acts).value.quit && OwnSteps(acts) >= 6
    ensures Starts(acts)
  {
    hide Reachable, Inv, Enabled, Safe, Do, Ahead, Looks;
    ReachableInv(s);
    assert ([PProcessEnds] + acts)[1..] == acts;
    InvKept(s, PProcessEnds);
    ProcessEnded(s);
    NextSoon(Do(s, PProcessEnds), acts);
  }

  lemma ProcessEnded(s: State)
    requires Enabled(s, PProcessEnds)
    ensures var t := Do(s, PProcessEnds); Ahead(t.p) == Some(5) && Looks(t.p) && t.queue == s.queue
  {
  }

  // The player is stopped by nothing but an empty queue, or the lock while the main thread holds it and can
  // go on.
  lemma PlayerGoesOn(s: State) returns (a: Action)
    requires Reachable(s) && !s.p.Finished? && !(s.p.WaitEmpty? && !s.event)
    ensures Enabled(s, a) && (ByPlayer(a) || (MainHoldsLock(s.m) && !a.NewCell?))
    ensures ByPlayer(a) || s.lock.Main?
  {
    ControlFacts(s);
    hide Reachable;
    a := match s.p
      case Starting | Relock | RelockInner(_) =>
        if s.lock.Nobody? then PAcquire else if s.m.Locked? then AssignLink else if s.m.Linked? then AssignTailer else Release
      case TestQuit => PTestQuit
      case TestHead => PTestHead
      case LeaveEmpty | LeaveInner => PRelease
      case WaitEmpty => PWakeEvent
      case WaitInner => if s.event then PWakeEvent else PProcessEnds
      case Spawn => PSpawn(true)
      case Unlink(_) => PUnlink
      case TestInner(_) => PTestInner
      case _ => if s.header.Some? then PDrainOne else PFinish;
  }
}
