// The video player's queue: the main thread appends through a pointer to the last link, the player
// thread takes items from the front, under one lock and an auto-reset event.  Each action below is
// what one thread does between two points where the other may run.
module Player {
  import opened Basics

  // What play_video is given.
  datatype Item = Item(url: string, refer: string)

  type CellId = nat

  // A heap cell: video_url_item.
  datatype Cell = Cell(item: Item, next: Option<CellId>)

  // What _tailer can address: _header, or the vui_next field of a cell.
  datatype Link = Header | NextOf(cell: CellId)

  datatype Owner = Nobody | Main | Player

  // Where the main thread stands: between calls, inside play_video, or inside player_cleanup.
  datatype MainPc =
    | Idle
    | HasCell(cell: CellId)       // cell built, lock not yet taken
    | Locked(cell: CellId)        // lock held
    | Linked(cell: CellId)        // *_tailer assigned
    | Moved                       // _tailer assigned
    | Unlocked                    // lock released, SetEvent to come
    | QuitSet                     // h_quit assigned, SetEvent to come
    | Joining                     // waiting for the player thread
    | Ended

  // Where the player thread stands in player_routine.
  datatype PlayerPc =
    | Starting                    // before the first EnterCriticalSection
    | TestQuit                    // at the head of the loop, lock held
    | TestHead                    // h_quit was zero
    | LeaveEmpty                  // queue seen empty, about to release
    | WaitEmpty                   // at WaitForSingleObject
    | Relock                      // woken, about to take the lock
    | Spawn                       // about to start a player process for the first item
    | Unlink(created: bool)       // process started or not, first item still linked
    | LeaveInner                  // about to release and wait for the process
    | WaitInner                   // at WaitForMultipleObjects
    | RelockInner(event: bool)    // woken by the event or by the end of the process
    | TestInner(event: bool)      // lock held again
    | Drain                       // h_quit seen, freeing what is left
    | Finished

  datatype State = State(
    header: Option<CellId>, tailer: Link, heap: map<CellId, Cell>, fresh_: CellId,
    lock: Owner, event: bool, quit: bool, m: MainPc, p: PlayerPc,
    // History: items linked in so far, items whose process was started or refused, items freed by the
    // final drain, cells freed in order, and the cells now linked.
    linked: seq<Item>, played: seq<Item>, drained: seq<Item>, freed: seq<CellId>, queue: seq<CellId>)

  datatype Action =
    | NewCell(item: Item) | Acquire | AssignLink | AssignTailer | Release | Signal | SetQuit | SignalQuit | Join
    | PAcquire | PTestQuit | PTestHead | PRelease | PWakeEvent | PSpawn(ok: bool) | PUnlink | PProcessEnds | PTestInner
    | PDrainOne | PFinish

  predicate ByPlayer(a: Action)
  {
    a.PAcquire? || a.PTestQuit? || a.PTestHead? || a.PRelease? || a.PWakeEvent? || a.PSpawn? || a.PUnlink?
    || a.PProcessEnds? || a.PTestInner? || a.PDrainOne? || a.PFinish?
  }

  // player_initialize has run and the player thread has just been started.
  function Initial(): State
  {
    State(None, Header, map[], 0, Nobody, false, false, Idle, Starting, [], [], [], [], [])
  }

  // A link that may be followed or assigned: _header itself or a field of a cell still allocated.
  predicate ValidLink(s: State, l: Link)
  {
    l.Header? || l.cell in s.heap
  }

  function AssignThrough(s: State, l: Link, v: Option<CellId>): State
    requires ValidLink(s, l)
  {
    match l
    case Header => s.(header := v)
    case NextOf(c) => s.(heap := s.heap[c := s.heap[c].(next := v)])
  }

  predicate Enabled(s: State, a: Action)
  {
    match a
    case NewCell(_) => s.m.Idle?
    case Acquire => s.m.HasCell? && s.lock.Nobody?
    case AssignLink => s.m.Locked?
    case AssignTailer => s.m.Linked?
    case Release => s.m.Moved?
    case Signal => s.m.Unlocked?
    case SetQuit => s.m.Idle?
    case SignalQuit => s.m.QuitSet?
    case Join => s.m.Joining? && s.p.Finished?
    case PAcquire => (s.p.Starting? || s.p.Relock? || s.p.RelockInner?) && s.lock.Nobody?
    case PTestQuit => s.p.TestQuit?
    case PTestHead => s.p.TestHead?
    case PRelease => s.p.LeaveEmpty? || s.p.LeaveInner?
    case PWakeEvent => (s.p.WaitEmpty? || s.p.WaitInner?) && s.event
    case PSpawn(_) => s.p.Spawn?
    case PUnlink => s.p.Unlink?
    case PProcessEnds => s.p.WaitInner? && !s.event
    case PTestInner => s.p.TestInner?
    case PDrainOne => s.p.Drain? && s.header.Some?
    case PFinish => s.p.Drain? && s.header.None?
  }

  // Every pointer the action follows leads to allocated memory.
  predicate Safe(s: State, a: Action)
  {
    match a
    case AssignLink => ValidLink(s, s.tailer)
    case PSpawn(_) => s.header.Some? && s.header.value in s.heap
    case PUnlink => s.header.Some? && s.header.value in s.heap
    case PDrainOne => s.header.Some? && s.header.value in s.heap
    case _ => true
  }

  function Free(s: State): State
    requires s.header.Some? && s.header.value in s.heap
  {
    s.(header := s.heap[s.header.value].next, heap := s.heap - {s.header.value}, freed := s.freed + [s.header.value],
       queue := if s.queue == [] then [] else s.queue[1..])
  }

  // The append's first assignment.
  function LinkStep(s: State): State
    requires s.m.Locked? && ValidLink(s, s.tailer)
  {
    var item := if s.m.cell in s.heap then [s.heap[s.m.cell].item] else [];
    AssignThrough(s, s.tailer, Some(s.m.cell)).(m := Linked(s.m.cell), linked := s.linked + item, queue := s.queue + [s.m.cell])
  }

  // Unlinking and freeing the item just started.
  function UnlinkStep(s: State): State
    requires s.p.Unlink? && s.header.Some? && s.header.value in s.heap
  {
    var t := Free(s);
    t.(tailer := if t.header.None? then Header else t.tailer, p := if s.p.created then LeaveInner else TestQuit)
  }

  // One pass of the final drain.
  function DrainStep(s: State): State
    requires s.header.Some? && s.header.value in s.heap
  {
    Free(s).(drained := s.drained + [s.heap[s.header.value].item])
  }

  function Do(s: State, a: Action): State
    requires Enabled(s, a) && Safe(s, a)
  {
    match a
    case NewCell(item) =>
      s.(heap := s.heap[s.fresh_ := Cell(item, None)], fresh_ := s.fresh_ + 1, m := HasCell(s.fresh_))
    case Acquire => s.(lock := Main, m := Locked(s.m.cell))
    case AssignLink => LinkStep(s)
    case AssignTailer => s.(tailer := NextOf(s.m.cell), m := Moved)
    case Release => s.(lock := Nobody, m := Unlocked)
    case Signal => s.(event := true, m := Idle)
    case SetQuit => s.(quit := true, m := QuitSet)
    case SignalQuit => s.(event := true, m := Joining)
    case Join => s.(m := Ended)
    case PAcquire =>
      s.(lock := Player, p := match s.p case RelockInner(e) => TestInner(e) case _ => TestQuit)
    case PTestQuit => s.(p := if s.quit then Drain else TestHead)
    case PTestHead => s.(p := if s.header.None? then LeaveEmpty else Spawn)
    case PRelease => s.(lock := Nobody, p := if s.p.LeaveEmpty? then WaitEmpty else WaitInner)
    case PWakeEvent => s.(event := false, p := if s.p.WaitEmpty? then Relock else RelockInner(true))
    case PSpawn(ok) => s.(p := Unlink(ok), played := s.played + [s.heap[s.header.value].item])
    case PUnlink => UnlinkStep(s)
    case PProcessEnds => s.(p := RelockInner(false))
    case PTestInner => s.(p := if s.p.event && !s.quit then LeaveInner else TestQuit)
    case PDrainOne => DrainStep(s)
    case PFinish => s.(lock := Nobody, p := Finished)
  }

  // The state after a run of actions; None when one of them was not enabled or not safe.
  function Run(s: State, acts: seq<Action>): Option<State>
    decreases |acts|
  {
    if acts == [] then Some(s)
    else if !Enabled(s, acts[0]) || !Safe(s, acts[0]) then None
    else Run(Do(s, acts[0]), acts[1..])
  }

  function Items(heap: map<CellId, Cell>, ids: seq<CellId>): seq<Item>
    requires forall i :: 0 <= i < |ids| ==> ids[i] in heap
  {
    seq(|ids|, i requires 0 <= i < |ids| => heap[ids[i]].item)
  }

  predicate PlayerHoldsLock(p: PlayerPc)
  {
    p.TestQuit? || p.TestHead? || p.LeaveEmpty? || p.Spawn? || p.Unlink? || p.LeaveInner? || p.TestInner? || p.Drain?
  }

  predicate MainHoldsLock(m: MainPc) { m.Locked? || m.Linked? || m.Moved? }

  // The linked cells form a chain from _header, each vui_next leading to the following cell.
  predicate Chain(header: Option<CellId>, heap: map<CellId, Cell>, queue: seq<CellId>)
  {
    && (forall i :: 0 <= i < |queue| ==> queue[i] in heap)
    && (forall i, j :: 0 <= i < j < |queue| ==> queue[i] != queue[j])
    && header == (if queue == [] then None else Some(queue[0]))
    && forall i :: 0 <= i < |queue| ==> heap[queue[i]].next == NextIn(queue, i)
  }

  function NextIn(queue: seq<CellId>, i: nat): Option<CellId>
    requires i < |queue|
  {
    if i + 1 < |queue| then Some(queue[i + 1]) else None
  }

  // The link cell that addresses the end of a chain.
  function LastLink(queue: seq<CellId>): Link
  {
    if queue == [] then Header else NextOf(queue[|queue| - 1])
  }

  // _tailer addresses the last link, except between the two assignments of an append and once the
  // final drain has freed the last cell, whose link it then still addresses.
  predicate TailerOk(tailer: Link, queue: seq<CellId>, m: MainPc, drained: bool)
  {
    && (drained ==> tailer.NextOf?)
    && if m.Linked? then queue != [] && queue[|queue| - 1] == m.cell
       else tailer == LastLink(queue) || (queue == [] && drained)
  }

  // The cell the main thread has built and not yet linked.
  function Pending(m: MainPc): set<CellId>
  {
    match m
    case HasCell(c) => {c}
    case Locked(c) => {c}
    case _ => {}
  }

  // Cells are numbered below next; each is allocated or has been freed, once; the allocated ones are
  // linked or pending.
  predicate Memory(heap: map<CellId, Cell>, next: CellId, freed: seq<CellId>, queue: seq<CellId>, pending: set<CellId>)
  {
    && (forall c :: c in heap ==> c < next && c !in freed)
    && (forall c :: c in freed ==> c < next)
    && (forall i, j :: 0 <= i < j < |freed| ==> freed[i] != freed[j])
    && (forall c: CellId :: c < next ==> c in heap || c in freed)
    && (forall c :: c in pending ==> c in heap && c !in queue && heap[c].next == None)
    && (forall c :: c in heap ==> c in queue || c in pending)
  }

  predicate Locks(lock: Owner, m: MainPc, p: PlayerPc)
  {
    && (lock.Player? <==> PlayerHoldsLock(p))
    && (lock.Main? <==> MainHoldsLock(m))
  }

  // A SetEvent is still to come from the main thread.
  predicate SignalPending(m: MainPc) { m.Linked? || m.Moved? || m.Unlocked? || m.QuitSet? }

  // No wake-up is lost: the player is never parked, or about to be, on an empty-queue wait with work
  // to do or h_quit set unless the event is signalled or a SetEvent is still to come; nor on the wait
  // for its process with h_quit set.
  predicate Wakeups(event: bool, quit: bool, busy: bool, m: MainPc, p: PlayerPc)
  {
    && (quit <==> m.QuitSet? || m.Joining? || m.Ended?)
    && (p.Drain? || p.Finished? ==> quit)
    && ((p.LeaveEmpty? || p.WaitEmpty?) && (busy || quit) ==> event || SignalPending(m))
    && ((p.LeaveInner? || p.WaitInner?) && quit ==> event || SignalPending(m))
    && ((p.TestHead? || p.Spawn? || p.Unlink?) && quit ==> event || SignalPending(m))
    && (m.Ended? ==> p.Finished?)
    && (p.LeaveEmpty? ==> !busy)
    && (p.Spawn? || p.Unlink? ==> busy)
    && (p.Finished? ==> !busy)
  }

  // Played items already unlinked: all but one while the first is still linked.
  function Unlinked(played: seq<Item>, p: PlayerPc): seq<Item>
  {
    if p.Unlink? && played != [] then played[..|played| - 1] else played
  }

  // Items leave in the order they were linked: those started, then those drained, then those still
  // linked make up everything ever linked.
  predicate Fifo(linked: seq<Item>, played: seq<Item>, drained: seq<Item>, left: seq<Item>, p: PlayerPc)
  {
    && linked == Unlinked(played, p) + drained + left
    && (p.Unlink? ==> left != [] && played != [] && played[|played| - 1] == left[0])
    && (drained != [] ==> p.Drain? || p.Finished?)
  }

  predicate Inv(s: State)
  {
    && Chain(s.header, s.heap, s.queue)
    && TailerOk(s.tailer, s.queue, s.m, s.drained != [])
    && Memory(s.heap, s.fresh_, s.freed, s.queue, Pending(s.m))
    && Locks(s.lock, s.m, s.p)
    && Wakeups(s.event, s.quit, s.queue != [], s.m, s.p)
    && Fifo(s.linked, s.played, s.drained, Items(s.heap, s.queue), s.p)
  }

  lemma InvInitial()
    ensures Inv(Initial())
  {
  }

  lemma InvSafe(s: State, a: Action)
    requires Inv(s) && Enabled(s, a)
    ensures Safe(s, a)
  {
    DrainedWhen(s.linked, s.played, s.drained, Items(s.heap, s.queue), s.p);
    hide Memory, Fifo;
  }

  // The actions that touch neither heap nor queue.
  predicate Control(a: Action)
  {
    !a.NewCell? && !a.AssignLink? && !a.PUnlink? && !a.PDrainOne?
  }

  lemma ControlSame(s: State, a: Action)
    requires Enabled(s, a) && Safe(s, a) && Control(a)
    ensures var t := Do(s, a);
      t.header == s.header && t.heap == s.heap && t.queue == s.queue && t.fresh_ == s.fresh_ && t.freed == s.freed
      && Pending(t.m) == Pending(s.m)
  {
  }

  lemma ControlTailer(s: State, a: Action)
    requires Enabled(s, a) && Safe(s, a) && Control(a)
    requires TailerOk(s.tailer, s.queue, s.m, s.drained != []) && Locks(s.lock, s.m, s.p) && Wakeups(s.event, s.quit, s.queue != [], s.m, s.p)
    requires s.drained != [] ==> s.p.Drain? || s.p.Finished?
    ensures var t := Do(s, a); TailerOk(t.tailer, t.queue, t.m, t.drained != [])
  {
  }

  lemma ControlLocks(s: State, a: Action)
    requires Enabled(s, a) && Safe(s, a) && Control(a) && Locks(s.lock, s.m, s.p)
    ensures var t := Do(s, a); Locks(t.lock, t.m, t.p)
  {
  }

  lemma ControlWakeups(s: State, a: Action)
    requires Enabled(s, a) && Safe(s, a) && Control(a) && Locks(s.lock, s.m, s.p)
    requires s.header == (if s.queue == [] then None else Some(s.queue[0]))
    requires Wakeups(s.event, s.quit, s.queue != [], s.m, s.p)
    ensures var t := Do(s, a); Wakeups(t.event, t.quit, t.queue != [], t.m, t.p)
  {
  }

  lemma ControlFifo(s: State, a: Action)
    requires Enabled(s, a) && Safe(s, a) && Control(a)
    requires Chain(s.header, s.heap, s.queue) && Wakeups(s.event, s.quit, s.queue != [], s.m, s.p)
    requires Fifo(s.linked, s.played, s.drained, Items(s.heap, s.queue), s.p)
    ensures var t := Do(s, a); Fifo(t.linked, t.played, t.drained, Items(s.heap, s.queue), t.p)
  {
    var t := Do(s, a);
    if a.PSpawn? {
      assert t.played[..|t.played| - 1] == s.played;
    }
  }

  lemma DrainedWhen(linked: seq<Item>, played: seq<Item>, drained: seq<Item>, left: seq<Item>, p: PlayerPc)
    requires Fifo(linked, played, drained, left, p)
    ensures drained != [] ==> p.Drain? || p.Finished?
  {
  }

  lemma ControlKeeps(s: State, a: Action)
    requires Inv(s) && Enabled(s, a) && Safe(s, a) && Control(a)
    ensures Inv(Do(s, a))
  {
    hide TailerOk, Memory, Locks, Wakeups, Fifo, Enabled, Safe, Control, Do, Items;
    ControlSame(s, a);
    DrainedWhen(s.linked, s.played, s.drained, Items(s.heap, s.queue), s.p);
    ControlTailer(s, a);
    ControlLocks(s, a);
    ControlWakeups(s, a);
    ControlFifo(s, a);
  }

  lemma NewCellMemory(header: Option<CellId>, heap: map<CellId, Cell>, next: CellId, freed: seq<CellId>, queue: seq<CellId>, item: Item)
    requires Chain(header, heap, queue) && Memory(heap, next, freed, queue, {})
    ensures var heap2 := heap[next := Cell(item, None)];
      && Chain(header, heap2, queue) && Items(heap2, queue) == Items(heap, queue)
      && Memory(heap2, next + 1, freed, queue, {next})
  {
    hide NextIn;
    assert next !in heap && next !in queue;
  }

  lemma NewCellKeeps(s: State, item: Item)
    requires Inv(s) && Enabled(s, NewCell(item))
    ensures Inv(Do(s, NewCell(item)))
  {
    hide Chain, Memory, Items;
    NewCellMemory(s.header, s.heap, s.fresh_, s.freed, s.queue, item);
  }

  // Assigning the last link of a chain.
  function Relinked(heap: map<CellId, Cell>, queue: seq<CellId>, c: CellId): map<CellId, Cell>
    requires queue != [] ==> queue[|queue| - 1] in heap
  {
    if queue == [] then heap else
      var last := queue[|queue| - 1];
      heap[last := heap[last].(next := Some(c))]
  }

  lemma RelinkedAt(header: Option<CellId>, heap: map<CellId, Cell>, queue: seq<CellId>, c: CellId, i: nat)
    requires Chain(header, heap, queue) && c in heap && c !in queue && heap[c].next == None && i <= |queue|
    ensures var heap2, q2 := Relinked(heap, queue, c), queue + [c];
      && q2[i] in heap && q2[i] in heap2 && heap2[q2[i]].next == NextIn(q2, i) && heap2[q2[i]].item == heap[q2[i]].item
  {
    if i < |queue| {
      assert (queue + [c])[i] == queue[i];
      assert heap[queue[i]].next == NextIn(queue, i);
    }
  }

  // Appending a cell through the last link extends the chain.
  lemma AppendChain(header: Option<CellId>, heap: map<CellId, Cell>, queue: seq<CellId>, c: CellId)
    requires Chain(header, heap, queue) && c in heap && c !in queue && heap[c].next == None
    ensures
      && Chain(if queue == [] then Some(c) else header, Relinked(heap, queue, c), queue + [c])
      && Items(Relinked(heap, queue, c), queue + [c]) == Items(heap, queue) + [heap[c].item]
  {
    hide Items;
    var heap2, q2 := Relinked(heap, queue, c), queue + [c];
    hide Relinked, NextIn;
    forall i | 0 <= i < |q2|
      ensures q2[i] in heap && q2[i] in heap2 && heap2[q2[i]].next == NextIn(q2, i) && heap2[q2[i]].item == heap[q2[i]].item
    {
      RelinkedAt(header, heap, queue, c, i);
    }
    ItemsAppend(heap, heap2, queue, c);
  }

  lemma ItemsAppend(heap: map<CellId, Cell>, heap2: map<CellId, Cell>, queue: seq<CellId>, c: CellId)
    requires c in heap && forall i :: 0 <= i < |queue| ==> queue[i] in heap
    requires forall i :: 0 <= i < |queue| + 1 ==> (queue + [c])[i] in heap2 && heap2[(queue + [c])[i]].item == heap[(queue + [c])[i]].item
    ensures Items(heap2, queue + [c]) == Items(heap, queue) + [heap[c].item]
  {
    var q2 := queue + [c];
    assert forall i :: 0 <= i < |queue| ==> q2[i] == queue[i];
  }

  lemma AppendMemory(heap: map<CellId, Cell>, next: CellId, freed: seq<CellId>, queue: seq<CellId>, c: CellId, heap2: map<CellId, Cell>)
    requires Memory(heap, next, freed, queue, {c}) && heap2.Keys == heap.Keys
    ensures Memory(heap2, next, freed, queue + [c], {})
  {
  }

  lemma LinkStepIs(s: State)
    requires Inv(s) && s.m.Locked? && ValidLink(s, s.tailer)
    ensures
      var c, n := s.m.cell, |s.queue|;
      && c in s.heap && c !in s.queue && s.heap[c].next == None && (s.queue != [] ==> s.queue[n - 1] in s.heap)
      && LinkStep(s) ==
         s.(header := if n == 0 then Some(c) else s.header,
            heap := Relinked(s.heap, s.queue, c),
            m := Linked(c), linked := s.linked + [s.heap[c].item], queue := s.queue + [c])
  {
    DrainedWhen(s.linked, s.played, s.drained, Items(s.heap, s.queue), s.p);
    assert s.tailer == LastLink(s.queue) by { hide Chain, Items, Fifo, Memory; }
    assert s.queue != [] ==> s.queue[|s.queue| - 1] in s.heap by { hide Items, Fifo, Memory; }
    hide Chain, Items, Fifo;
    PendingFacts(s, s.m.cell);
  }

  lemma AssignLinkControl(s: State)
    requires s.m.Locked? && Locks(s.lock, s.m, s.p) && Wakeups(s.event, s.quit, s.queue != [], s.m, s.p)
    requires TailerOk(s.tailer, s.queue, s.m, s.drained != [])
    ensures Locks(s.lock, Linked(s.m.cell), s.p) && Wakeups(s.event, s.quit, true, Linked(s.m.cell), s.p)
    ensures TailerOk(s.tailer, s.queue + [s.m.cell], Linked(s.m.cell), s.drained != []) && Pending(Linked(s.m.cell)) == {}
    ensures Pending(s.m) == {s.m.cell}
  {
  }

  lemma LinkStepKeeps(s: State)
    requires Inv(s) && s.m.Locked? && ValidLink(s, s.tailer)
    ensures Inv(LinkStep(s))
  {
    var c, t, left := s.m.cell, LinkStep(s), Items(s.heap, s.queue);
    LinkStepIs(s);
    AssignLinkControl(s);
    AppendFifo(s.linked, s.played, s.drained, left, s.p, s.heap[c].item);
    AppendChain(s.header, s.heap, s.queue, c);
    assert t.heap.Keys == s.heap.Keys;
    hide Chain, Memory, Items, Fifo, Locks, Wakeups, TailerOk, Pending, LinkStep, Relinked;
    AppendMemory(s.heap, s.fresh_, s.freed, s.queue, c, t.heap);
  }

  lemma PendingFacts(s: State, c: CellId)
    requires Memory(s.heap, s.fresh_, s.freed, s.queue, {c})
    ensures c in s.heap && c !in s.queue && s.heap[c].next == None
  {
  }

  lemma AppendFifo(linked: seq<Item>, played: seq<Item>, drained: seq<Item>, left: seq<Item>, p: PlayerPc, item: Item)
    requires Fifo(linked, played, drained, left, p)
    ensures Fifo(linked + [item], played, drained, left + [item], p)
  {
  }

  // Freeing the first cell shortens the chain.
  lemma TailChain(header: Option<CellId>, heap: map<CellId, Cell>, queue: seq<CellId>)
    requires Chain(header, heap, queue) && queue != []
    ensures header == Some(queue[0]) && queue[0] in heap
    ensures Chain(heap[queue[0]].next, heap - {queue[0]}, queue[1..])
  {
    var c, q := queue[0], queue[1..];
    assert forall i :: 0 <= i < |q| ==> q[i] == queue[i + 1];
    forall i | 0 <= i < |q|
      ensures q[i] in heap - {c} && (heap - {c})[q[i]].next == NextIn(q, i)
    {
      assert queue[i + 1] != c;
      assert heap[queue[i + 1]].next == NextIn(queue, i + 1);
    }
    assert heap[queue[0]].next == NextIn(queue, 0);
  }

  lemma TailItems(header: Option<CellId>, heap: map<CellId, Cell>, queue: seq<CellId>)
    requires Chain(header, heap, queue) && queue != []
    requires Chain(heap[queue[0]].next, heap - {queue[0]}, queue[1..])
    ensures Items(heap, queue) == [heap[queue[0]].item] + Items(heap - {queue[0]}, queue[1..])
  {
  }

  lemma TailMemory(heap: map<CellId, Cell>, next: CellId, freed: seq<CellId>, queue: seq<CellId>, pending: set<CellId>)
    requires Memory(heap, next, freed, queue, pending) && queue != [] && queue[0] in heap
    requires queue[0] !in queue[1..]
    ensures Memory(heap - {queue[0]}, next, freed + [queue[0]], queue[1..], pending)
  {
    var c := queue[0];
    assert forall d :: d in queue <==> d == c || d in queue[1..];
    assert forall d :: d in freed + [c] <==> d in freed || d == c;
  }

  // What freeing the first cell does to the parts of the state.
  lemma FreeKeeps(s: State)
    requires Chain(s.header, s.heap, s.queue) && s.queue != []
    requires Memory(s.heap, s.fresh_, s.freed, s.queue, Pending(s.m))
    ensures s.header.Some? && s.header.value in s.heap
    ensures var t := Free(s);
      && Chain(t.header, t.heap, t.queue) && t.queue == s.queue[1..]
      && Memory(t.heap, t.fresh_, t.freed, t.queue, Pending(s.m))
      && Items(s.heap, s.queue) == [s.heap[s.header.value].item] + Items(t.heap, t.queue)
  {
    assert s.queue[0] !in s.queue[1..];
    TailChain(s.header, s.heap, s.queue);
    TailItems(s.header, s.heap, s.queue);
    hide Memory, Chain, Items;
    TailMemory(s.heap, s.fresh_, s.freed, s.queue, Pending(s.m));
  }

  lemma UnlinkControl(s: State, queue: seq<CellId>, tailer: Link)
    requires s.p.Unlink? && s.queue != [] && queue == s.queue[1..]
    requires TailerOk(s.tailer, s.queue, s.m, s.drained != []) && Locks(s.lock, s.m, s.p) && Wakeups(s.event, s.quit, true, s.m, s.p)
    requires tailer == if queue == [] then Header else s.tailer
    requires s.drained != [] ==> s.p.Drain? || s.p.Finished?
    ensures var p := if s.p.created then LeaveInner else TestQuit;
      TailerOk(tailer, queue, s.m, s.drained != []) && Locks(s.lock, s.m, p) && Wakeups(s.event, s.quit, queue != [], s.m, p)
  {
  }

  lemma UnlinkFifo(linked: seq<Item>, played: seq<Item>, drained: seq<Item>, left: seq<Item>, ok: bool, p: PlayerPc)
    requires Fifo(linked, played, drained, left, Unlink(ok)) && !p.Unlink?
    ensures Fifo(linked, played, drained, left[1..], p)
  {
    var n := |played| - 1;
    assert drained == [];
    assert played == played[..n] + [left[0]];
    assert left == [left[0]] + left[1..];
    assert linked == played[..n] + left;
    assert played[..n] + ([left[0]] + left[1..]) == (played[..n] + [left[0]]) + left[1..];
  }

  lemma UnlinkStepIs(s: State)
    requires Chain(s.header, s.heap, s.queue) && s.p.Unlink? && s.queue != []
    requires Memory(s.heap, s.fresh_, s.freed, s.queue, Pending(s.m))
    ensures s.header.Some? && s.header.value in s.heap
    ensures var u, t := Free(s), UnlinkStep(s);
      t == s.(header := u.header, heap := u.heap, freed := u.freed, queue := s.queue[1..],
              tailer := if s.queue[1..] == [] then Header else s.tailer,
              p := if s.p.created then LeaveInner else TestQuit)
  {
    FreeKeeps(s);
    FreeFrame(s);
    assert Free(s).header == None <==> s.queue[1..] == [];
  }

  lemma UnlinkStepKeeps(s: State)
    requires Inv(s) && s.p.Unlink? && s.header.Some? && s.header.value in s.heap
    ensures Inv(UnlinkStep(s))
  {
    var u, left, q := Free(s), Items(s.heap, s.queue), s.queue[1..];
    FreeKeeps(s);
    UnlinkStepIs(s);
    DrainedWhen(s.linked, s.played, s.drained, left, s.p);
    UnlinkControl(s, q, if q == [] then Header else s.tailer);
    UnlinkFifo(s.linked, s.played, s.drained, left, s.p.created, if s.p.created then LeaveInner else TestQuit);
    assert left[1..] == Items(u.heap, q);
    hide Memory, Items, Chain, Fifo, TailerOk, Locks, Wakeups, Free, UnlinkStep;
  }

  lemma FreeFrame(s: State)
    requires s.header.Some? && s.header.value in s.heap
    ensures var t := Free(s);
      t == s.(header := t.header, heap := t.heap, freed := t.freed, queue := t.queue)
  {
  }

  lemma DrainFifo(linked: seq<Item>, played: seq<Item>, drained: seq<Item>, left: seq<Item>)
    requires Fifo(linked, played, drained, left, Drain) && left != []
    ensures Fifo(linked, played, drained + [left[0]], left[1..], Drain)
  {
    assert left == [left[0]] + left[1..];
  }

  lemma DrainControl(s: State, queue: seq<CellId>)
    requires s.p.Drain? && s.queue != [] && queue == s.queue[1..]
    requires TailerOk(s.tailer, s.queue, s.m, s.drained != []) && Wakeups(s.event, s.quit, true, s.m, s.p)
    ensures TailerOk(s.tailer, queue, s.m, true) && Wakeups(s.event, s.quit, queue != [], s.m, s.p)
  {
  }

  lemma DrainStepKeeps(s: State)
    requires Inv(s) && s.p.Drain? && s.header.Some? && s.header.value in s.heap
    ensures Inv(DrainStep(s))
  {
    var u, left := Free(s), Items(s.heap, s.queue);
    FreeKeeps(s);
    FreeFrame(s);
    DrainControl(s, u.queue);
    DrainFifo(s.linked, s.played, s.drained, left);
    assert left[1..] == Items(u.heap, u.queue);
    hide Memory, Items, Chain, Fifo, TailerOk, Locks, Wakeups, Free;
    assert DrainStep(s) == u.(drained := s.drained + [left[0]]);
  }

  // Every action of either thread is safe and keeps the invariant.
  lemma InvKept(s: State, a: Action)
    requires Inv(s) && Enabled(s, a)
    ensures Safe(s, a) && Inv(Do(s, a))
  {
    InvSafe(s, a);
    hide Inv, LinkStep, UnlinkStep, DrainStep;
    match a
    case NewCell(item) => NewCellKeeps(s, item);
    case AssignLink => LinkStepKeeps(s);
    case PUnlink => UnlinkStepKeeps(s);
    case PDrainOne => DrainStepKeeps(s);
    case _ => ControlKeeps(s, a);
  }

  // Everything that holds of every reachable state, over all interleavings of one lifetime.
  lemma {:induction false} RunKeeps(s: State, acts: seq<Action>)
    requires Inv(s) && Run(s, acts).Some?
    ensures Inv(Run(s, acts).value)
    decreases |acts|
  {
    hide Inv, Do, Enabled, Safe;
    if acts != [] {
      InvKept(s, acts[0]);
      RunKeeps(Do(s, acts[0]), acts[1..]);
    }
  }

  ghost predicate Reachable(s: State)
  {
    exists acts :: Run(Initial(), acts) == Some(s)
  }

  lemma ReachableInv(s: State)
    requires Reachable(s)
    ensures Inv(s)
  {
    hide Inv;
    var acts :| Run(Initial(), acts) == Some(s);
    InvInitial();
    RunKeeps(Initial(), acts);
  }

  // No action follows a pointer into freed memory.
  lemma NeverUnsafe(s: State, a: Action)
    requires Reachable(s) && Enabled(s, a)
    ensures Safe(s, a)
  {
    hide Inv, Enabled, Safe;
    ReachableInv(s);
    InvSafe(s, a);
  }

  // Items leave first in, first out: those started and those drained are, in order, the first ones
  // linked, and what is still linked follows.
  lemma FirstInFirstOut(s: State)
    requires Reachable(s)
    ensures s.played + s.drained <= s.linked
    ensures |s.linked| == |s.played| + |s.drained| + |s.queue| - (if s.p.Unlink? then 1 else 0)
  {
    ReachableInv(s);
    hide Chain, Memory, Locks, Wakeups, TailerOk, Fifo;
    FifoPrefix(s.linked, s.played, s.drained, Items(s.heap, s.queue), s.p);
  }

  lemma FifoPrefix(linked: seq<Item>, played: seq<Item>, drained: seq<Item>, left: seq<Item>, p: PlayerPc)
    requires Fifo(linked, played, drained, left, p)
    ensures played + drained <= linked
    ensures |linked| == |played| + |drained| + |left| - (if p.Unlink? then 1 else 0)
  {
    if p.Unlink? {
      assert drained == [];
      assert played == played[..|played| - 1] + [left[0]];
      assert left == [left[0]] + left[1..];
      assert linked == played + drained + left[1..];
    }
  }

  // When the lifetime is over, every item was started or drained, nothing is left allocated, and
  // every cell ever built was freed, once.
  lemma AllFreedOnce(s: State)
    requires Reachable(s) && s.m.Ended?
    ensures s.played + s.drained == s.linked
    ensures s.heap == map[] && s.p.Finished?
    ensures forall c: CellId :: c < s.fresh_ ==> c in s.freed
    ensures forall i, j :: 0 <= i < j < |s.freed| ==> s.freed[i] != s.freed[j]
  {
    ReachableInv(s);
    assert s.queue == [];
    assert Items(s.heap, s.queue) == [];
  }

  // _tailer addresses the last link cell: always, short of the two assignments of an append, until
  // the final drain frees something.
  lemma TailerAddressesLastLink(s: State)
    requires Reachable(s) && !s.m.Linked? && s.drained == []
    ensures s.tailer == LastLink(s.queue)
  {
    ReachableInv(s);
  }

  // After the lifetime _tailer is left addressing a freed cell exactly when the drain freed something;
  // a second player_initialize does not reset it.
  lemma TailerDanglesIff(s: State)
    requires Reachable(s) && s.m.Ended?
    ensures !ValidLink(s, s.tailer) <==> s.drained != []
  {
    ReachableInv(s);
    AllFreedOnce(s);
    hide Fifo, Memory, Locks;
  }

  // A run may be looked at from its end.
  lemma {:induction false} RunOn(s: State, acts: seq<Action>, a: Action)
    requires Run(s, acts).Some? && Enabled(Run(s, acts).value, a) && Safe(Run(s, acts).value, a)
    ensures Run(s, acts + [a]) == Some(Do(Run(s, acts).value, a))
    decreases |acts|
  {
    hide Do, Enabled, Safe;
    if acts == [] {
      assert (acts + [a])[1..] == [];
    } else {
      assert (acts + [a])[1..] == acts[1..] + [a];
      RunOn(Do(s, acts[0]), acts[1..], a);
    }
  }

  lemma ReachableOn(s: State, a: Action)
    requires Reachable(s) && Enabled(s, a) && Safe(s, a)
    ensures Reachable(Do(s, a))
  {
    var acts :| Run(Initial(), acts) == Some(s);
    hide Do, Enabled, Safe, Initial, Run;
    RunOn(Initial(), acts, a);
  }

  lemma InitialReachable()
    ensures Reachable(Initial())
  {
    assert Run(Initial(), []) == Some(Initial());
  }

  // An item added just before the cleanup: it is linked in, ...
  lemma OneLinked(item: Item) returns (s: State)
    ensures Reachable(s)
    ensures s == State(Some(0), NextOf(0), map[0 := Cell(item, None)], 1, Nobody, true, false, Idle, Starting, [item], [], [], [], [0])
  {
    InitialReachable();
    hide Reachable, Run;
    s := Initial();
    ReachableOn(s, NewCell(item));
    s := Do(s, NewCell(item));
    ReachableOn(s, Acquire);
    s := Do(s, Acquire);
    ReachableOn(s, AssignLink);
    s := Do(s, AssignLink);
    ReachableOn(s, AssignTailer);
    s := Do(s, AssignTailer);
    ReachableOn(s, Release);
    s := Do(s, Release);
    ReachableOn(s, Signal);
    s := Do(s, Signal);
  }

  // ... the player thread sees h_quit first, and drains it: _tailer is left addressing the freed cell.
  lemma TailerDangles(item: Item) returns (s: State)
    ensures Reachable(s) && s.m.Ended? && s.tailer == NextOf(0) && s.freed == [0] && !ValidLink(s, s.tailer)
  {
    s := OneLinked(item);
    hide Reachable, Run;
    ReachableOn(s, SetQuit);
    s := Do(s, SetQuit);
    ReachableOn(s, SignalQuit);
    s := Do(s, SignalQuit);
    ReachableOn(s, PAcquire);
    s := Do(s, PAcquire);
    ReachableOn(s, PTestQuit);
    s := Do(s, PTestQuit);
    ReachableOn(s, PDrainOne);
    s := Do(s, PDrainOne);
    ReachableOn(s, PFinish);
    s := Do(s, PFinish);
    ReachableOn(s, Join);
    s := Do(s, Join);
  }

  // The parts of the invariant that speak of control.
  lemma ControlFacts(s: State)
    requires Reachable(s)
    ensures Locks(s.lock, s.m, s.p) && Wakeups(s.event, s.quit, s.queue != [], s.m, s.p)
    ensures s.header == if s.queue == [] then None else Some(s.queue[0])
  {
    ReachableInv(s);
    hide Memory, Fifo, TailerOk, Locks, Wakeups, Reachable;
  }

  // The player is never parked on the empty queue with an item linked or h_quit set, unless the event
  // is signalled or a SetEvent is still to come.
  lemma NoLostWakeup(s: State)
    requires Reachable(s) && s.p.WaitEmpty? && (s.queue != [] || s.quit)
    ensures Enabled(s, PWakeEvent) || SignalPending(s.m)
  {
    ControlFacts(s);
    hide Reachable, Locks;
  }

  // How far the player thread is from its end once h_quit is set.
  function Rank(p: PlayerPc): nat
  {
    match p
    case Finished => 0
    case Drain => 1
    case TestQuit => 2
    case Starting => 3
    case Relock => 3
    case WaitEmpty => 4
    case LeaveEmpty => 5
    case TestInner(_) => 3
    case RelockInner(_) => 4
    case WaitInner => 5
    case LeaveInner => 6
    case Unlink(_) => 7
    case Spawn => 8
    case TestHead => 9
  }

  // Once player_cleanup is waiting for the thread, the thread cannot get stuck, not even on a player
  // process that never ends ...
  lemma CleanupNotStuck(s: State) returns (a: Action)
    requires Reachable(s) && s.m.Joining?
    ensures Enabled(s, a) && !a.PProcessEnds? && (a.Join? || ByPlayer(a))
  {
    ControlFacts(s);
    hide Reachable;
    a := match s.p
      case Starting => PAcquire
      case Relock => PAcquire
      case RelockInner(_) => PAcquire
      case TestQuit => PTestQuit
      case TestHead => PTestHead
      case LeaveEmpty => PRelease
      case LeaveInner => PRelease
      case WaitEmpty => PWakeEvent
      case WaitInner => PWakeEvent
      case Spawn => PSpawn(true)
      case Unlink(_) => PUnlink
      case TestInner(_) => PTestInner
      case Drain => if s.header.Some? then PDrainOne else PFinish
      case Finished => Join;
  }

  lemma RankDrops(s: State, a: Action)
    requires s.quit && ByPlayer(a) && Enabled(s, a) && Safe(s, a)
    requires s.header == if s.queue == [] then None else Some(s.queue[0])
    ensures var t := Do(s, a);
      t.m == s.m && |t.queue| + Rank(t.p) < |s.queue| + Rank(s.p)
  {
  }

  // ... and every step it takes brings it closer to its end, so the wait returns.
  lemma CleanupProgress(s: State, a: Action)
    requires Reachable(s) && s.m.Joining? && ByPlayer(a) && Enabled(s, a)
    ensures Safe(s, a) && Do(s, a).m.Joining?
    ensures var t := Do(s, a);
      |t.queue| + Rank(t.p) < |s.queue| + Rank(s.p)
  {
    NeverUnsafe(s, a);
    ControlFacts(s);
    hide Reachable, Do, Enabled, Safe, Locks, Rank;
    RankDrops(s, a);
  }
}
