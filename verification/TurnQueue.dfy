/**
 One session's turns in the GUI: a message sent during a turn waits in a queue, and the end of
 a turn sends the next one. Everything between two awaits is one step; what the backend does
 (settle a dispatch, complete a turn, lose the connection) are steps of the environment, in any
 order. `Sound` is the promise of the queue: one prompt at a time, and nothing left waiting
 while the session is idle.
 */
module TurnQueue {
  import opened Prelude

  // Messages are numbered in the order they were accepted.
  datatype Message = Message(id: nat, text: string)

  datatype Session = Session(
    busy: bool, flushing: bool, queue: seq<Message>,
    awaiting: nat,                // dispatches whose `session_prompt` call has not settled
    running: nat,                 // accepted prompts whose turn has not completed
    owed: nat,                    // turns lost with a connection whose completion may still arrive
    requests: nat,                // requests to cancel a turn made by "insert immediately" so far,
    asked: set<nat>,              //   and those of them that have not settled
    accepted: seq<Message>,       // history: every message taken from the user,
    dispatched: seq<Message>,     //   those passed to `session_prompt`, in that order,
    withdrawn: seq<Message>,      //   those the user took back,
    discarded: seq<Message>)      //   and those dropped with the queue

  const INITIAL := Session(false, false, [], 0, 0, 0, 0, {}, [], [], [], [])

  datatype Event =
    | Submit(text: string)
    | Accepted | Rejected                    // the dispatch call settles
    | Completed(reason: string)              // the turn of a running prompt ends
    | LateCompleted(reason: string)          // the end of a turn lost with its connection is reported
    | PermissionCancelled
    | Disconnected
    | Flush                                  // "insert immediately"
    | FlushServed(request: nat)              // a request to cancel settles, or fails
    | FlushFailed(request: nat)
    | Remove(id: nat)

  predicate Enabled(s: Session, e: Event) {
    match e
    case Accepted => s.awaiting > 0
    case Rejected => s.awaiting > 0
    case Completed(_) => s.running > 0
    case LateCompleted(_) => s.owed > 0
    case FlushServed(request) => request in s.asked
    case FlushFailed(request) => request in s.asked
    case _ => true
  }

  // ------------------------------------------------------------------ steps --

  predicate Aborted(reason: string) {
    reason == "cancelled" || reason == "rejected"
  }

  function Dispatch(s: Session, m: Message): Session {
    s.(busy := true, awaiting := s.awaiting + 1, dispatched := s.dispatched + [m])
  }

  function DrainQueue(s: Session): Session {
    if s.busy || s.queue == [] then s else Dispatch(s.(queue := s.queue[1..]), s.queue[0])
  }

  function ClearQueue(s: Session): Session {
    s.(queue := [], discarded := s.discarded + s.queue)
  }

  function EndTurn(s: Session, reason: string): Session {
    var idle := s.(busy := false, flushing := false);
    if Aborted(reason) && !s.flushing then ClearQueue(idle) else DrainQueue(idle)
  }

  function Ask(s: Session): Session {
    s.(flushing := true, requests := s.requests + 1, asked := s.asked + {s.requests})
  }

  function Without(queue: seq<Message>, id: nat): seq<Message> {
    if queue == [] then [] else (if queue[0].id != id then [queue[0]] else []) + Without(queue[1..], id)
  }

  function Only(queue: seq<Message>, id: nat): seq<Message> {
    if queue == [] then [] else (if queue[0].id == id then [queue[0]] else []) + Only(queue[1..], id)
  }

  function Apply(s: Session, e: Event): Session
    requires Enabled(s, e)
  {
    match e
    case Submit(text) =>
      var m := Message(|s.accepted|, text);
      var taken := s.(accepted := s.accepted + [m]);
      if s.busy then taken.(queue := s.queue + [m]) else Dispatch(taken, m)
    case Accepted => s.(awaiting := s.awaiting - 1, running := s.running + 1)
    case Rejected => s.(awaiting := s.awaiting - 1, busy := false)
    case Completed(reason) => EndTurn(s.(running := s.running - 1), reason)
    case LateCompleted(reason) => EndTurn(s.(owed := s.owed - 1), reason)
    case PermissionCancelled => if s.busy then s.(busy := false, flushing := false) else s
    case Disconnected => ClearQueue(s.(busy := false, flushing := false, owed := s.owed + s.running, running := 0))
    case Flush => if s.queue == [] then s else if s.busy then Ask(s) else DrainQueue(s)
    case FlushServed(request) => s.(asked := s.asked - {request})
    case FlushFailed(request) => s.(flushing := false, asked := s.asked - {request})
    case Remove(id) => s.(queue := Without(s.queue, id), withdrawn := s.withdrawn + Only(s.queue, id))
  }

  ghost predicate Legal(s: Session, run: seq<Event>)
    decreases |run|
  {
    run == [] || (Enabled(s, run[0]) && Legal(Apply(s, run[0]), run[1..]))
  }

  function After(s: Session, run: seq<Event>): Session
    requires Legal(s, run)
    decreases |run|
  {
    if run == [] then s else After(Apply(s, run[0]), run[1..])
  }

  // ------------------------------------------------------------ the handlers --

  // The session bucket of the GUI. `world` adds what only the environment knows.
  class SessionBucket {
    var busy: bool
    var flushing: bool
    var queue: seq<Message>
    var nextId: nat
    ghost var world: Session

    constructor ()
      ensures Valid() && world == INITIAL
    {
      busy, flushing, queue, nextId := false, false, [], 0;
      world := INITIAL;
    }

    ghost predicate Valid()
      reads this
    {
      busy == world.busy && flushing == world.flushing && queue == world.queue && nextId == |world.accepted|
    }

    method DoSend(m: Message)
      requires Valid()
      modifies this
      ensures Valid() && world == Dispatch(old(world), m)
    {
      busy := true;
      world := Dispatch(world, m);
    }

    method Drain()
      requires Valid()
      modifies this
      ensures Valid() && world == DrainQueue(old(world))
    {
      if busy || queue == [] {
        return;
      }
      var next := queue[0];
      queue := queue[1..];
      world := world.(queue := queue);
      DoSend(next);
    }

    // `text` is trimmed; `ready` says that the session is connected or has just been opened.
    method SendTask(text: string, images: nat, ready: bool)
      requires Valid()
      modifies this
      ensures Valid()
      ensures world == if (text == "" && images == 0) || !ready then old(world) else Apply(old(world), Submit(text))
      ensures (text == "" && images == 0) || !ready ==>
                busy == old(busy) && queue == old(queue) && nextId == old(nextId)
      ensures ready && (text != "" || images != 0) ==>
                var m := Message(old(nextId), text);
                && busy && nextId == old(nextId) + 1 && world.accepted == old(world).accepted + [m]
                && (if old(busy) then queue == old(queue) + [m] && world.dispatched == old(world).dispatched
                    else queue == old(queue) && world.dispatched == old(world).dispatched + [m])
      ensures flushing == old(flushing)
    {
      if (text == "" && images == 0) || !ready {
        return;
      }
      var m := Message(nextId, text);
      nextId := nextId + 1;
      world := world.(accepted := world.accepted + [m]);
      if busy {
        queue := queue + [m];
        world := world.(queue := queue);
        return;
      }
      DoSend(m);
    }

    // The `catch` of `doSend`.
    method DispatchFailed()
      requires Valid() && Enabled(world, Rejected)
      modifies this
      ensures Valid() && world == Apply(old(world), Rejected)
      ensures !busy && queue == old(queue) && flushing == old(flushing)
    {
      busy := false;
      world := world.(awaiting := world.awaiting - 1, busy := false);
    }

    method TurnCompleted(reason: string)
      requires Valid()
      modifies this
      ensures Valid() && world == EndTurn(old(world), reason)
      ensures !flushing && world.accepted == old(world).accepted
      ensures (reason == "cancelled" || reason == "rejected") && !old(flushing) ==>
                && !busy && queue == [] && world.dispatched == old(world).dispatched
                && world.discarded == old(world).discarded + old(queue)
      ensures (reason != "cancelled" && reason != "rejected") || old(flushing) ==>
                && world.discarded == old(world).discarded
                && (if old(queue) == [] then !busy && queue == [] && world.dispatched == old(world).dispatched
                    else busy && queue == old(queue)[1..]
                         && world.dispatched == old(world).dispatched + [old(queue)[0]])
    {
      busy := false;
      var wasFlushing := flushing;
      flushing := false;
      world := world.(busy := false, flushing := false);
      if Aborted(reason) {
        if wasFlushing {
          Drain();
          return;
        }
        if queue != [] {
          world := ClearQueue(world);
          queue := [];
        }
        return;
      }
      Drain();
    }

    method OnPermissionCancelled()
      requires Valid()
      modifies this
      ensures Valid() && world == Apply(old(world), PermissionCancelled)
      ensures !busy && queue == old(queue) && flushing == (old(flushing) && !old(busy))
    {
      if busy {
        busy := false;
        flushing := false;
        world := world.(busy := false, flushing := false);
      }
    }

    method OnDisconnected()
      requires Valid()
      modifies this
      ensures Valid() && world == Apply(old(world), Disconnected)
      ensures !busy && !flushing && queue == [] && world.discarded == old(world).discarded + old(queue)
      ensures world.dispatched == old(world).dispatched
    {
      busy := false;
      flushing := false;
      queue := [];
      world := Apply(world, Disconnected);
    }

    method FlushQueueNow()
      requires Valid()
      modifies this
      ensures Valid() && world == Apply(old(world), Flush)
      ensures world.discarded == old(world).discarded
      ensures old(queue) == [] ==> busy == old(busy) && flushing == old(flushing) && queue == []
                                   && world.dispatched == old(world).dispatched
      ensures old(queue) != [] && old(busy) ==> busy && flushing && queue == old(queue)
                                                && world.dispatched == old(world).dispatched
      ensures old(queue) != [] && !old(busy) ==>
                && busy && flushing == old(flushing) && queue == old(queue)[1..]
                && world.dispatched == old(world).dispatched + [old(queue)[0]]
    {
      if queue == [] {
        return;
      }
      if busy {
        flushing := true;
        world := Ask(world);
      } else {
        Drain();
      }
    }

    // The `catch` of the request: it does not know which press it belongs to.
    method RequestFailed(ghost request: nat)
      requires Valid() && Enabled(world, FlushFailed(request))
      modifies this
      ensures Valid() && world == Apply(old(world), FlushFailed(request))
      ensures !flushing && busy == old(busy) && queue == old(queue)
    {
      flushing := false;
      world := world.(flushing := false, asked := world.asked - {request});
    }

    method RemoveQueued(id: nat)
      requires Valid()
      modifies this
      ensures Valid() && world == Apply(old(world), Remove(id))
    {
      var kept: seq<Message> := [];
      ghost var gone: seq<Message> := [];
      for i := 0 to |queue|
        invariant Valid() && world == old(world)
        invariant kept + Without(queue[i..], id) == Without(queue, id)
        invariant gone + Only(queue[i..], id) == Only(queue, id)
      {
        FilterStep(queue, i, id, kept, gone);
        hide Without, Only;
        if queue[i].id != id {
          kept := kept + [queue[i]];
        } else {
          gone := gone + [queue[i]];
        }
      }
      world := world.(queue := kept, withdrawn := world.withdrawn + gone);
      queue := kept;
    }
  }

  // One turn of the loop of `RemoveQueued`.
  lemma FilterStep(queue: seq<Message>, i: nat, id: nat, kept: seq<Message>, gone: seq<Message>)
    requires i < |queue|
    ensures var m := queue[i];
            && kept + Without(queue[i..], id) == (if m.id != id then kept + [m] else kept) + Without(queue[i + 1..], id)
            && gone + Only(queue[i..], id) == (if m.id == id then gone + [m] else gone) + Only(queue[i + 1..], id)
  {
    assert queue[i..][0] == queue[i] && queue[i..][1..] == queue[i + 1..];
  }

  // --------------------------------------------------- one prompt at a time --

  ghost predicate Sound(s: Session) {
    && s.awaiting + s.running == (if s.busy then 1 else 0)
    && (!s.busy ==> s.queue == [])
  }

  // The steps a sound session survives, by what the handlers can see when the event arrives
  // (and, for a lost connection, whether a dispatch is still unsettled).
  predicate Harmless(s: Session, e: Event) {
    match e
    case Rejected => s.queue == []
    case LateCompleted(_) => !s.busy
    case PermissionCancelled => !s.busy
    case Disconnected => s.awaiting == 0
    case _ => true
  }

  lemma StepIsSoundIffHarmless(s: Session, e: Event)
    requires Sound(s) && Enabled(s, e)
    ensures Sound(Apply(s, e)) <==> Harmless(s, e)
  {
  }

  ghost predicate AlwaysSound(s: Session, run: seq<Event>)
    requires Legal(s, run)
    decreases |run|
  {
    Sound(s) && (run == [] || AlwaysSound(Apply(s, run[0]), run[1..]))
  }

  ghost predicate AllHarmless(s: Session, run: seq<Event>)
    requires Legal(s, run)
    decreases |run|
  {
    run == [] || (Harmless(s, run[0]) && AllHarmless(Apply(s, run[0]), run[1..]))
  }

  // Over whole runs: the promise holds in every state exactly when every step was harmless.
  lemma {:induction false} RunIsSoundIffHarmless(s: Session, run: seq<Event>)
    requires Sound(s) && Legal(s, run)
    ensures AlwaysSound(s, run) <==> AllHarmless(s, run)
    decreases |run|
  {
    if run != [] {
      StepIsSoundIffHarmless(s, run[0]);
      hide Apply;
      if Harmless(s, run[0]) {
        RunIsSoundIffHarmless(Apply(s, run[0]), run[1..]);
      }
    }
  }

  predicate WellBehaved(e: Event) {
    !e.Rejected? && !e.LateCompleted? && !e.PermissionCancelled? && !e.Disconnected?
  }

  // Without failed dispatches, cancelled permissions and lost connections, every run is sound.
  lemma {:induction false} WellBehavedRunsAreSound(s: Session, run: seq<Event>)
    requires Sound(s) && Legal(s, run) && forall e :: e in run ==> WellBehaved(e)
    ensures AlwaysSound(s, run) && Sound(After(s, run))
    decreases |run|
  {
    if run != [] {
      assert run[0] in run && forall e :: e in run[1..] ==> e in run;
      StepIsSoundIffHarmless(s, run[0]);
      hide Apply;
      WellBehavedRunsAreSound(Apply(s, run[0]), run[1..]);
    }
  }

  // The bridge reports a permission cancelled by the end of a turn after the end of the turn
  // itself. By then the next queued message is running: the session is taken for idle, and one
  // more message makes two prompts in flight.
  lemma CancelledPermissionFreesARunningTurn()
    ensures var run := [Submit("a"), Accepted, Submit("b"), Completed("end_turn"), Accepted,
                        PermissionCancelled, Submit("c")];
            Legal(INITIAL, run) && After(INITIAL, run).awaiting + After(INITIAL, run).running == 2
  {
  }

  // ------------------------------------------------------- submission order --

  ghost predicate Ascending(ms: seq<Message>, below: nat) {
    ms == [] || (ms[|ms| - 1].id < below && Ascending(ms[..|ms| - 1], ms[|ms| - 1].id))
  }

  // What has gone out followed by what is waiting is in the order it was submitted.
  ghost predicate InOrder(s: Session) {
    Ascending(s.dispatched + s.queue, |s.accepted|)
  }

  lemma AscendingBelow(ms: seq<Message>, below: nat, higher: nat)
    requires Ascending(ms, below) && below <= higher
    ensures Ascending(ms, higher)
  {
  }

  lemma AscendingSnoc(ms: seq<Message>, m: Message, below: nat)
    ensures Ascending(ms + [m], below) <==> m.id < below && Ascending(ms, m.id)
  {
    assert (ms + [m])[..|ms|] == ms;
  }

  lemma {:induction false} AscendingPrefix(ms: seq<Message>, more: seq<Message>, below: nat)
    requires Ascending(ms + more, below)
    ensures Ascending(ms, below)
    ensures more != [] ==> Ascending(ms, more[0].id)
    decreases |more|
  {
    if more == [] {
      assert ms + more == ms;
    } else {
      var last := more[|more| - 1];
      assert ms + more == ms + more[..|more| - 1] + [last];
      AscendingSnoc(ms + more[..|more| - 1], last, below);
      AscendingPrefix(ms, more[..|more| - 1], last.id);
      AscendingBelow(ms, last.id, below);
    }
  }

  lemma {:induction false} AscendingWithout(ms: seq<Message>, queue: seq<Message>, id: nat, below: nat)
    requires Ascending(ms + queue, below)
    ensures Ascending(ms + Without(queue, id), below)
    decreases |queue|
  {
    if queue == [] {
      assert ms + queue == ms + Without(queue, id);
    } else {
      var init, last := queue[..|queue| - 1], queue[|queue| - 1];
      assert ms + queue == ms + init + [last];
      AscendingSnoc(ms + init, last, below);
      AscendingWithout(ms, init, id, last.id);
      WithoutSnoc(init, last, id);
      assert queue == init + [last];
      var kept := Without(init, id);
      hide Without;
      if last.id != id {
        assert ms + (kept + [last]) == ms + kept + [last];
        AscendingSnoc(ms + kept, last, below);
      } else {
        assert ms + (kept + []) == ms + kept;
        AscendingBelow(ms + kept, last.id, below);
      }
    }
  }

  lemma {:induction false} WithoutSnoc(queue: seq<Message>, last: Message, id: nat)
    ensures Without(queue + [last], id) == Without(queue, id) + (if last.id != id then [last] else [])
  {
    if queue == [] {
      assert queue + [last] == [last];
    } else {
      WithoutSnoc(queue[1..], last, id);
      assert (queue + [last])[1..] == queue[1..] + [last];
    }
  }

  // A step keeps the order exactly when it is not a message overtaking a stranded queue.
  lemma StepKeepsOrder(s: Session, e: Event)
    requires InOrder(s) && Enabled(s, e)
    ensures InOrder(Apply(s, e)) <==> !(e.Submit? && !s.busy && s.queue != [])
  {
    match e
    case Submit(text) => SubmitOrder(s, text);
    case Completed(reason) => EndTurnOrder(s.(running := s.running - 1), reason);
    case LateCompleted(reason) => EndTurnOrder(s.(owed := s.owed - 1), reason);
    case Disconnected => ClearOrder(s);
    case Flush => DrainOrder(s);
    case Remove(id) => AscendingWithout(s.dispatched, s.queue, id, |s.accepted|); hide Ascending;
    case _ =>
  }

  lemma SubmitOrder(s: Session, text: string)
    requires InOrder(s)
    ensures InOrder(Apply(s, Submit(text))) <==> s.busy || s.queue == []
  {
    var n := |s.accepted|;
    var m := Message(n, text);
    if s.busy {
      QueuedInOrder(s.dispatched, s.queue, m);
    } else {
      SentInOrder(s.dispatched, s.queue, m);
    }
    hide Ascending;
  }

  lemma QueuedInOrder(ms: seq<Message>, queue: seq<Message>, m: Message)
    requires Ascending(ms + queue, m.id)
    ensures Ascending(ms + (queue + [m]), m.id + 1)
  {
    hide Ascending;
    AscendingSnoc(ms + queue, m, m.id + 1);
    ConcatAssociates(ms, queue, [m]);
  }

  lemma SentInOrder(ms: seq<Message>, queue: seq<Message>, m: Message)
    requires Ascending(ms + queue, m.id)
    ensures Ascending(ms + [m] + queue, m.id + 1) <==> queue == []
  {
    AscendingPrefix(ms, queue, m.id);
    AscendingSnoc(ms, m, m.id + 1);
    if queue == [] {
      assert ms + [m] + queue == ms + [m];
    } else {
      LastBelow(ms, queue, m.id);
      Overtaken(ms, m, queue, m.id + 1);
    }
  }

  lemma LastBelow(ms: seq<Message>, queue: seq<Message>, below: nat)
    requires Ascending(ms + queue, below) && queue != []
    ensures queue[|queue| - 1].id < below
  {
    assert (ms + queue)[|ms + queue| - 1] == queue[|queue| - 1];
  }

  lemma {:induction false} Overtaken(ms: seq<Message>, m: Message, queue: seq<Message>, below: nat)
    requires queue != [] && queue[|queue| - 1].id < m.id
    ensures !Ascending(ms + [m] + queue, below)
  {
    var last := queue[|queue| - 1];
    var init := queue[..|queue| - 1];
    assert ms + [m] + queue == ms + [m] + init + [last];
    AscendingSnoc(ms + [m] + init, last, below);
    if Ascending(ms + [m] + init, last.id) {
      AscendingPrefix(ms + [m], init, last.id);
      AscendingSnoc(ms, m, last.id);
    }
  }

  lemma ClearOrder(s: Session)
    requires InOrder(s)
    ensures InOrder(ClearQueue(s))
  {
    AscendingPrefix(s.dispatched, s.queue, |s.accepted|);
    assert s.dispatched + [] == s.dispatched;
  }

  lemma DrainOrder(s: Session)
    requires InOrder(s)
    ensures InOrder(DrainQueue(s))
  {
    if s.queue != [] {
      assert s.dispatched + [s.queue[0]] + s.queue[1..] == s.dispatched + s.queue;
    }
  }

  lemma EndTurnOrder(s: Session, reason: string)
    requires InOrder(s)
    ensures InOrder(EndTurn(s, reason))
  {
    var idle := s.(busy := false, flushing := false);
    ClearOrder(idle);
    DrainOrder(idle);
  }

  // While a run is sound, messages go out in the order they were submitted.
  lemma {:induction false} SoundRunsKeepOrder(s: Session, run: seq<Event>)
    requires InOrder(s) && Legal(s, run) && AlwaysSound(s, run)
    ensures InOrder(After(s, run))
    decreases |run|
  {
    hide Apply, InOrder;
    if run != [] {
      StepKeepsOrder(s, run[0]);
      SoundRunsKeepOrder(Apply(s, run[0]), run[1..]);
    }
  }

  // ------------------------------------------------------------ conservation --

  ghost predicate Numbered(accepted: seq<Message>) {
    forall i :: 0 <= i < |accepted| ==> accepted[i].id == i
  }

  ghost predicate Conserved(accepted: seq<Message>, dispatched: seq<Message>, queue: seq<Message>,
                            withdrawn: seq<Message>, discarded: seq<Message>) {
    multiset(accepted) == multiset(dispatched) + multiset(queue) + multiset(withdrawn) + multiset(discarded)
  }

  ghost predicate Partitioned(s: Session) {
    Numbered(s.accepted) && Conserved(s.accepted, s.dispatched, s.queue, s.withdrawn, s.discarded)
  }

  lemma {:induction false} FilterSplits(queue: seq<Message>, id: nat)
    ensures multiset(queue) == multiset(Without(queue, id)) + multiset(Only(queue, id))
  {
    if queue != [] {
      FilterSplits(queue[1..], id);
      assert queue == [queue[0]] + queue[1..];
    }
  }

  lemma SubmitPartition(s: Session, text: string)
    requires Partitioned(s)
    ensures Partitioned(Apply(s, Submit(text)))
  {
    assert Numbered(s.accepted + [Message(|s.accepted|, text)]);
    hide Numbered;
  }

  lemma DrainPartition(s: Session)
    requires Partitioned(s)
    ensures Partitioned(DrainQueue(s))
  {
    hide Numbered;
    if s.queue != [] {
      assert s.queue == [s.queue[0]] + s.queue[1..];
    }
  }

  lemma ClearPartition(s: Session)
    requires Partitioned(s)
    ensures Partitioned(ClearQueue(s))
  {
    hide Numbered;
  }

  lemma RemovePartition(s: Session, id: nat)
    requires Partitioned(s)
    ensures Partitioned(Apply(s, Remove(id)))
  {
    FilterSplits(s.queue, id);
    hide Numbered, Without, Only;
  }

  lemma EndTurnPartition(s: Session, reason: string)
    requires Partitioned(s)
    ensures Partitioned(EndTurn(s, reason))
  {
    var idle := s.(busy := false, flushing := false);
    assert Partitioned(idle);
    hide Partitioned;
    ClearPartition(idle);
    DrainPartition(idle);
  }

  lemma StepKeepsPartition(s: Session, e: Event)
    requires Partitioned(s) && Enabled(s, e)
    ensures Partitioned(Apply(s, e))
  {
    hide Numbered, Conserved;
    match e
    case Submit(text) => SubmitPartition(s, text);
    case Completed(reason) => EndTurnPartition(s.(running := s.running - 1), reason);
    case LateCompleted(reason) => EndTurnPartition(s.(owed := s.owed - 1), reason);
    case Disconnected =>
      ClearPartition(s.(busy := false, flushing := false, owed := s.owed + s.running, running := 0));
    case Flush => DrainPartition(s);
    case Remove(id) => RemovePartition(s, id);
    case _ =>
  }

  lemma {:induction false} RunKeepsPartition(s: Session, run: seq<Event>)
    requires Partitioned(s) && Legal(s, run)
    ensures Partitioned(After(s, run))
    decreases |run|
  {
    hide Apply, Partitioned;
    if run != [] {
      StepKeepsPartition(s, run[0]);
      RunKeepsPartition(Apply(s, run[0]), run[1..]);
    }
  }

  // In every run, whatever the environment does, an accepted message is in exactly one place.
  lemma EveryMessageIsInOnePlace(run: seq<Event>, m: Message)
    requires Legal(INITIAL, run)
    ensures var s := After(INITIAL, run);
            m in s.accepted ==>
              multiset(s.dispatched)[m] + multiset(s.queue)[m] + multiset(s.withdrawn)[m] + multiset(s.discarded)[m] == 1
  {
    RunKeepsPartition(INITIAL, run);
    var s := After(INITIAL, run);
    hide After, Legal, Apply, Enabled;
    if m in s.accepted {
      OnceWhenNumbered(s.accepted, m);
    }
  }

  lemma OnceWhenNumbered(ms: seq<Message>, m: Message)
    requires Numbered(ms) && m in ms
    ensures multiset(ms)[m] == 1
  {
    assert ms == ms[..m.id] + [ms[m.id]] + ms[m.id + 1..];
    assert m !in ms[..m.id] && m !in ms[m.id + 1..];
  }

  // Every message that went out is on its way, running, lost with a connection, or at its end: the
  // calls that settle and the turns that are reported account for all of them.
  function Ends(run: seq<Event>): nat {
    if run == [] then 0
    else (if run[0].Rejected? || run[0].Completed? || run[0].LateCompleted? then 1 else 0) + Ends(run[1..])
  }

  function InFlight(s: Session): nat {
    s.awaiting + s.running + s.owed
  }

  lemma StepCountsCalls(s: Session, e: Event)
    requires Enabled(s, e)
    ensures |Apply(s, e).dispatched| + InFlight(s)
            == |s.dispatched| + InFlight(Apply(s, e)) + Ends([e])
  {
    assert [e][1..] == [];
    hide Without, Only;
  }

  lemma {:induction false} CallsAreCounted(s: Session, run: seq<Event>)
    requires Legal(s, run)
    ensures |After(s, run).dispatched| + InFlight(s) == |s.dispatched| + InFlight(After(s, run)) + Ends(run)
    decreases |run|
  {
    if run != [] {
      StepCountsCalls(s, run[0]);
      assert [run[0]][1..] == [];
      hide Apply, InFlight;
      CallsAreCounted(Apply(s, run[0]), run[1..]);
    }
  }

  function Settles(run: seq<Event>): nat {
    if run == [] then 0
    else (if run[0].FlushServed? || run[0].FlushFailed? then 1 else 0) + Settles(run[1..])
  }

  ghost predicate Issued(s: Session) {
    forall id :: id in s.asked ==> id < s.requests
  }

  lemma StepCountsRequests(s: Session, e: Event)
    requires Issued(s) && Enabled(s, e)
    ensures Issued(Apply(s, e))
    ensures Apply(s, e).requests + |s.asked| == s.requests + |Apply(s, e).asked| + Settles([e])
    ensures Apply(s, e).requests == s.requests + if e.Flush? && s.busy && s.queue != [] then 1 else 0
  {
    assert [e][1..] == [];
    assert s.requests !in s.asked;
    assert |s.asked + {s.requests}| == |s.asked| + 1;
    hide Without, Only;
  }

  // Every request to cancel has its own number, and settles once or is outstanding.
  lemma {:induction false} RequestsAreCounted(s: Session, run: seq<Event>)
    requires Issued(s) && Legal(s, run)
    ensures Issued(After(s, run))
    ensures After(s, run).requests + |s.asked| == s.requests + |After(s, run).asked| + Settles(run)
    decreases |run|
  {
    if run != [] {
      StepCountsRequests(s, run[0]);
      assert [run[0]][1..] == [];
      hide Apply, Issued;
      RequestsAreCounted(Apply(s, run[0]), run[1..]);
    }
  }

  // ------------------------------------------------------- insert immediately --

  // What the user and a settling dispatch can do while a cancelled turn is winding down.
  predicate Waiting(e: Event) {
    e.Submit? || e.Accepted? || e.Flush? || e.FlushServed? || e.Remove?
  }

  ghost predicate AllWaiting(run: seq<Event>) {
    run == [] || (Waiting(run[0]) && AllWaiting(run[1..]))
  }

  lemma StepKeepsFlushing(s: Session, e: Event)
    requires s.busy && s.flushing && Enabled(s, e) && Waiting(e)
    ensures var t := Apply(s, e); t.busy && t.flushing && t.discarded == s.discarded
  {
  }

  lemma {:induction false} RunKeepsFlushing(s: Session, run: seq<Event>)
    requires s.busy && s.flushing && Legal(s, run) && AllWaiting(run)
    ensures var t := After(s, run); t.busy && t.flushing && t.discarded == s.discarded
    decreases |run|
  {
    if run != [] {
      StepKeepsFlushing(s, run[0]);
      hide Apply;
      RunKeepsFlushing(Apply(s, run[0]), run[1..]);
    }
  }

  // The turns of the messages sent one after the other, each ending for a reason of its own.
  function Turns(reasons: seq<string>): seq<Event> {
    if reasons == [] then [] else [Accepted, Completed(reasons[0])] + Turns(reasons[1..])
  }

  predicate NoneAborted(reasons: seq<string>) {
    forall k :: 0 <= k < |reasons| ==> reasons[k] != "cancelled" && reasons[k] != "rejected"
  }

  predicate SentWhole(s: Session, waiting: seq<Message>, after: Session) {
    && !after.busy && after.queue == [] && after.dispatched == s.dispatched + waiting
    && after.discarded == s.discarded && after.accepted == s.accepted
  }

  lemma TurnEnds(s: Session, reason: string)
    requires s.busy && s.awaiting > 0 && reason != "cancelled" && reason != "rejected"
    ensures var t := Apply(s, Accepted);
            && Enabled(t, Completed(reason))
            && var u := Apply(t, Completed(reason));
               && u.discarded == s.discarded && u.accepted == s.accepted
               && (if s.queue == [] then !u.busy && u.queue == [] && u.dispatched == s.dispatched
                   else u.busy && u.awaiting > 0 && u.queue == s.queue[1..]
                        && u.dispatched == s.dispatched + [s.queue[0]])
  {
  }

  lemma LegalCons(s: Session, e: Event, rest: seq<Event>)
    requires Enabled(s, e) && Legal(Apply(s, e), rest)
    ensures Legal(s, [e] + rest) && After(s, [e] + rest) == After(Apply(s, e), rest)
  {
    hide Apply, Enabled;
    assert ([e] + rest)[1..] == rest;
  }

  // A busy session with a queue sends all of it, in order, as its turns end.
  lemma {:induction false} TurnsSendTheQueue(s: Session, reasons: seq<string>)
    requires s.busy && s.awaiting > 0 && |reasons| == |s.queue| + 1 && NoneAborted(reasons)
    ensures Legal(s, Turns(reasons)) && SentWhole(s, s.queue, After(s, Turns(reasons)))
    decreases |reasons|
  {
    var t := Apply(s, Accepted);
    var u := Apply(t, Completed(reasons[0]));
    TurnEnds(s, reasons[0]);
    var rest := Turns(reasons[1..]);
    assert [Accepted, Completed(reasons[0])] + rest == [Accepted] + ([Completed(reasons[0])] + rest);
    hide Apply;
    if s.queue == [] {
      assert rest == [];
      assert s.dispatched + [] == s.dispatched;
    } else {
      TurnsSendTheQueue(u, reasons[1..]);
      assert s.dispatched + [s.queue[0]] + s.queue[1..] == s.dispatched + s.queue;
    }
    LegalCons(t, Completed(reasons[0]), rest);
    LegalCons(s, Accepted, [Completed(reasons[0])] + rest);
  }

  // "Insert immediately" on an idle session with messages waiting sends the first of them.
  lemma FlushSendsTheHead(s: Session)
    requires !s.busy && s.queue != []
    ensures var t := Apply(s, Flush);
            && t.busy && t.awaiting == s.awaiting + 1 && t.queue == s.queue[1..]
            && t.dispatched == s.dispatched + [s.queue[0]]
            && t.discarded == s.discarded && t.accepted == s.accepted && t.flushing == s.flushing
  {
  }

  // One press, and then the ends of its turns: the queue goes out whole and in order.
  lemma FlushSendsTheQueue(s: Session, reasons: seq<string>)
    requires !s.busy && s.queue != [] && |reasons| == |s.queue| && NoneAborted(reasons)
    ensures Legal(s, [Flush] + Turns(reasons)) && SentWhole(s, s.queue, After(s, [Flush] + Turns(reasons)))
  {
    hide Apply, Turns, NoneAborted, Legal, After;
    FlushSendsTheHead(s);
    TurnsSendTheQueue(Apply(s, Flush), reasons);
    LegalCons(s, Flush, Turns(reasons));
    assert s.dispatched + [s.queue[0]] + s.queue[1..] == s.dispatched + s.queue;
  }

  lemma FailedDispatchStrands(s: Session)
    requires s.awaiting > 0
    ensures var t := Apply(s, Rejected);
            && !t.busy && t.queue == s.queue && t.dispatched == s.dispatched && t.discarded == s.discarded
            && t.accepted == s.accepted && t.flushing == s.flushing
  {
  }

  // So does a queue stranded by a failed dispatch.
  lemma StrandedQueueGoesOut(s: Session, reasons: seq<string>)
    requires s.awaiting > 0 && s.queue != [] && |reasons| == |s.queue| && NoneAborted(reasons)
    ensures var run := [Rejected] + ([Flush] + Turns(reasons));
            Legal(s, run) && SentWhole(s, s.queue, After(s, run))
  {
    hide Apply, Turns, NoneAborted, Legal, After;
    FailedDispatchStrands(s);
    FlushSendsTheQueue(Apply(s, Rejected), reasons);
    LegalCons(s, Rejected, [Flush] + Turns(reasons));
  }

  // A turn cancelled by "insert immediately" ends without dropping the queue: its first message
  // goes out at once. A turn the user aborts drops the queue.
  lemma FlushSparesTheQueue(s: Session, run: seq<Event>, reason: string)
    requires s.busy && s.queue != [] && Legal(Apply(s, Flush), run) && AllWaiting(run)
    ensures var before := After(Apply(s, Flush), run);
            var after := EndTurn(before, reason);
            && after.discarded == s.discarded
            && (before.queue != [] ==> after.busy && after.dispatched == before.dispatched + [before.queue[0]]
                                       && after.queue == before.queue[1..])
    ensures !s.flushing && Aborted(reason) ==>
              EndTurn(s, reason).discarded == s.discarded + s.queue && !EndTurn(s, reason).busy
  {
    RunKeepsFlushing(Apply(s, Flush), run);
    hide After, Legal;
  }

  // The mark belongs to a running turn. One step leaves it behind: a dispatch that fails.
  lemma FlushMarkOutlivesTurn(s: Session, e: Event)
    requires (s.flushing ==> s.busy) && Enabled(s, e)
    ensures (Apply(s, e).flushing ==> Apply(s, e).busy) <==> !(e.Rejected? && s.flushing)
  {
    hide Without, Only;
  }

  // What the mark is meant to say: which presses of "insert immediately" are alive. A press with
  // messages waiting on a busy session is, until its own request fails, or a turn ends, is lost or
  // fails to start.
  function Live(live: set<nat>, s: Session, e: Event): set<nat> {
    match e
    case Flush => if s.queue != [] && s.busy then live + {s.requests} else live
    case FlushFailed(request) => live - {request}
    case Completed(_) => {}
    case Rejected => {}
    case Disconnected => {}
    case _ => live
  }

  function LiveAfter(live: set<nat>, s: Session, run: seq<Event>): set<nat>
    requires Legal(s, run)
    decreases |run|
  {
    if run == [] then live else LiveAfter(Live(live, s, run[0]), Apply(s, run[0]), run[1..])
  }

  ghost predicate AlwaysMarked(live: set<nat>, s: Session, run: seq<Event>)
    requires Legal(s, run)
    decreases |run|
  {
    s.flushing == (live != {})
    && (run == [] || AlwaysMarked(Live(live, s, run[0]), Apply(s, run[0]), run[1..]))
  }

  // The steps that falsify the mark. A dispatch fails and leaves it set; the end of a lost turn or
  // the cancelling of a permission clears it though the turn goes on; or a request fails and takes it
  // from another press that is alive.
  predicate Misleads(live: set<nat>, s: Session, e: Event) {
    || (s.flushing && (e.Rejected? || e.LateCompleted? || e.PermissionCancelled?))
    || (e.FlushFailed? && live - {e.request} != {})
  }

  ghost predicate NoneMisleads(live: set<nat>, s: Session, run: seq<Event>)
    requires Legal(s, run)
    decreases |run|
  {
    run == [] || (!Misleads(live, s, run[0])
                  && NoneMisleads(Live(live, s, run[0]), Apply(s, run[0]), run[1..]))
  }

  lemma StepKeepsMark(live: set<nat>, s: Session, e: Event)
    requires s.flushing == (live != {}) && (s.flushing ==> s.busy) && Enabled(s, e)
    ensures Apply(s, e).flushing == (Live(live, s, e) != {}) <==> !Misleads(live, s, e)
  {
    assert s.requests in live + {s.requests};
    hide Without, Only;
  }

  // Over whole runs: the mark says in every state that a press is alive exactly when no step
  // falsifies it.
  lemma {:induction false} MarkIsExactIff(live: set<nat>, s: Session, run: seq<Event>)
    requires Legal(s, run) && s.flushing == (live != {}) && (s.flushing ==> s.busy)
    ensures AlwaysMarked(live, s, run) <==> NoneMisleads(live, s, run)
    ensures NoneMisleads(live, s, run) ==> After(s, run).flushing == (LiveAfter(live, s, run) != {})
    decreases |run|
  {
    if run != [] {
      StepKeepsMark(live, s, run[0]);
      FlushMarkOutlivesTurn(s, run[0]);
      assert run[0].Rejected? && s.flushing ==> Misleads(live, s, run[0]);
      hide Apply, Live, Misleads;
      if !Misleads(live, s, run[0]) {
        MarkIsExactIff(Live(live, s, run[0]), Apply(s, run[0]), run[1..]);
      }
    }
  }

  predicate Dropped(before: Session, after: Session) {
    after.queue == [] && after.discarded == before.discarded + before.queue && !after.busy
    && after.dispatched == before.dispatched
  }

  // Hence in all runs in which nothing falsifies the mark, an aborted turn drops the waiting messages
  // exactly when no press is alive. In any run it goes by the mark.
  lemma AbortDropsQueueIff(run: seq<Event>, reason: string)
    requires Legal(INITIAL, run) && Aborted(reason) && After(INITIAL, run).queue != []
    ensures var s := After(INITIAL, run);
            Dropped(s, EndTurn(s, reason)) <==> !s.flushing
    ensures var s := After(INITIAL, run);
            NoneMisleads({}, INITIAL, run) ==>
              (Dropped(s, EndTurn(s, reason)) <==> LiveAfter({}, INITIAL, run) == {})
  {
    MarkIsExactIff({}, INITIAL, run);
    hide After, Legal, LiveAfter, NoneMisleads, Aborted;
  }

  // The left-over mark makes a later abort by the user send the queue instead of dropping it.
  lemma StaleMarkSendsAfterAbort()
    ensures var run := [Submit("a"), Submit("b"), Flush, Rejected, Submit("c"), Accepted, Completed("cancelled")];
            Legal(INITIAL, run) && After(INITIAL, run).busy && After(INITIAL, run).discarded == []
            && After(INITIAL, run).dispatched == [Message(0, "a"), Message(2, "c"), Message(1, "b")]
  {
  }

  // Pressed twice, with only one request failing: the other press is alive, but the mark is gone, and
  // an abort drops the message that was to be inserted.
  lemma FailedRequestDropsTheQueue()
    ensures var run := [Submit("a"), Accepted, Submit("b"), Flush, Flush, FlushFailed(0)];
            && Legal(INITIAL, run) && LiveAfter({}, INITIAL, run) == {1}
            && EndTurn(After(INITIAL, run), "cancelled").discarded == [Message(1, "b")]
  {
  }

  lemma SecondFailedRequestDropsTheQueue()
    ensures var run := [Submit("a"), Accepted, Submit("b"), Flush, Flush, FlushFailed(1)];
            && Legal(INITIAL, run) && LiveAfter({}, INITIAL, run) == {0}
            && EndTurn(After(INITIAL, run), "cancelled").discarded == [Message(1, "b")]
  {
  }

  // Pressed once, with no request failing: the cancelled permission of an earlier turn clears the
  // mark, and the end of the turn drops the message.
  lemma FreedSessionDropsTheQueue()
    ensures var run := [Submit("a"), Accepted, Submit("b"), Flush, PermissionCancelled];
            && Legal(INITIAL, run) && LiveAfter({}, INITIAL, run) == {0}
            && Enabled(After(INITIAL, run), Completed("cancelled"))
            && Apply(After(INITIAL, run), Completed("cancelled")).discarded == [Message(1, "b")]
  {
  }
}
