/**
 Replacing the bridge to the agent: every bridge gets a generation and a forwarder that passes on its
 events to the GUI. The forwarder checks the generation, then waits for one event, so a replaced
 bridge may still have one event forwarded. Its events come through a broadcast channel that
 keeps the newest `EVENT_CAPACITY` unread ones; a receiver that missed some is told how many,
 and continues at the oldest one kept.
 */
module BridgeGenerations {
  import opened Prelude

  const EVENT_CAPACITY: nat := 1024

  datatype Event =
    | TurnCompleted(session: string)
    | PermissionCancelled(session: string)
    | QueueLagged(dropped: nat)
    | Other(id: nat)

  // Where the loop of a forwarder stands.
  datatype Place = Checking | Awaiting | Retired

  datatype Forwarder = Forwarder(
    generation: nat, place: Place,
    queue: seq<Event>,            // unread events the channel still holds,
    missed: nat,                  //   and how many were overwritten since the last one read
    published: seq<Event>,        // history: every event of this bridge since it subscribed,
    emitted: seq<Event>,          //   those passed on to the GUI,
    late: nat,                    //   how many of these after a newer generation was issued,
    caught: bool)                 //   and whether it was past its check at that moment

  datatype State = State(counter: nat, forwarders: seq<Forwarder>)

  const INITIAL := State(0, [])

  datatype Action =
    | Replace                          // a new bridge: next generation, new forwarder
    | Publish(i: nat, event: Event)    // bridge `i` has an event
    | Check(i: nat)                    // forwarder `i` compares generations
    | Receive(i: nat, expired: nat)    // forwarder `i` gets an event; a turn that ends voids `expired` permissions

  predicate Enabled(s: State, a: Action) {
    match a
    case Replace => true
    case Publish(i, _) => i < |s.forwarders|
    case Check(i) => i < |s.forwarders| && s.forwarders[i].place == Checking
    case Receive(i, _) =>
      i < |s.forwarders| && s.forwarders[i].place == Awaiting
      && (s.forwarders[i].missed > 0 || s.forwarders[i].queue != [])
  }

  // ------------------------------------------------------------------ steps --

  function Fresh(generation: nat): Forwarder {
    Forwarder(generation, Checking, [], 0, [], [], 0, false)
  }

  function Superseded(f: Forwarder): Forwarder {
    f.(caught := f.place == Awaiting)
  }

  function Sent(f: Forwarder, e: Event): Forwarder {
    var g := f.(published := f.published + [e]);
    if |f.queue| < EVENT_CAPACITY then g.(queue := f.queue + [e])
    else g.(queue := f.queue[1..] + [e], missed := f.missed + 1)
  }

  function AllSent(f: Forwarder, e: Event, times: nat): Forwarder {
    if times == 0 then f else Sent(AllSent(f, e, times - 1), e)
  }

  function Checked(f: Forwarder, counter: nat): Forwarder {
    f.(place := if counter == f.generation then Awaiting else Retired)
  }

  function Lagged(f: Forwarder): Forwarder {
    Sent(f.(missed := 0, place := Checking), QueueLagged(f.missed))
  }

  function Passed(f: Forwarder, newest: bool): Forwarder
    requires f.queue != []
  {
    f.(queue := f.queue[1..], emitted := f.emitted + [f.queue[0]], place := Checking,
       late := if newest then f.late else f.late + 1)
  }

  function Received(f: Forwarder, expired: nat, newest: bool): Forwarder
    requires f.missed > 0 || f.queue != []
  {
    if f.missed > 0 then Lagged(f)
    else
      var g := Passed(f, newest);
      match f.queue[0]
      case TurnCompleted(session) => AllSent(g, PermissionCancelled(session), expired)
      case _ => g
  }

  function NextGeneration(counter: nat): nat {
    (counter + 1) % TWO_TO_64
  }

  function Replaced(s: State): State {
    var n, g := |s.forwarders|, NextGeneration(s.counter);
    var old' := if n == 0 then [] else s.forwarders[n - 1 := Superseded(s.forwarders[n - 1])];
    State(g, old' + [Fresh(g)])
  }

  function Acted(s: State, a: Action): Forwarder
    requires Enabled(s, a) && !a.Replace?
  {
    var f := s.forwarders[a.i];
    match a
    case Publish(_, e) => Sent(f, e)
    case Check(_) => Checked(f, s.counter)
    case Receive(i, expired) => Received(f, expired, i == |s.forwarders| - 1)
  }

  function Apply(s: State, a: Action): State
    requires Enabled(s, a)
  {
    if a.Replace? then Replaced(s) else s.(forwarders := s.forwarders[a.i := Acted(s, a)])
  }

  ghost predicate Legal(s: State, run: seq<Action>)
    decreases |run|
  {
    run == [] || (Enabled(s, run[0]) && Legal(Apply(s, run[0]), run[1..]))
  }

  function After(s: State, run: seq<Action>): State
    requires Legal(s, run)
    decreases |run|
  {
    if run == [] then s else After(Apply(s, run[0]), run[1..])
  }

  // ---------------------------------------------------------- the forwarder --

  class BridgeState {
    var generation: nat

    constructor ()
      ensures generation == INITIAL.counter
    {
      generation := 0;
    }

    // `fetch_add` returns the old value and wraps around.
    method IssueGeneration() returns (issued: nat)
      requires generation < TWO_TO_64
      modifies this
      ensures issued == generation == NextGeneration(old(generation))
      ensures issued == if old(generation) == 18_446_744_073_709_551_615 then 0 else old(generation) + 1
    {
      var before := generation;
      generation := if before == TWO_TO_64 - 1 then 0 else before + 1;
      issued := if before == TWO_TO_64 - 1 then 0 else before + 1;
    }
  }

  // What `recv` returns.
  datatype Delivery = Event(event: Event) | Behind(missed: nat)

  class ForwardTask {
    const generation: nat
    var place: Place
    ghost var view: Forwarder

    constructor (generation: nat)
      ensures Valid() && view == Fresh(generation)
    {
      this.generation := generation;
      place := Checking;
      view := Fresh(generation);
    }

    ghost predicate Valid()
      reads this
    {
      generation == view.generation && place == view.place
    }

    method CheckGeneration(state: BridgeState)
      requires Valid()
      modifies this
      ensures Valid() && view == Checked(old(view), state.generation)
      ensures place == if state.generation == generation then Awaiting else Retired
    {
      place := if state.generation != generation then Retired else Awaiting;
      view := view.(place := place);
    }

    // One answer of `recv`. `emit` is what goes to the GUI; `publish` what goes back to the channel.
    method OnDelivery(d: Delivery, expired: nat, ghost newest: bool)
        returns (emit: Option<Event>, publish: seq<Event>)
      requires Valid()
      requires d.Behind? ==> d.missed == view.missed > 0
      requires d.Event? ==> view.missed == 0 && view.queue != [] && d.event == view.queue[0]
      modifies this
      ensures Valid() && view == Received(old(view), expired, newest)
      ensures emit == (if d.Event? then Some(d.event) else None)
      ensures publish == match d
        case Behind(n) => [QueueLagged(n)]
        case Event(TurnCompleted(session)) => seq(expired, _ => PermissionCancelled(session))
        case Event(_) => []
      ensures place == Checking && view.published == old(view).published + publish
      ensures view.emitted == old(view).emitted + if emit.Some? then [emit.value] else []
    {
      emit, publish := None, [];
      match d {
        case Behind(n) =>
          publish := [QueueLagged(n)];
        case Event(e) =>
          if e.TurnCompleted? {
            publish := seq(expired, _ => PermissionCancelled(e.session));
          }
          emit := Some(e);
      }
      place := Checking;
      view := Received(view, expired, newest);
      ReceivedIsChecking(old(view), expired, newest);
      ReceivedHistory(old(view), expired, newest);
      hide Received;
    }
  }

  lemma {:induction false} AllSentKeeps(f: Forwarder, e: Event, times: nat)
    ensures var g := AllSent(f, e, times);
            && g.place == f.place && g.generation == f.generation && g.late == f.late && g.caught == f.caught
            && g.emitted == f.emitted && g.published == f.published + seq(times, _ => e)
  {
    if times == 0 {
      assert f.published + seq(0, _ => e) == f.published;
    } else {
      AllSentKeeps(f, e, times - 1);
      ghost var before := seq(times - 1, _ => e);
      assert seq(times, _ => e) == before + [e];
      ConcatAssociates(f.published, before, [e]);
    }
  }

  lemma ReceivedIsChecking(f: Forwarder, expired: nat, newest: bool)
    requires f.missed > 0 || f.queue != []
    ensures var g := Received(f, expired, newest);
            g.place == Checking && g.generation == f.generation && g.caught == f.caught
    ensures var g := Received(f, expired, newest);
            g.late == if f.missed == 0 && !newest then f.late + 1 else f.late
  {
    if f.missed == 0 && f.queue[0].TurnCompleted? {
      AllSentKeeps(Passed(f, newest), PermissionCancelled(f.queue[0].session), expired);
      hide AllSent;
    }
  }

  // What a delivery adds to the history of a bridge.
  lemma ReceivedHistory(f: Forwarder, expired: nat, newest: bool)
    requires f.missed > 0 || f.queue != []
    ensures var g := Received(f, expired, newest);
            && g.emitted == (if f.missed > 0 then f.emitted else f.emitted + [f.queue[0]])
            && g.published == f.published
               + (if f.missed > 0 then [QueueLagged(f.missed)]
                  else match f.queue[0]
                       case TurnCompleted(session) => seq(expired, _ => PermissionCancelled(session))
                       case _ => [])
  {
    if f.missed == 0 && f.queue[0].TurnCompleted? {
      AllSentKeeps(Passed(f, newest), PermissionCancelled(f.queue[0].session), expired);
      hide AllSent;
    }
  }

  // ------------------------------------------------------------- generations --

  ghost predicate Numbered(s: State) {
    && s.counter == |s.forwarders| % TWO_TO_64
    && forall k :: 0 <= k < |s.forwarders| ==> s.forwarders[k].generation == (k + 1) % TWO_TO_64
  }

  lemma NextOfMod(n: nat)
    ensures NextGeneration(n % TWO_TO_64) == (n + 1) % TWO_TO_64
  {
  }

  lemma ActedKeepsGeneration(s: State, a: Action)
    requires Enabled(s, a) && !a.Replace?
    ensures Acted(s, a).generation == s.forwarders[a.i].generation
  {
    if a.Receive? {
      ReceivedIsChecking(s.forwarders[a.i], a.expired, a.i == |s.forwarders| - 1);
      hide Received;
    }
  }

  lemma StepKeepsNumbers(s: State, a: Action)
    requires Numbered(s) && Enabled(s, a)
    ensures Numbered(Apply(s, a))
  {
    if a.Replace? {
      NextOfMod(|s.forwarders|);
      hide NextGeneration;
    } else {
      ActedKeepsGeneration(s, a);
      hide Acted;
    }
  }

  lemma {:induction false} RunKeepsNumbers(s: State, run: seq<Action>)
    requires Numbered(s) && Legal(s, run)
    ensures Numbered(After(s, run))
    decreases |run|
  {
    hide Apply, Numbered;
    if run != [] {
      StepKeepsNumbers(s, run[0]);
      RunKeepsNumbers(Apply(s, run[0]), run[1..]);
    }
  }

  lemma SameRemainder(a: nat, b: nat)
    requires a <= b
    ensures a % TWO_TO_64 == b % TWO_TO_64 <==> (b - a) % TWO_TO_64 == 0
  {
    var qa, ra, qb, rb := a / TWO_TO_64, a % TWO_TO_64, b / TWO_TO_64, b % TWO_TO_64;
    assert a == TWO_TO_64 * qa + ra && b == TWO_TO_64 * qb + rb;
    if ra == rb {
      assert b - a == TWO_TO_64 * (qb - qa);
    }
  }

  // Two bridges share a generation only when a multiple of 2^64 replacements lies between them.
  lemma GenerationsDiffer(run: seq<Action>, j: nat, k: nat)
    requires Legal(INITIAL, run) && j < k < |After(INITIAL, run).forwarders|
    ensures var fs := After(INITIAL, run).forwarders;
            fs[j].generation == fs[k].generation <==> (k - j) % TWO_TO_64 == 0
  {
    RunKeepsNumbers(INITIAL, run);
    SameRemainder(j + 1, k + 1);
    hide After, Legal;
  }

  // ------------------------------------------------------- at most one late event --

  ghost predicate Bounded(f: Forwarder, newest: bool) {
    if newest then f.late == 0
    else f.late + (if f.place == Awaiting then 1 else 0) <= (if f.caught then 1 else 0)
  }

  ghost predicate AllBounded(fs: seq<Forwarder>) {
    forall k :: 0 <= k < |fs| ==> Bounded(fs[k], k == |fs| - 1)
  }

  lemma CheckBounded(s: State, k: nat)
    requires Numbered(s) && AllBounded(s.forwarders) && |s.forwarders| <= TWO_TO_64
    requires k < |s.forwarders| && s.forwarders[k].place == Checking
    ensures Bounded(Checked(s.forwarders[k], s.counter), k == |s.forwarders| - 1)
  {
    assert Bounded(s.forwarders[k], k == |s.forwarders| - 1);
    if k < |s.forwarders| - 1 {
      SameRemainder(k + 1, |s.forwarders|);
    }
  }

  lemma ReceiveBounded(f: Forwarder, expired: nat, newest: bool)
    requires Bounded(f, newest) && f.place == Awaiting && (f.missed > 0 || f.queue != [])
    ensures Bounded(Received(f, expired, newest), newest)
  {
    ReceivedIsChecking(f, expired, newest);
    hide Received;
  }

  lemma StepKeepsBound(s: State, a: Action)
    requires Numbered(s) && AllBounded(s.forwarders) && |s.forwarders| <= TWO_TO_64 && Enabled(s, a)
    ensures AllBounded(Apply(s, a).forwarders)
  {
    var fs := s.forwarders;
    match a {
      case Replace =>
        if fs != [] {
          assert Bounded(fs[|fs| - 1], true);
        }
      case Publish(i, e) =>
        assert Bounded(fs[i], i == |fs| - 1);
      case Check(i) =>
        CheckBounded(s, i);
        hide Checked, Bounded;
      case Receive(i, expired) =>
        assert Bounded(fs[i], i == |fs| - 1);
        ReceiveBounded(fs[i], expired, i == |fs| - 1);
        hide Received, Bounded;
    }
  }

  lemma {:induction false} NeverFewer(s: State, run: seq<Action>)
    requires Legal(s, run)
    ensures |After(s, run).forwarders| >= |s.forwarders|
    decreases |run|
  {
    if run != [] {
      NeverFewer(Apply(s, run[0]), run[1..]);
      hide After, Legal, Acted;
    }
  }

  lemma {:induction false} RunKeepsBound(s: State, run: seq<Action>)
    requires Numbered(s) && AllBounded(s.forwarders) && Legal(s, run)
    requires |After(s, run).forwarders| <= TWO_TO_64
    ensures AllBounded(After(s, run).forwarders)
    decreases |run|
  {
    NeverFewer(s, run);
    hide Apply, Numbered, AllBounded;
    if run != [] {
      StepKeepsNumbers(s, run[0]);
      StepKeepsBound(s, run[0]);
      RunKeepsBound(Apply(s, run[0]), run[1..]);
    }
  }

  // In every reachable state, the forwarder of the newest bridge passes its check, and every other
  // one retires at it.
  lemma OnlyTheNewestGoesOn(run: seq<Action>, k: nat)
    requires Legal(INITIAL, run) && k < |After(INITIAL, run).forwarders| <= TWO_TO_64
    requires After(INITIAL, run).forwarders[k].place == Checking
    ensures var s := After(INITIAL, run);
            && Enabled(s, Check(k))
            && Apply(s, Check(k)).forwarders[k].place == if k == |s.forwarders| - 1 then Awaiting else Retired
  {
    RunKeepsNumbers(INITIAL, run);
    var s := After(INITIAL, run);
    hide After, Legal;
    SameRemainder(k + 1, |s.forwarders|);
  }

  function Rounds(i: nat, n: nat): seq<Action> {
    if n == 0 then [] else [Check(i), Receive(i, 0)] + Rounds(i, n - 1)
  }

  lemma RoundPasses(s: State, i: nat)
    requires i == |s.forwarders| - 1 && s.forwarders[i].generation == s.counter
    requires var f := s.forwarders[i]; f.place == Checking && f.missed == 0 && f.queue != []
    ensures var f, t := s.forwarders[i], Apply(s, Check(i));
            && Enabled(t, Receive(i, 0))
            && var u := Apply(t, Receive(i, 0));
               && |u.forwarders| == |s.forwarders| && u.counter == s.counter
               && u.forwarders[i] == f.(queue := f.queue[1..], emitted := f.emitted + [f.queue[0]])
  {
  }

  // A newest forwarder that keeps up passes on everything that is waiting, in order.
  lemma {:induction false} NewestPassesAllOn(s: State, i: nat)
    requires i == |s.forwarders| - 1 && s.forwarders[i].generation == s.counter
    requires s.forwarders[i].place == Checking && s.forwarders[i].missed == 0
    ensures var f, run := s.forwarders[i], Rounds(i, |s.forwarders[i].queue|);
            && Legal(s, run) && |After(s, run).forwarders| == |s.forwarders|
            && After(s, run).forwarders[i].emitted == f.emitted + f.queue
            && After(s, run).forwarders[i].queue == []
    decreases |s.forwarders[i].queue|
  {
    var f := s.forwarders[i];
    if f.queue == [] {
      assert f.emitted + [] == f.emitted;
    } else {
      RoundPasses(s, i);
      var t := Apply(s, Check(i));
      var u := Apply(t, Receive(i, 0));
      assert Enabled(s, Check(i));
      var rest := Rounds(i, |f.queue| - 1);
      assert Rounds(i, |f.queue|) == [Check(i)] + ([Receive(i, 0)] + rest);
      hide Apply, Enabled, Rounds, Acted;
      NewestPassesAllOn(u, i);
      LegalCons(t, Receive(i, 0), rest);
      LegalCons(s, Check(i), [Receive(i, 0)] + rest);
      assert f.emitted + [f.queue[0]] + f.queue[1..] == f.emitted + f.queue;
    }
  }

  // A replaced bridge has at most one event forwarded after its successor's generation was issued,
  // and only if its forwarder had already passed the check by then.
  lemma AtMostOneLateEvent(run: seq<Action>, k: nat)
    requires Legal(INITIAL, run) && k < |After(INITIAL, run).forwarders| <= TWO_TO_64
    ensures var f := After(INITIAL, run).forwarders[k];
            f.late <= 1 && (f.late == 1 ==> f.caught && f.place != Awaiting)
  {
    RunKeepsBound(INITIAL, run);
    var fs := After(INITIAL, run).forwarders;
    hide After, Legal;
    assert Bounded(fs[k], k == |fs| - 1);
  }

  // A replaced bridge whose forwarder was past its check then, and has moved on since, has had its
  // late event passed on, unless the forwarder fell behind.
  ghost predicate PassedOn(f: Forwarder, newest: bool) {
    !newest && f.caught && f.place != Awaiting ==> f.late >= 1 || f.missed > 0
  }

  ghost predicate AllPassedOn(fs: seq<Forwarder>) {
    forall k :: 0 <= k < |fs| ==> PassedOn(fs[k], k == |fs| - 1)
  }

  lemma ReceivePassesOn(f: Forwarder, expired: nat, newest: bool)
    requires InStep(f) && (f.missed > 0 || f.queue != [])
    ensures PassedOn(Received(f, expired, newest), newest)
  {
    ReceivedIsChecking(f, expired, newest);
    ReceivedInStep(f, expired, newest);
    hide Received, InStep;
  }

  lemma StepPassesOn(s: State, a: Action)
    requires AllPassedOn(s.forwarders) && AllInStep(s.forwarders) && Enabled(s, a)
    ensures AllPassedOn(Apply(s, a).forwarders)
  {
    var fs := s.forwarders;
    match a {
      case Replace =>
      case Publish(i, e) =>
        assert PassedOn(fs[i], i == |fs| - 1);
        assert PassedOn(Sent(fs[i], e), i == |fs| - 1);
        hide Sent, PassedOn;
      case Check(i) =>
        assert PassedOn(fs[i], i == |fs| - 1);
      case Receive(i, expired) =>
        ReceivePassesOn(fs[i], expired, i == |fs| - 1);
        hide Received, PassedOn;
    }
  }

  lemma {:induction false} RunPassesOn(s: State, run: seq<Action>)
    requires AllPassedOn(s.forwarders) && AllInStep(s.forwarders) && Legal(s, run) && s.forwarders != []
    ensures AllPassedOn(After(s, run).forwarders)
    decreases |run|
  {
    if run != [] {
      StepPassesOn(s, run[0]);
      StepInStep(s, run[0], 0);
      assert Apply(s, run[0]).forwarders != [];
      hide Apply, AllPassedOn, AllInStep;
      RunPassesOn(Apply(s, run[0]), run[1..]);
    }
  }

  lemma FirstPassesOn(run: seq<Action>)
    requires Legal(INITIAL, run)
    ensures AllPassedOn(After(INITIAL, run).forwarders)
  {
    if run != [] {
      assert run[0] == Replace;
      var s := Apply(INITIAL, Replace);
      assert s.forwarders == [Fresh(1)] && InStep(Fresh(1));
      hide Apply;
      RunPassesOn(s, run[1..]);
      hide AllPassedOn;
    }
  }

  // For every run and every replaced bridge: an event of it gets through late exactly when its
  // forwarder was past its check when the newer generation was issued and has moved on since. None
  // does when it was not; only a forwarder that fell behind may have moved on without one.
  lemma LateEventIff(run: seq<Action>, k: nat)
    requires Legal(INITIAL, run) && k + 1 < |After(INITIAL, run).forwarders| <= TWO_TO_64
    ensures var f := After(INITIAL, run).forwarders[k];
            && (!f.caught ==> f.late == 0)
            && (f.missed == 0 ==> (f.late == 1 <==> f.caught && f.place != Awaiting))
  {
    RunKeepsBound(INITIAL, run);
    FirstPassesOn(run);
    var fs := After(INITIAL, run).forwarders;
    hide After, Legal;
    assert Bounded(fs[k], false) && PassedOn(fs[k], false);
  }

  // It does happen: the check comes before the wait, so the event of a replaced bridge gets through.
  lemma LateEventGetsThrough(e: Event)
    requires !e.TurnCompleted?
    ensures var run := [Replace, Check(0), Replace, Publish(0, e), Receive(0, 0)];
            Legal(INITIAL, run) && |After(INITIAL, run).forwarders| == 2
            && After(INITIAL, run).forwarders[0].emitted == [e] && After(INITIAL, run).forwarders[0].late == 1
  {
    var s1 := Apply(INITIAL, Replace);
    assert s1 == State(1, [Fresh(1)]);
    var s2 := Apply(s1, Check(0));
    assert s2 == State(1, [Fresh(1).(place := Awaiting)]);
    var s3 := Apply(s2, Replace);
    var f := Fresh(1).(place := Awaiting, caught := true);
    assert s3 == State(2, [f, Fresh(2)]);
    var s4 := Apply(s3, Publish(0, e));
    assert s4.forwarders[0] == f.(published := [e], queue := [e]);
    var s5 := Apply(s4, Receive(0, 0));
    assert s5.forwarders[0].emitted == [e] && s5.forwarders[0].late == 1;
    hide Apply;
    LegalCons(s4, Receive(0, 0), []);
    LegalCons(s3, Publish(0, e), [Receive(0, 0)]);
    LegalCons(s2, Replace, [Publish(0, e), Receive(0, 0)]);
    LegalCons(s1, Check(0), [Replace, Publish(0, e), Receive(0, 0)]);
    LegalCons(INITIAL, Replace, [Check(0), Replace, Publish(0, e), Receive(0, 0)]);
  }

  lemma LegalCons(s: State, a: Action, rest: seq<Action>)
    requires Enabled(s, a) && Legal(Apply(s, a), rest)
    ensures Legal(s, [a] + rest) && After(s, [a] + rest) == After(Apply(s, a), rest)
  {
    assert ([a] + rest)[1..] == rest;
  }

  // ------------------------------------------------------ what the GUI receives --

  // The GUI sees the beginning of what the bridge published; nothing is lost or reordered while
  // the forwarder keeps up.
  ghost predicate InStep(f: Forwarder) {
    && |f.queue| <= EVENT_CAPACITY
    && (f.missed > 0 ==> |f.queue| == EVENT_CAPACITY)
    && f.emitted <= f.published
    && (f.missed == 0 ==> f.emitted + f.queue == f.published)
    && IsEnd(f.queue, f.published)
  }

  // The channel holds the newest events.
  ghost predicate IsEnd(queue: seq<Event>, published: seq<Event>) {
    |queue| <= |published| && queue == published[|published| - |queue|..]
  }

  lemma EndGrows(queue: seq<Event>, published: seq<Event>, e: Event)
    requires IsEnd(queue, published)
    ensures IsEnd(queue + [e], published + [e])
    ensures queue != [] ==> IsEnd(queue[1..], published) && IsEnd(queue[1..] + [e], published + [e])
  {
  }

  lemma SentInStep(f: Forwarder, e: Event)
    requires InStep(f)
    ensures InStep(Sent(f, e)) && (f.missed > 0 ==> Sent(f, e).missed > 0)
  {
    assert f.emitted <= f.published + [e];
    EndGrows(f.queue, f.published, e);
    hide IsEnd;
    if |f.queue| < EVENT_CAPACITY {
      ConcatAssociates(f.emitted, f.queue, [e]);
    }
  }

  lemma {:induction false} AllSentInStep(f: Forwarder, e: Event, times: nat)
    requires InStep(f)
    ensures InStep(AllSent(f, e, times))
  {
    if times > 0 {
      AllSentInStep(f, e, times - 1);
      SentInStep(AllSent(f, e, times - 1), e);
    }
  }

  lemma PassedInStep(f: Forwarder, newest: bool)
    requires InStep(f) && f.missed == 0 && f.queue != []
    ensures InStep(Passed(f, newest))
  {
    var e := f.queue[0];
    EndGrows(f.queue, f.published, e);
    hide IsEnd;
    assert f.emitted + [e] + f.queue[1..] == f.emitted + f.queue;
  }

  // A forwarder that has fallen behind puts its notice at the end of a full channel, which pushes out
  // one more event: it is behind again.
  lemma LaggedInStep(f: Forwarder)
    requires InStep(f) && f.missed > 0
    ensures InStep(Lagged(f)) && Lagged(f).missed == 1 && Lagged(f).emitted == f.emitted
  {
    EndGrows(f.queue, f.published, QueueLagged(f.missed));
    hide IsEnd;
  }

  lemma ReceivedInStep(f: Forwarder, expired: nat, newest: bool)
    requires InStep(f) && (f.missed > 0 || f.queue != [])
    ensures InStep(Received(f, expired, newest))
    ensures f.missed > 0 ==> Received(f, expired, newest).missed > 0
                             && Received(f, expired, newest).emitted == f.emitted
  {
    if f.missed > 0 {
      LaggedInStep(f);
      hide InStep, Lagged;
    } else {
      PassedInStep(f, newest);
      if f.queue[0].TurnCompleted? {
        AllSentInStep(Passed(f, newest), PermissionCancelled(f.queue[0].session), expired);
      }
      hide InStep, Passed, AllSent;
    }
  }

  ghost predicate AllInStep(fs: seq<Forwarder>) {
    forall k :: 0 <= k < |fs| ==> InStep(fs[k])
  }

  // Whether forwarder `k` is behind, and if so, what the GUI has seen of it.
  ghost predicate Silent(s: State, k: nat, emitted: seq<Event>) {
    k < |s.forwarders| && s.forwarders[k].missed > 0 && s.forwarders[k].emitted == emitted
  }

  lemma FreshInStep(generation: nat)
    ensures InStep(Fresh(generation))
  {
  }

  lemma UntouchedInStep(f: Forwarder, counter: nat)
    requires InStep(f)
    ensures InStep(Superseded(f)) && InStep(Checked(f, counter))
    ensures Superseded(f).missed == Checked(f, counter).missed == f.missed
    ensures Superseded(f).emitted == Checked(f, counter).emitted == f.emitted
  {
  }

  lemma StepInStep(s: State, a: Action, k: nat)
    requires AllInStep(s.forwarders) && Enabled(s, a) && k < |s.forwarders|
    ensures AllInStep(Apply(s, a).forwarders)
    ensures k < |Apply(s, a).forwarders|
    ensures s.forwarders[k].missed > 0 ==> Silent(Apply(s, a), k, s.forwarders[k].emitted)
  {
    hide InStep, Received, Superseded, Checked, Fresh;
    var fs := s.forwarders;
    match a {
      case Replace =>
        FreshInStep(NextGeneration(s.counter));
        if fs != [] {
          UntouchedInStep(fs[|fs| - 1], s.counter);
        }
      case Publish(i, e) =>
        SentInStep(fs[i], e);
      case Check(i) =>
        UntouchedInStep(fs[i], s.counter);
      case Receive(i, expired) =>
        ReceivedInStep(fs[i], expired, i == |fs| - 1);
    }
  }

  lemma {:induction false} RunInStep(s: State, run: seq<Action>, k: nat)
    requires AllInStep(s.forwarders) && Legal(s, run) && k < |s.forwarders|
    ensures AllInStep(After(s, run).forwarders)
    ensures s.forwarders[k].missed > 0 ==> Silent(After(s, run), k, s.forwarders[k].emitted)
    decreases |run|
  {
    hide Apply, AllInStep;
    if run != [] {
      StepInStep(s, run[0], k);
      RunInStep(Apply(s, run[0]), run[1..], k);
    }
  }

  // In every run, what the GUI has seen of a bridge is the beginning of what the bridge published,
  // and all of it except the unread rest as long as the forwarder never fell behind.
  lemma SeenInOrder(run: seq<Action>, k: nat)
    requires Legal(INITIAL, run) && k < |After(INITIAL, run).forwarders|
    ensures var f := After(INITIAL, run).forwarders[k];
            && f.emitted <= f.published && (f.missed == 0 ==> f.emitted + f.queue == f.published)
            && IsEnd(f.queue, f.published) && |f.queue| <= 1024 && (f.missed > 0 ==> |f.queue| == 1024)
  {
    FirstStep(run);
    var fs := After(INITIAL, run).forwarders;
    hide After, Legal;
    assert InStep(fs[k]);
  }

  lemma FirstStep(run: seq<Action>)
    requires Legal(INITIAL, run)
    ensures AllInStep(After(INITIAL, run).forwarders)
  {
    if run != [] {
      assert run[0] == Replace;
      var s := Apply(INITIAL, Replace);
      assert s.forwarders == [Fresh(1)] && InStep(Fresh(1));
      hide Apply;
      RunInStep(s, run[1..], 0);
      hide AllInStep;
    }
  }

  // Once a forwarder has missed an event, nothing more of that bridge reaches the GUI -- not even the
  // notice that events were missed.
  lemma BehindIsForGood(before: seq<Action>, run: seq<Action>, k: nat)
    requires Legal(INITIAL, before) && k < |After(INITIAL, before).forwarders|
    requires After(INITIAL, before).forwarders[k].missed > 0
    requires Legal(After(INITIAL, before), run)
    ensures Silent(After(After(INITIAL, before), run), k, After(INITIAL, before).forwarders[k].emitted)
  {
    FirstStep(before);
    var s := After(INITIAL, before);
    RunInStep(s, run, k);
  }

  // One event falls behind exactly when the channel is full of unread ones (or some were missed
  // already).
  lemma FallsBehindIff(f: Forwarder, e: Event)
    requires InStep(f)
    ensures Sent(f, e).missed > 0 <==> f.missed > 0 || |f.queue| == 1024
  {
  }

  function Publications(i: nat, events: seq<Event>): seq<Action> {
    if events == [] then [] else [Publish(i, events[0])] + Publications(i, events[1..])
  }

  // A run of publications that nobody reads.
  lemma {:induction false} UnreadRun(s: State, i: nat, events: seq<Event>)
    requires i < |s.forwarders| && |s.forwarders[i].queue| <= EVENT_CAPACITY
    ensures Legal(s, Publications(i, events))
    ensures var f, t := s.forwarders[i], After(s, Publications(i, events));
            var total := |f.queue| + |events|;
            && |t.forwarders| == |s.forwarders| && t.forwarders[i].emitted == f.emitted
            && |t.forwarders[i].queue| == Min(total, EVENT_CAPACITY)
            && t.forwarders[i].missed == f.missed + (if total > EVENT_CAPACITY then total - EVENT_CAPACITY else 0)
    decreases |events|
  {
    if events != [] {
      var next := Apply(s, Publish(i, events[0]));
      assert next.forwarders[i] == Sent(s.forwarders[i], events[0]);
      assert |next.forwarders| == |s.forwarders|;
      assert Enabled(s, Publish(i, events[0]));
      var f, g := s.forwarders[i], next.forwarders[i];
      assert |g.queue| == Min(|f.queue| + 1, EVENT_CAPACITY) && g.emitted == f.emitted
             && g.missed == (if |f.queue| == EVENT_CAPACITY then f.missed + 1 else f.missed);
      hide Apply, Sent, Enabled, Acted;
      UnreadRun(next, i, events[1..]);
      LegalCons(s, Publish(i, events[0]), Publications(i, events[1..]));
    }
  }

  // It happens: in a run from the start, a forwarder falls behind exactly when one event more than
  // the channel holds is published before it reads.
  lemma FloodFallsBehind(events: seq<Event>)
    ensures var run := [Replace] + Publications(0, events);
            && Legal(INITIAL, run) && |After(INITIAL, run).forwarders| == 1
            && (After(INITIAL, run).forwarders[0].missed > 0 <==> |events| > 1024)
  {
    var s := Apply(INITIAL, Replace);
    assert s == State(1, [Fresh(1)]);
    UnreadRun(s, 0, events);
    hide Apply, Legal, After;
    LegalCons(INITIAL, Replace, Publications(0, events));
  }
}
