/**
 The permission dialogs of the GUI: requests queue up in arrival order, the head is answered,
 and an answer that could not be sent puts its request back. The code between two awaits is one
 step; arrivals, the outcome of an answer, cancelled sessions and lost connections may come in
 any order.
 */
module PermissionQueue {
  import opened Prelude

  // Requests are numbered in the order they arrived.
  datatype Request = Request(id: nat, session: string)

  datatype Panel = Panel(
    queue: seq<Request>, submitting: bool,
    sending: seq<Request>,        // the request whose answer is on its way, if any
    arrivals: seq<Request>,       // history: every request,
    answered: seq<Request>,       //   those whose answer was delivered,
    gone: seq<Request>,           //   those the bridge no longer knew,
    removed: seq<Request>,        //   those taken out of the queue unanswered,
    void: set<Request>)           //   and those cancelled, or lost with a connection, while the GUI held them

  const INITIAL := Panel([], false, [], [], [], [], [], {})

  // How the call that carries an answer ends.
  datatype Outcome = Delivered | Gone | Retryable

  datatype Event =
    | Arrive(session: string)
    | Answer                      // the user picks an option or cancels
    | Settled(outcome: Outcome)
    | Cancelled(session: string)  // `permission_cancelled`, or the end of `cancelTurn`
    | Disconnected

  predicate Enabled(p: Panel, e: Event) {
    e.Settled? ==> p.sending != []
  }

  // ------------------------------------------------------------------ steps --

  function OtherSessions(queue: seq<Request>, session: string): seq<Request> {
    if queue == [] then []
    else OtherSessions(queue[..|queue| - 1], session)
         + (if Back(queue).session != session then [Back(queue)] else [])
  }

  function OfSession(queue: seq<Request>, session: string): seq<Request> {
    if queue == [] then []
    else OfSession(queue[..|queue| - 1], session)
         + (if Back(queue).session == session then [Back(queue)] else [])
  }

  function Arrived(p: Panel, session: string): Panel {
    var r := Request(|p.arrivals|, session);
    p.(queue := p.queue + [r], arrivals := p.arrivals + [r])
  }

  function Answered(p: Panel): Panel {
    if p.submitting || p.queue == [] then p
    else p.(queue := p.queue[1..], submitting := true, sending := p.sending + [p.queue[0]])
  }

  function AnswerSettled(p: Panel, outcome: Outcome): Panel
    requires p.sending != []
  {
    var r := p.sending[0];
    var q := p.(submitting := false, sending := p.sending[1..]);
    match outcome
    case Delivered => q.(answered := q.answered + [r])
    case Gone => q.(gone := q.gone + [r])
    case Retryable => q.(queue := [r] + q.queue)
  }

  function Dropped(p: Panel, session: string): Panel {
    p.(queue := OtherSessions(p.queue, session), removed := p.removed + OfSession(p.queue, session),
       void := p.void + set r | r in p.sending + p.queue && r.session == session)
  }

  function Lost(p: Panel): Panel {
    p.(queue := [], removed := p.removed + p.queue, void := p.void + set r | r in p.sending + p.queue)
  }

  function Apply(p: Panel, e: Event): Panel
    requires Enabled(p, e)
  {
    match e
    case Arrive(session) => Arrived(p, session)
    case Answer => Answered(p)
    case Settled(outcome) => AnswerSettled(p, outcome)
    case Cancelled(session) => Dropped(p, session)
    case Disconnected => Lost(p)
  }

  ghost predicate Legal(p: Panel, run: seq<Event>)
    decreases |run|
  {
    run == [] || (Enabled(p, run[0]) && Legal(Apply(p, run[0]), run[1..]))
  }

  function After(p: Panel, run: seq<Event>): Panel
    requires Legal(p, run)
    decreases |run|
  {
    if run == [] then p else After(Apply(p, run[0]), run[1..])
  }

  // ------------------------------------------------------------ the handlers --

  class PermissionPanel {
    var queue: seq<Request>
    var submitting: bool
    var nextId: nat
    ghost var world: Panel

    constructor ()
      ensures Valid() && world == INITIAL
    {
      queue, submitting, nextId := [], false, 0;
      world := INITIAL;
    }

    ghost predicate Valid()
      reads this
    {
      queue == world.queue && submitting == world.submitting && nextId == |world.arrivals|
    }

    method OnPermissionRequest(session: string)
      requires Valid()
      modifies this
      ensures Valid() && world == Apply(old(world), Arrive(session))
      ensures queue == old(queue) + [Request(old(nextId), session)] && nextId == old(nextId) + 1
      ensures submitting == old(submitting)
    {
      queue := queue + [Request(nextId, session)];
      nextId := nextId + 1;
      world := Arrived(world, session);
    }

    // `resolvePermission` and `cancelPermission` up to the await: the answer to `sent` is on its way.
    method TakeHead() returns (sent: Option<Request>)
      requires Valid()
      modifies this
      ensures Valid() && world == Apply(old(world), Answer)
      ensures sent == if old(submitting || queue == []) then None else Some(old(queue)[0])
      ensures if sent.None? then queue == old(queue) && submitting == old(submitting)
              else queue == old(queue)[1..] && submitting && world.sending == old(world).sending + [sent.value]
    {
      if submitting || queue == [] {
        return None;
      }
      sent := Some(queue[0]);
      world := Answered(world);
      queue := queue[1..];
      submitting := true;
    }

    // The rest of `submitPermission` once the call for `r` has ended.
    method SubmitSettled(r: Request, outcome: Outcome)
      requires Valid() && world.sending == [r]
      modifies this
      ensures Valid() && world == Apply(old(world), Settled(outcome))
      ensures !submitting && world.sending == [] && world.removed == old(world).removed
      ensures queue == if outcome == Retryable then [r] + old(queue) else old(queue)
      ensures world.answered == old(world).answered + if outcome == Delivered then [r] else []
      ensures world.gone == old(world).gone + if outcome == Gone then [r] else []
    {
      if outcome == Retryable {
        queue := [r] + queue;
      }
      submitting := false;
      world := AnswerSettled(world, outcome);
    }

    method DropSession(session: string)
      requires Valid()
      modifies this
      ensures Valid() && world == Apply(old(world), Cancelled(session))
      ensures forall r :: r in queue <==> r in old(queue) && r.session != session
      ensures submitting == old(submitting) && world.sending == old(world).sending
    {
      var kept: seq<Request> := [];
      for i := 0 to |queue|
        invariant Valid() && world == old(world)
        invariant kept == OtherSessions(queue[..i], session)
      {
        OthersStep(queue, i, session);
        hide OtherSessions, OfSession;
        if queue[i].session != session {
          kept := kept + [queue[i]];
        }
      }
      assert queue[..|queue|] == queue;
      AllOthers(queue, session);
      ghost var after := Dropped(world, session);
      assert after.queue == kept && after.submitting == world.submitting && after.sending == world.sending
             && after.arrivals == world.arrivals && after == Apply(world, Cancelled(session));
      hide Dropped, Apply, OtherSessions, OfSession;
      world := after;
      queue := kept;
    }

    method OnDisconnected()
      requires Valid()
      modifies this
      ensures Valid() && world == Apply(old(world), Disconnected)
      ensures queue == [] && world.removed == old(world).removed + old(queue)
      ensures submitting == old(submitting) && world.sending == old(world).sending
    {
      world := Lost(world);
      queue := [];
    }
  }

  lemma OthersStep(queue: seq<Request>, i: nat, session: string)
    requires i < |queue|
    ensures OtherSessions(queue[..i + 1], session)
            == if queue[i].session != session then OtherSessions(queue[..i], session) + [queue[i]]
               else OtherSessions(queue[..i], session)
  {
    assert queue[..i + 1][..i] == queue[..i];
  }

  lemma AllOthers(queue: seq<Request>, session: string)
    ensures forall r :: r in OtherSessions(queue, session) <==> r in queue && r.session != session
  {
    hide *;
    forall r ensures r in OtherSessions(queue, session) <==> r in queue && r.session != session {
      MemberOfOthers(queue, session, r);
    }
  }

  // ----------------------------------------------------------- subsequences --

  lemma {:induction false} SubsequenceFiltered(s: seq<Request>, queue: seq<Request>, session: string)
    ensures Subsequence(s + OtherSessions(queue, session), s + queue)
    decreases |queue|
  {
    if queue == [] {
      SubsequenceRefl(s + queue);
    } else {
      var queue', x := queue[..|queue| - 1], Back(queue);
      var kept, kept' := OtherSessions(queue, session), OtherSessions(queue', session);
      SubsequenceFiltered(s, queue', session);
      assert kept == if x.session != session then kept' + [x] else kept';
      hide OtherSessions;
      FrontOfConcat(s, queue);
      if x.session != session {
        assert kept[..|kept| - 1] == kept';
        FrontOfConcat(s, kept);
      }
    }
  }

  // ---------------------------------------------------- order and one at a time --

  ghost predicate Inv(p: Panel) {
    && |p.sending| == (if p.submitting then 1 else 0)
    && Subsequence(p.sending + p.queue, p.arrivals)
  }

  lemma ArriveInv(p: Panel, session: string)
    requires Inv(p)
    ensures Inv(Arrived(p, session))
  {
    var r := Request(|p.arrivals|, session);
    SubsequenceSnoc(p.sending + p.queue, p.arrivals, r);
    ConcatAssociates(p.sending, p.queue, [r]);
    hide Subsequence;
  }

  lemma AnswerInv(p: Panel)
    requires Inv(p)
    ensures Inv(Answered(p))
  {
    if !p.submitting && p.queue != [] {
      assert p.sending + [p.queue[0]] + p.queue[1..] == p.sending + p.queue;
    }
    hide Subsequence;
  }

  lemma SettledInv(p: Panel, outcome: Outcome)
    requires Inv(p) && p.sending != []
    ensures Inv(AnswerSettled(p, outcome))
  {
    var r := p.sending[0];
    assert p.sending == [r] && p.sending[1..] == [];
    assert [] + p.queue == p.queue && [] + ([r] + p.queue) == p.sending + p.queue;
    SubsequenceParts(p.sending, p.queue);
    SubsequenceTrans(p.queue, p.sending + p.queue, p.arrivals);
    hide Subsequence;
  }

  lemma ShrunkInv(p: Panel, q: Panel)
    requires Inv(p) && q.submitting == p.submitting && q.sending == p.sending && q.arrivals == p.arrivals
    requires Subsequence(q.sending + q.queue, p.sending + p.queue)
    ensures Inv(q)
  {
    SubsequenceTrans(q.sending + q.queue, p.sending + p.queue, p.arrivals);
    hide Subsequence;
  }

  lemma StepKeepsInv(p: Panel, e: Event)
    requires Inv(p) && Enabled(p, e)
    ensures Inv(Apply(p, e))
  {
    hide Subsequence, Inv, OtherSessions, OfSession, Arrived, Answered, AnswerSettled;
    match e
    case Arrive(session) => ArriveInv(p, session);
    case Answer => AnswerInv(p);
    case Settled(outcome) => SettledInv(p, outcome);
    case Cancelled(session) =>
      SubsequenceFiltered(p.sending, p.queue, session);
      ShrunkInv(p, Dropped(p, session));
    case Disconnected =>
      SubsequenceParts(p.sending, p.queue);
      assert p.sending + [] == p.sending;
      ShrunkInv(p, Lost(p));
  }

  // In every run at most one answer is on its way, and that request followed by the queue is in
  // arrival order.
  lemma {:induction false} RunKeepsInv(p: Panel, run: seq<Event>)
    requires Inv(p) && Legal(p, run)
    ensures Inv(After(p, run))
    decreases |run|
  {
    hide Apply, Inv;
    if run != [] {
      StepKeepsInv(p, run[0]);
      RunKeepsInv(Apply(p, run[0]), run[1..]);
    }
  }

  // ------------------------------------------------------------ conservation --

  ghost predicate Numbered(arrivals: seq<Request>) {
    forall i :: 0 <= i < |arrivals| ==> arrivals[i].id == i
  }

  ghost predicate Conserved(p: Panel) {
    && multiset(p.arrivals) == multiset(p.sending) + multiset(p.queue) + multiset(p.answered)
                               + multiset(p.gone) + multiset(p.removed)
    && Numbered(p.arrivals)
  }

  lemma {:induction false} FilterSplits(queue: seq<Request>, session: string)
    ensures multiset(queue) == multiset(OtherSessions(queue, session)) + multiset(OfSession(queue, session))
  {
    if queue != [] {
      FilterSplits(queue[..|queue| - 1], session);
      assert queue == queue[..|queue| - 1] + [Back(queue)];
    }
  }

  lemma ArriveConserves(p: Panel, session: string)
    requires Conserved(p)
    ensures Conserved(Arrived(p, session))
  {
    assert Numbered(p.arrivals + [Request(|p.arrivals|, session)]);
    hide Numbered;
  }

  lemma AnswerConserves(p: Panel)
    requires Conserved(p)
    ensures Conserved(Answered(p))
  {
    hide Numbered;
    if p.queue != [] {
      assert p.queue == [p.queue[0]] + p.queue[1..];
    }
  }

  lemma SettledConserves(p: Panel, outcome: Outcome)
    requires Conserved(p) && p.sending != []
    ensures Conserved(AnswerSettled(p, outcome))
  {
    hide Numbered;
    assert p.sending == [p.sending[0]] + p.sending[1..];
  }

  lemma StepConserves(p: Panel, e: Event)
    requires Conserved(p) && Enabled(p, e)
    ensures Conserved(Apply(p, e))
  {
    hide Numbered, OtherSessions, OfSession, Arrived, Answered, AnswerSettled;
    match e
    case Arrive(session) => ArriveConserves(p, session);
    case Answer => AnswerConserves(p);
    case Settled(outcome) => SettledConserves(p, outcome);
    case Cancelled(session) => FilterSplits(p.queue, session);
    case Disconnected =>
  }

  lemma {:induction false} RunConserves(p: Panel, run: seq<Event>)
    requires Conserved(p) && Legal(p, run)
    ensures Conserved(After(p, run))
    decreases |run|
  {
    hide Apply, Conserved;
    if run != [] {
      StepConserves(p, run[0]);
      RunConserves(Apply(p, run[0]), run[1..]);
    }
  }

  lemma OnceWhenNumbered(arrivals: seq<Request>, r: Request)
    requires Numbered(arrivals)
    ensures multiset(arrivals)[r] <= 1
  {
    if r in arrivals {
      assert arrivals == arrivals[..r.id] + [arrivals[r.id]] + arrivals[r.id + 1..];
      assert r !in arrivals[..r.id] && r !in arrivals[r.id + 1..];
    }
  }

  // No request is answered twice, and one that was answered is never offered again.
  lemma AnsweredOnce(run: seq<Event>, r: Request)
    requires Legal(INITIAL, run)
    ensures var p := After(INITIAL, run);
            multiset(p.answered)[r] + multiset(p.sending)[r] + multiset(p.queue)[r] <= 1
  {
    RunConserves(INITIAL, run);
    var p := After(INITIAL, run);
    hide After, Legal, Apply, Enabled;
    OnceWhenNumbered(p.arrivals, r);
  }

  // ------------------------------------------------------ a retryable failure --

  // What may happen while an answer is on its way, apart from its own end.
  predicate Background(e: Event) {
    e.Arrive? || e.Cancelled? || e.Disconnected?
  }

  ghost predicate AllBackground(run: seq<Event>) {
    run == [] || (Background(run[0]) && AllBackground(run[1..]))
  }

  predicate Voids(e: Event, session: string) {
    e.Disconnected? || e == Cancelled(session)
  }

  predicate SomeVoids(run: seq<Event>, session: string) {
    run != [] && (Voids(run[0], session) || SomeVoids(run[1..], session))
  }

  // `late` is `early` with `r` on its way instead of at the head of the queue, unless `early` dropped it.
  ghost predicate Ahead(early: Panel, late: Panel, r: Request, dropped: bool) {
    && early.queue == (if dropped then [] else [r]) + late.queue
    && |early.arrivals| == |late.arrivals|
    && late.sending == [r]
  }

  lemma {:induction false} OthersOfCons(r: Request, queue: seq<Request>, session: string)
    ensures OtherSessions([r] + queue, session)
            == (if r.session != session then [r] else []) + OtherSessions(queue, session)
    decreases |queue|
  {
    if queue == [] {
      assert [r] + queue == [r];
    } else {
      var queue', x := queue[..|queue| - 1], Back(queue);
      assert ([r] + queue)[..|queue|] == [r] + queue' && Back([r] + queue) == x;
      OthersOfCons(r, queue', session);
      ConcatAssociates(if r.session != session then [r] else [], OtherSessions(queue', session),
                       if x.session != session then [x] else []);
    }
  }

  lemma BackgroundKeepsAhead(early: Panel, late: Panel, r: Request, dropped: bool, e: Event)
    requires Ahead(early, late, r, dropped) && Background(e)
    ensures Ahead(Apply(early, e), Apply(late, e), r, dropped || Voids(e, r.session))
  {
    var head := if dropped then [] else [r];
    match e
    case Arrive(session) => ConcatAssociates(head, late.queue, [Request(|late.arrivals|, session)]);
    case Cancelled(session) =>
      OthersOfCons(r, late.queue, session);
      hide OtherSessions, OfSession;
      if dropped {
        assert early.queue == late.queue;
      }
    case Disconnected =>
  }

  lemma {:induction false} BackgroundRunKeepsAhead(
      early: Panel, late: Panel, r: Request, dropped: bool, run: seq<Event>)
    requires Ahead(early, late, r, dropped) && AllBackground(run)
    ensures Legal(early, run) && Legal(late, run)
    ensures Ahead(After(early, run), After(late, run), r, dropped || SomeVoids(run, r.session))
    decreases |run|
  {
    hide Apply, Ahead;
    if run != [] {
      BackgroundKeepsAhead(early, late, r, dropped, run[0]);
      BackgroundRunKeepsAhead(Apply(early, run[0]), Apply(late, run[0]), r,
                              dropped || Voids(run[0], r.session), run[1..]);
    }
  }

  // A retryable failure leaves the queue as if the user had never answered, whatever arrived or
  // was cancelled meanwhile -- exactly when that did not include the request itself.
  lemma RetryRestores(p: Panel, run: seq<Event>)
    requires Inv(p) && !p.submitting && p.queue != [] && AllBackground(run)
    ensures Legal(p, run) && Legal(Answered(p), run)
    ensures After(Answered(p), run).sending == [p.queue[0]]
    ensures AnswerSettled(After(Answered(p), run), Retryable).queue == After(p, run).queue
            <==> !SomeVoids(run, p.queue[0].session)
  {
    var r := p.queue[0];
    assert Ahead(p, Answered(p), r, false);
    BackgroundRunKeepsAhead(p, Answered(p), r, false, run);
    hide After, Legal, SomeVoids, Apply;
  }

  // ------------------------------------------------------------ void requests --

  // The promise behind the sweeps: no dialog is left for a request that was cancelled.
  ghost predicate NoneVoid(p: Panel) {
    && (forall r :: r in p.queue ==> r !in p.void)
    && (forall r :: r in p.void ==> r.id < |p.arrivals|)
    && (forall r :: r in p.sending + p.queue ==> r.id < |p.arrivals|)
  }

  predicate RevivesVoid(p: Panel, e: Event)
    requires Enabled(p, e)
  {
    e == Settled(Retryable) && p.sending[0] in p.void
  }

  lemma {:induction false} MemberOfOthers(queue: seq<Request>, session: string, r: Request)
    ensures r in OtherSessions(queue, session) <==> r in queue && r.session != session
  {
    if queue != [] {
      MemberOfOthers(queue[..|queue| - 1], session, r);
      assert queue == queue[..|queue| - 1] + [Back(queue)];
    }
  }

  lemma DropNoneVoid(p: Panel, session: string)
    requires NoneVoid(p)
    ensures NoneVoid(Dropped(p, session))
  {
    AllOthers(p.queue, session);
    hide OtherSessions, OfSession;
  }

  lemma SettledNoneVoid(p: Panel, outcome: Outcome)
    requires NoneVoid(p) && p.sending != []
    ensures NoneVoid(AnswerSettled(p, outcome)) <==> !RevivesVoid(p, Settled(outcome))
  {
    var r := p.sending[0];
    assert r in p.sending + p.queue;
    assert p.sending == [r] + p.sending[1..];
    if RevivesVoid(p, Settled(outcome)) {
      assert r in AnswerSettled(p, outcome).queue;
    }
  }

  // One kind of step breaks it: the retryable failure of an answer whose request was cancelled,
  // or lost with its connection, while the answer was on its way.
  lemma StepKeepsNoneVoid(p: Panel, e: Event)
    requires NoneVoid(p) && Enabled(p, e)
    ensures NoneVoid(Apply(p, e)) <==> !RevivesVoid(p, e)
  {
    match e
    case Arrive(session) =>
    case Answer =>
      if p.queue != [] {
        assert p.queue == [p.queue[0]] + p.queue[1..];
      }
    case Settled(outcome) => SettledNoneVoid(p, outcome);
    case Cancelled(session) => DropNoneVoid(p, session);
    case Disconnected =>
  }

  ghost predicate AlwaysNoneVoid(p: Panel, run: seq<Event>)
    requires Legal(p, run)
    decreases |run|
  {
    NoneVoid(p) && (run == [] || AlwaysNoneVoid(Apply(p, run[0]), run[1..]))
  }

  ghost predicate NeverRevives(p: Panel, run: seq<Event>)
    requires Legal(p, run)
    decreases |run|
  {
    run == [] || (!RevivesVoid(p, run[0]) && NeverRevives(Apply(p, run[0]), run[1..]))
  }

  lemma {:induction false} RunKeepsNoneVoid(p: Panel, run: seq<Event>)
    requires NoneVoid(p) && Legal(p, run)
    ensures AlwaysNoneVoid(p, run) <==> NeverRevives(p, run)
    decreases |run|
  {
    hide Apply, NoneVoid, RevivesVoid;
    if run != [] {
      StepKeepsNoneVoid(p, run[0]);
      if !RevivesVoid(p, run[0]) {
        RunKeepsNoneVoid(Apply(p, run[0]), run[1..]);
      }
    }
  }

  lemma {:induction false} MemberOfSession(queue: seq<Request>, session: string, r: Request)
    ensures r in OfSession(queue, session) <==> r in queue && r.session == session
  {
    if queue != [] {
      MemberOfSession(queue[..|queue| - 1], session, r);
      assert queue == queue[..|queue| - 1] + [Back(queue)];
    }
  }

  // A request is taken out of the queue, or becomes void, only with its own session or connection.
  lemma StepRemoves(p: Panel, e: Event, r: Request)
    requires Enabled(p, e)
    ensures r in Apply(p, e).removed <==> r in p.removed || (Voids(e, r.session) && r in p.queue)
    ensures r in Apply(p, e).void <==> r in p.void || (Voids(e, r.session) && r in p.sending + p.queue)
  {
    if e.Cancelled? {
      MemberOfSession(p.queue, e.session, r);
    }
    hide OtherSessions, OfSession;
  }

  // And a waiting one leaves the queue only to be answered, or with its session or connection.
  lemma StepKeepsWaiting(p: Panel, e: Event, r: Request)
    requires Enabled(p, e) && r in p.queue && r !in Apply(p, e).queue
    ensures Voids(e, r.session) || (e.Answer? && r == p.queue[0] && !p.submitting && r in Apply(p, e).sending)
  {
    assert p.queue == [p.queue[0]] + p.queue[1..];
    if e.Cancelled? {
      MemberOfOthers(p.queue, e.session, r);
    }
    hide OtherSessions, OfSession;
  }

  lemma {:induction false} RunRemoves(p: Panel, run: seq<Event>, r: Request)
    requires Legal(p, run)
    ensures r in After(p, run).removed ==> r in p.removed || SomeVoids(run, r.session)
    ensures r in After(p, run).void ==> r in p.void || SomeVoids(run, r.session)
    decreases |run|
  {
    if run != [] {
      StepRemoves(p, run[0], r);
      hide Apply;
      RunRemoves(Apply(p, run[0]), run[1..], r);
    }
  }

  // Over every run: a request whose session was not cancelled and whose connection was not lost is
  // waiting, on its way, answered, or gone itself.
  lemma RequestIsHeld(run: seq<Event>, r: Request)
    requires Legal(INITIAL, run) && !SomeVoids(run, r.session)
    ensures var p := After(INITIAL, run);
            r !in p.removed && r !in p.void
            && (r in p.arrivals ==> r in p.queue || r in p.sending || r in p.answered || r in p.gone)
  {
    RunConserves(INITIAL, run);
    RunRemoves(INITIAL, run, r);
    var p := After(INITIAL, run);
    hide After, Legal, SomeVoids;
    assert r in p.arrivals ==> multiset(p.arrivals)[r] > 0;
  }

  function CountSettled(run: seq<Event>, outcome: Outcome): nat {
    if run == [] then 0 else (if run[0] == Settled(outcome) then 1 else 0) + CountSettled(run[1..], outcome)
  }

  // Each answer that settles concerns one request: as many were answered, and as many are gone, as
  // answers came back so.
  lemma {:induction false} OneRequestEach(p: Panel, run: seq<Event>)
    requires Legal(p, run)
    ensures |After(p, run).answered| == |p.answered| + CountSettled(run, Delivered)
    ensures |After(p, run).gone| == |p.gone| + CountSettled(run, Gone)
    decreases |run|
  {
    if run != [] {
      OneRequestEach(Apply(p, run[0]), run[1..]);
      hide OtherSessions, OfSession;
    }
  }

  // The bridge goes away while an answer is on its way: the queue is cleared, then the failed
  // answer puts a dialog back that nobody can answer.
  lemma DeadDialogReturns(session: string)
    ensures var run := [Arrive(session), Answer, Disconnected, Settled(Retryable)];
            Legal(INITIAL, run) && After(INITIAL, run).queue == [Request(0, session)]
            && Request(0, session) in After(INITIAL, run).void
  {
    var r := Request(0, session);
    var p1 := Apply(INITIAL, Arrive(session));
    assert p1.queue == [r];
    var p2 := Apply(p1, Answer);
    assert p2.sending == [r] && p2.queue == [];
    var p3 := Apply(p2, Disconnected);
    assert r in p2.sending + p2.queue && r in p3.void;
    var p4 := Apply(p3, Settled(Retryable));
    assert p4.queue == [r];
    hide Apply;
    LegalCons(p3, Settled(Retryable), []);
    LegalCons(p2, Disconnected, [Settled(Retryable)]);
    LegalCons(p1, Answer, [Disconnected, Settled(Retryable)]);
    LegalCons(INITIAL, Arrive(session), [Answer, Disconnected, Settled(Retryable)]);
  }

  lemma LegalCons(p: Panel, e: Event, rest: seq<Event>)
    requires Enabled(p, e) && Legal(Apply(p, e), rest)
    ensures Legal(p, [e] + rest) && After(p, [e] + rest) == After(Apply(p, e), rest)
  {
    assert ([e] + rest)[1..] == rest;
  }
}
