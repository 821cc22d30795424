/** The workspace event bus (runkod/eventbus.go): lossy, coalescing delivery with one pending
    event and a capacity-1 signal per subscription.  Publishing holds the bus lock but not
    the subscriptions': consumers receive and take between a publisher's two writes. */
module BusMachine {
  import opened Changes

  type Ev = nat

  /** ready: the buffered signal; taking: consumers holding a received signal that have not
      called Take yet; closes: times `done` was closed.  History: the events published to it
      while registered, and the one its last successful take returned. */
  datatype Sub = Sub(
    workspace: Name,
    latest: Ev,
    has: bool,
    ready: bool,
    taking: nat,
    registered: bool,
    closes: nat,
    offered: seq<Ev>,
    got: Option<Ev>)

  /** The bus lock: free, or held by a publisher with the subscriptions it has yet to visit
      and the one it has stored to but not signalled. */
  datatype Lock<Id> = Free | Publishing(workspace: Name, ev: Ev, todo: set<Id>, signal: Option<Id>)

  datatype State<Id> = State(subs: map<Id, Sub>, closed: bool, lock: Lock<Id>)

  datatype Action<Id> =
    | Subscribe(id: Id, workspace: Name)
    | Cancel(id: Id)
    | Close
    | Begin(workspace: Name, ev: Ev)
    | Store(id: Id)
    | Signal
    | Finish
    | Receive(id: Id)
    | Take(id: Id)
    | Poll(id: Id)

  /** Subscribe on a closed bus hands out a subscription that is done already. */
  function NewSub(ws: Name, closed: bool): Sub {
    Sub(ws, 0, false, false, 0, !closed, if closed then 1 else 0, [], None)
  }

  /** Cancel and Close: only a registered subscription's `done` is closed. */
  function Ended(u: Sub): Sub {
    if u.registered then u.(registered := false, closes := u.closes + 1) else u
  }

  function Offered(u: Sub, ws: Name, ev: Ev): Sub {
    if u.registered && u.workspace == ws then u.(offered := u.offered + [ev]) else u
  }

  function Stored(u: Sub, ev: Ev): Sub {
    u.(latest := ev, has := true)
  }

  function Taken(u: Sub): Sub {
    if u.has then u.(has := false, got := Some(u.latest)) else u
  }

  function Visit<Id>(s: State<Id>, id: Id): State<Id>
    requires s.lock.Publishing? && id in s.subs
  {
    var l := s.lock.(todo := s.lock.todo - {id});
    if s.subs[id].workspace != l.workspace then s.(lock := l)
    else s.(subs := s.subs[id := Stored(s.subs[id], l.ev)], lock := l.(signal := Some(id)))
  }

  ghost function Registered<Id>(subs: map<Id, Sub>): set<Id> {
    set id | id in subs && subs[id].registered
  }

  ghost function AllOffered<Id>(subs: map<Id, Sub>, ws: Name, ev: Ev): map<Id, Sub> {
    map id | id in subs :: Offered(subs[id], ws, ev)
  }

  ghost function AllEnded<Id>(subs: map<Id, Sub>): map<Id, Sub> {
    map id | id in subs :: Ended(subs[id])
  }

  ghost function BeginPublish<Id>(s: State<Id>, ws: Name, ev: Ev): State<Id> {
    s.(subs := AllOffered(s.subs, ws, ev), lock := Publishing(ws, ev, Registered(s.subs), None))
  }

  /** One step; a step that is not enabled changes nothing. */
  ghost function Step<Id>(s: State<Id>, a: Action<Id>): State<Id> {
    match a
    case Subscribe(id, ws) =>
      if s.lock.Free? && id !in s.subs then s.(subs := s.subs[id := NewSub(ws, s.closed)]) else s
    case Cancel(id) =>
      if s.lock.Free? && id in s.subs then s.(subs := s.subs[id := Ended(s.subs[id])]) else s
    case Close =>
      if s.lock.Free? && !s.closed then State(AllEnded(s.subs), true, Free) else s
    case Begin(ws, ev) => if s.lock.Free? then BeginPublish(s, ws, ev) else s
    case Store(id) =>
      if s.lock.Publishing? && s.lock.signal.None? && id in s.lock.todo && id in s.subs then Visit(s, id) else s
    case Signal =>
      if s.lock.Publishing? && s.lock.signal.Some? && s.lock.signal.value in s.subs then
        var id := s.lock.signal.value;
        s.(subs := s.subs[id := s.subs[id].(ready := true)], lock := s.lock.(signal := None))
      else s
    case Finish =>
      if s.lock.Publishing? && s.lock.todo == {} && s.lock.signal.None? then s.(lock := Free) else s
    case Receive(id) =>
      if id in s.subs && s.subs[id].ready
      then s.(subs := s.subs[id := s.subs[id].(ready := false, taking := s.subs[id].taking + 1)]) else s
    case Take(id) =>
      if id in s.subs && s.subs[id].taking > 0
      then s.(subs := s.subs[id := Taken(s.subs[id].(taking := s.subs[id].taking - 1))]) else s
    case Poll(id) =>
      if id in s.subs then s.(subs := s.subs[id := Taken(s.subs[id])]) else s
  }

  ghost function After<Id>(s: State<Id>, acts: seq<Action<Id>>): State<Id>
    decreases |acts|
  {
    if acts == [] then s else Step(After(s, acts[..|acts| - 1]), acts[|acts| - 1])
  }

  ghost predicate Start<Id>(s: State<Id>) {
    s == State(map[], false, Free)
  }

  // ----- Signals and takes

  /** A signal is queued by a publisher and consumed by a receive, one at a time; and an event
      is offered to the registered subscriptions of its workspace as its publication begins. */
  lemma SignalsExactly<Id>(s: State<Id>, a: Action<Id>, id: Id)
    requires id in s.subs && id in Step(s, a).subs
    ensures var u, v := s.subs[id], Step(s, a).subs[id];
            && (v.ready <==> (a.Signal? && s.lock.Publishing? && s.lock.signal == Some(id)) || (u.ready && a != Receive(id)))
            && (v.taking > u.taking ==> a == Receive(id) && u.ready && v.taking == u.taking + 1)
            && (u.registered && !v.registered ==> a == Cancel(id) || a.Close?)
            && v.offered == (if a.Begin? && s.lock.Free? && u.registered && u.workspace == a.workspace then u.offered + [a.ev]
                             else u.offered)
  {
  }

  /** An event is pending from its store on, until one take or poll returns it. */
  lemma DeliversOnce<Id>(s: State<Id>, a: Action<Id>, id: Id)
    requires id in s.subs && id in Step(s, a).subs
    ensures var u, v := s.subs[id], Step(s, a).subs[id];
            && (v.got != u.got || (u.has && !v.has) ==>
                  && u.has && !v.has && v.got == Some(u.latest)
                  && (a == Poll(id) || (a == Take(id) && u.taking > 0)))
            && (u.has && (a == Poll(id) || (a == Take(id) && u.taking > 0)) ==> !v.has)
            && (v.has && (!u.has || v.latest != u.latest) ==>
                  a == Store(id) && s.lock.Publishing? && v.latest == s.lock.ev && u.workspace == s.lock.workspace)
  {
  }

  // ----- Invariants

  /** The publisher will store the current event to `id`. */
  ghost predicate Awaiting<Id>(s: State<Id>, id: Id)
    requires id in s.subs
  {
    s.lock.Publishing? && id in s.lock.todo && s.subs[id].workspace == s.lock.workspace
  }

  /** A pending event has a signal queued, a publisher about to signal, or a consumer about
      to take. */
  ghost predicate Wakes<Id>(s: State<Id>, id: Id)
    requires id in s.subs
  {
    s.subs[id].has ==>
      s.subs[id].ready || s.subs[id].taking > 0 || (s.lock.Publishing? && s.lock.signal == Some(id))
  }

  /** What was published to it and has reached it. */
  ghost function Reached(u: Sub, awaiting: bool): seq<Ev> {
    if awaiting && u.offered != [] then u.offered[..|u.offered| - 1] else u.offered
  }

  /** The pending event is the newest that reached it; with nothing pending, the newest was
      taken. */
  ghost predicate Newest(u: Sub, awaiting: bool) {
    var reached := Reached(u, awaiting);
    && (u.has ==> reached != [] && u.latest == reached[|reached| - 1])
    && (!u.has && reached != [] ==> u.got == Some(reached[|reached| - 1]))
  }

  ghost predicate Good<Id>(s: State<Id>, id: Id)
    requires id in s.subs
  {
    var u := s.subs[id];
    && Wakes(s, id)
    && Newest(u, Awaiting(s, id))
    && (Awaiting(s, id) ==> u.offered != [] && u.offered[|u.offered| - 1] == s.lock.ev)
    && u.closes == (if u.registered then 0 else 1)
    && (s.closed ==> !u.registered)
  }

  ghost predicate Inv<Id>(s: State<Id>) {
    && (forall id :: id in s.subs ==> Good(s, id))
    && (s.lock.Publishing? ==> s.lock.todo <= s.subs.Keys && (s.lock.signal.Some? ==> s.lock.signal.value in s.subs))
  }


  lemma GoodBegin<Id>(s: State<Id>, ws: Name, ev: Ev, id: Id)
    requires Inv(s) && id in Step(s, Begin(ws, ev)).subs
    ensures Good(Step(s, Begin(ws, ev)), id)
  {
    assert Good(s, id);
  }

  lemma GoodStore<Id>(s: State<Id>, at: Id, id: Id)
    requires Inv(s) && id in Step(s, Store(at)).subs
    ensures Good(Step(s, Store(at)), id)
  {
    assert Good(s, id);
  }

  lemma GoodSignal<Id>(s: State<Id>, id: Id)
    requires Inv(s) && id in Step(s, Signal).subs
    ensures Good(Step(s, Signal), id)
  {
    assert Good(s, id);
  }

  lemma GoodReceive<Id>(s: State<Id>, at: Id, id: Id)
    requires Inv(s) && id in Step(s, Receive(at)).subs
    ensures Good(Step(s, Receive(at)), id)
  {
    assert Good(s, id) && Step(s, Receive(at)).lock == s.lock;
  }

  lemma GoodTake<Id>(s: State<Id>, at: Id, id: Id)
    requires Inv(s) && id in Step(s, Take(at)).subs
    ensures Good(Step(s, Take(at)), id)
  {
    assert Good(s, id) && Step(s, Take(at)).lock == s.lock;
  }

  lemma GoodPoll<Id>(s: State<Id>, at: Id, id: Id)
    requires Inv(s) && id in Step(s, Poll(at)).subs
    ensures Good(Step(s, Poll(at)), id)
  {
    assert Good(s, id) && Step(s, Poll(at)).lock == s.lock;
  }

  lemma GoodStep<Id>(s: State<Id>, a: Action<Id>, id: Id)
    requires Inv(s) && id in Step(s, a).subs
    ensures Good(Step(s, a), id)
  {
    match a
    case Begin(ws, ev) => GoodBegin(s, ws, ev, id);
    case Store(at) => GoodStore(s, at, id);
    case Signal => GoodSignal(s, id);
    case Receive(at) => GoodReceive(s, at, id);
    case Take(at) => GoodTake(s, at, id);
    case Poll(at) => GoodPoll(s, at, id);
    case _ =>
      if id in s.subs { assert Good(s, id); }
  }

  lemma InvStep<Id>(s: State<Id>, a: Action<Id>)
    requires Inv(s)
    ensures Inv(Step(s, a))
  {
    forall id | id in Step(s, a).subs ensures Good(Step(s, a), id) { GoodStep(s, a, id); }
  }

  /** For any number of subscriptions and any interleaving, no wakeup is lost, what is
      pending is the newest event that reached the subscription, and `done` is closed at
      most once. */
  lemma {:induction false} NoLostWakeup<Id>(s: State<Id>, acts: seq<Action<Id>>)
    requires Start(s)
    ensures Inv(After(s, acts))
    decreases |acts|
  {
    if acts != [] {
      NoLostWakeup(s, acts[..|acts| - 1]);
      InvStep(After(s, acts[..|acts| - 1]), acts[|acts| - 1]);
    }
  }

  /** A take that succeeds returns the newest event published to the subscription, short of
      one still on its way to it. */
  lemma TakeReturnsNewest<Id>(s: State<Id>, acts: seq<Action<Id>>, id: Id)
    requires Start(s) && id in After(s, acts).subs
    requires var u := After(s, acts).subs[id]; u.has && u.taking > 0
    ensures var t := After(s, acts);
            var reached := Reached(t.subs[id], Awaiting(t, id));
            reached != [] && Step(t, Take(id)).subs[id].got == Some(reached[|reached| - 1])
  {
    NoLostWakeup(s, acts);
    assert Good(After(s, acts), id);
  }

  /** Once nothing is being published, queued or held, the last event published to a
      subscription has been taken: bursts coalesce, but never to nothing. */
  lemma LastEventTaken<Id>(s: State<Id>, acts: seq<Action<Id>>, id: Id)
    requires Start(s) && id in After(s, acts).subs && After(s, acts).lock.Free?
    requires var u := After(s, acts).subs[id]; !u.ready && u.taking == 0
    ensures var u := After(s, acts).subs[id]; u.offered == [] || u.got == Some(u.offered[|u.offered| - 1])
  {
    NoLostWakeup(s, acts);
    assert Good(After(s, acts), id);
  }

  /** `done` is closed at most once, and exactly once the subscription is over. */
  lemma DoneClosedOnce<Id>(s: State<Id>, acts: seq<Action<Id>>, id: Id)
    requires Start(s) && id in After(s, acts).subs
    ensures var t := After(s, acts);
            t.subs[id].closes <= 1 && (t.subs[id].closes == 1 <==> !t.subs[id].registered)
            && (t.closed ==> t.subs[id].closes == 1)
  {
    NoLostWakeup(s, acts);
    assert Good(After(s, acts), id);
  }
}
