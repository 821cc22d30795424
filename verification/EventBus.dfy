/** The bus as objects (runkod/eventbus.go).  Each method, run without interruption, is a run
    of the machine in BusMachine. */
module EventBus {
  import opened Changes
  import opened BusMachine

  class BusSubscription {
    const workspace: Name
    var latest: Ev
    var has: bool
    var ready: bool
    var done: bool
    ghost var taking: nat
    ghost var offered: seq<Ev>
    ghost var got: Option<Ev>

    constructor (ws: Name, closed: bool)
      ensures Value(!closed) == NewSub(ws, closed)
    {
      workspace, latest, has, ready, done := ws, 0, false, false, closed;
      taking, offered, got := 0, [], None;
    }

    ghost function Value(registered: bool): Sub
      reads this
    {
      Sub(workspace, latest, has, ready, taking, registered, if done then 1 else 0, offered, got)
    }

    /** `ev` is pending, with its signal queued. */
    ghost predicate Holds(ev: Ev)
      reads this
    {
      has && ready && latest == ev
    }

    /** close(sub.done): closing a closed channel panics. */
    method CloseDone()
      requires !done
      modifies this`done
      ensures done
    {
      done := true;
    }

    /** The store and the signal, under the subscription's own lock and after it. */
    method Deliver(ev: Ev)
      modifies this
      ensures forall r :: Value(r) == Stored(old(Value(r)), ev).(ready := true)
    {
      latest, has := ev, true;
      if !ready { ready := true; }
    }

    /** Consume the signal. */
    method Receive() returns (ok: bool)
      modifies this
      ensures ok == old(ready)
      ensures forall r :: Value(r) == if ok then old(Value(r)).(ready := false, taking := old(taking) + 1) else old(Value(r))
    {
      ok := ready;
      if ok { ready, taking := false, taking + 1; }
    }

    /** Take, by a consumer that has received a signal. */
    method Take() returns (ev: Option<Ev>)
      requires taking > 0
      modifies this
      ensures forall r :: Value(r) == Taken(old(Value(r)).(taking := old(taking) - 1))
      ensures ev == if old(has) then Some(old(latest)) else None
      ensures ev.Some? ==> got == ev
    {
      taking := taking - 1;
      if !has { return None; }
      has, got := false, Some(latest);
      ev := Some(latest);
    }
  }

  type Bus = State<BusSubscription>
  type Step1 = Action<BusSubscription>

  lemma AfterMore(s: Bus, acts: seq<Step1>, a: Step1)
    ensures After(s, acts + [a]) == Step(After(s, acts), a)
  {
    assert (acts + [a])[..|acts|] == acts;
  }

  lemma {:induction false} RunKeepsInv(s: Bus, acts: seq<Step1>)
    requires Inv(s)
    ensures Inv(After(s, acts))
    decreases |acts|
  {
    if acts != [] {
      RunKeepsInv(s, acts[..|acts| - 1]);
      InvStep(After(s, acts[..|acts| - 1]), acts[|acts| - 1]);
    }
  }

  /** A subscription of another workspace is passed over. */
  lemma VisitOther(s: Bus, t: Bus, acts: seq<Step1>, id: BusSubscription)
    requires After(s, acts) == t && t.lock.Publishing? && t.lock.signal.None? && id in t.lock.todo && id in t.subs
    requires t.subs[id].workspace != t.lock.workspace
    ensures After(s, acts + [Store(id)]) == t.(lock := t.lock.(todo := t.lock.todo - {id}))
  {
    AfterMore(s, acts, Store(id));
  }

  /** One of this workspace is stored to, then signalled. */
  lemma VisitOne(s: Bus, t: Bus, acts: seq<Step1>, id: BusSubscription)
    requires After(s, acts) == t && t.lock.Publishing? && t.lock.signal.None? && id in t.lock.todo && id in t.subs
    requires t.subs[id].workspace == t.lock.workspace
    ensures After(s, acts + [Store(id)] + [Signal]) ==
              t.(subs := t.subs[id := Stored(t.subs[id], t.lock.ev).(ready := true)],
                 lock := t.lock.(todo := t.lock.todo - {id}))
  {
    AfterMore(s, acts, Store(id));
    AfterMore(s, acts + [Store(id)], Signal);
    var u := Step(t, Store(id));
    assert u == t.(subs := t.subs[id := Stored(t.subs[id], t.lock.ev)],
                   lock := t.lock.(todo := t.lock.todo - {id}, signal := Some(id)));
    assert Step(u, Signal).subs == t.subs[id := Stored(t.subs[id], t.lock.ev).(ready := true)];
  }

  class EventBus {
    var closed: bool
    var subs: set<BusSubscription>
    ghost var all: set<BusSubscription>

    ghost function View(lock: Lock<BusSubscription>): Bus
      reads this, all
    {
      State(map o | o in all :: o.Value(o in subs), closed, lock)
    }

    /** `acts` lead from `was` to here. */
    ghost predicate At(lock: Lock<BusSubscription>, was: Bus, acts: seq<Step1>)
      reads this, all
    {
      View(lock) == After(was, acts)
    }

    ghost predicate Valid()
      reads this, all
    {
      subs <= all && Inv(View(Free))
    }

    constructor ()
      ensures Valid() && Start(View(Free))
    {
      closed, subs, all := false, {}, {};
    }

    /** Registered subscriptions, and only they, are not done. */
    lemma OpenWhileRegistered(o: BusSubscription)
      requires Valid() && o in all
      ensures o.done <==> o !in subs
      ensures closed ==> o !in subs
    {
      assert Good(View(Free), o);
      assert View(Free).subs[o] == o.Value(o in subs);
    }

    lemma AllOpenWhileRegistered()
      requires Valid()
      ensures forall o :: o in all ==> (o.done <==> o !in subs) && (closed ==> o.done)
    {
      forall o | o in all ensures (o.done <==> o !in subs) && (closed ==> o.done) { OpenWhileRegistered(o); }
    }

    method Subscribe(ws: Name) returns (sub: BusSubscription)
      requires Valid()
      modifies this
      ensures Valid() && fresh(sub) && sub in all
      ensures View(Free) == Step(old(View(Free)), Action.Subscribe(sub, ws))
    {
      sub := new BusSubscription(ws, closed);
      ghost var was := View(Free);
      if !closed { subs := subs + {sub}; }
      all := all + {sub};
      assert View(Free).subs == was.subs[sub := NewSub(ws, closed)];
      InvStep(was, Action.Subscribe(sub, ws));
    }

    method Cancel(sub: BusSubscription)
      requires Valid() && sub in all
      modifies this, sub
      ensures Valid() && sub.done
      ensures View(Free) == Step(old(View(Free)), Action.Cancel(sub))
    {
      ghost var was := View(Free);
      OpenWhileRegistered(sub);
      if sub in subs {
        subs := subs - {sub};
        sub.CloseDone();
      }
      assert View(Free).subs == was.subs[sub := Ended(was.subs[sub])];
      InvStep(was, Action.Cancel(sub));
    }

    method Close()
      requires Valid()
      modifies this, subs
      ensures Valid() && closed && forall o :: o in all ==> o.done
      ensures View(Free) == Step(old(View(Free)), Action.Close)
    {
      ghost var was := View(Free);
      AllOpenWhileRegistered();
      if closed { return; }
      CloseSubs();
      closed, subs := true, {};
      assert View(Free).subs == AllEnded(was.subs);
      InvStep(was, Action.Close);
    }

    method CloseSubs()
      requires subs <= all && forall o :: o in all ==> (o.done <==> o !in subs)
      modifies subs
      ensures forall o :: o in all ==> o.Value(false) == Ended(old(o.Value(o in subs)))
    {
      var todo := subs;
      while todo != {}
        invariant todo <= subs
        invariant forall o :: o in all ==> (o.done <==> o !in todo)
        invariant forall o :: o in all ==> o.Value(false) == old(o.Value(false)).(closes := if o.done then 1 else 0)
      {
        var o :| o in todo;
        o.CloseDone();
        todo := todo - {o};
      }
    }

    /** Publish: under the bus lock, one subscription after another; only those watching `ws`
        are touched. */
    method Publish(ws: Name, ev: Ev) returns (ghost acts: seq<Step1>)
      requires Valid()
      modifies set o | o in subs && o.workspace == ws
      ensures Valid() && View(Free) == After(old(View(Free)), acts)
      ensures |acts| >= 2 && acts[0] == Begin(ws, ev) && acts[|acts| - 1] == Finish
      ensures forall o :: o in subs && o.workspace == ws ==> o.Holds(ev)
    {
      ghost var was := View(Free);
      acts := DeliverAll(ws, ev);
      AfterMore(was, acts, Finish);
      acts := acts + [Finish];
      RunKeepsInv(was, acts);
      assert View(Free) == After(was, acts);
    }

    method DeliverAll(ws: Name, ev: Ev) returns (ghost acts: seq<Step1>)
      requires subs <= all
      modifies set o | o in subs && o.workspace == ws
      ensures At(Publishing(ws, ev, {}, None), old(View(Free)), acts)
      ensures |acts| >= 1 && acts[0] == Begin(ws, ev)
      ensures forall o :: o in subs && o.workspace == ws ==> o.Holds(ev)
    {
      ghost var was := View(Free);
      acts := BeginDelivery(ws, ev);
      var todo := subs;
      while todo != {}
        invariant todo <= subs && |acts| >= 1 && acts[0] == Begin(ws, ev)
        invariant forall o :: o in subs - todo && o.workspace == ws ==> o.Holds(ev)
        invariant At(Publishing(ws, ev, todo, None), was, acts)
      {
        var o :| o in todo;
        ghost var more := Visit(o, ws, ev, todo, was, acts);
        acts := acts + more;
        todo := todo - {o};
      }
    }

    /** Nothing is delivered yet; the event counts as published. */
    ghost method BeginDelivery(ws: Name, ev: Ev) returns (acts: seq<Step1>)
      requires subs <= all
      modifies set o | o in subs && o.workspace == ws
      ensures acts == [Begin(ws, ev)]
      ensures At(Publishing(ws, ev, subs, None), old(View(Free)), acts)
    {
      ghost var was := View(Free);
      forall o | o in subs && o.workspace == ws { o.offered := o.offered + [ev]; }
      acts := [Begin(ws, ev)];
      assert Registered(was.subs) == subs;
      assert View(Free).subs == AllOffered(was.subs, ws, ev);
      AfterMore(was, [], acts[0]);
      assert [] + [acts[0]] == acts;
    }

    /** One turn of Publish's loop. */
    method Visit(o: BusSubscription, ws: Name, ev: Ev, ghost todo: set<BusSubscription>, ghost was: Bus, ghost acts: seq<Step1>)
      returns (ghost more: seq<Step1>)
      requires o in todo && todo <= subs <= all
      requires At(Publishing(ws, ev, todo, None), was, acts)
      modifies if o.workspace == ws then {o} else {}
      ensures At(Publishing(ws, ev, todo - {o}, None), was, acts + more)
      ensures o.workspace == ws ==> o.Holds(ev)
    {
      ghost var t := View(Publishing(ws, ev, todo, None));
      assert t.subs[o].workspace == o.workspace;
      if o.workspace == ws {
        VisitOne(was, t, acts, o);
        o.Deliver(ev);
        more := [Store(o), Signal];
        assert acts + more == acts + [Store(o)] + [Signal];
        assert View(Free).subs == t.subs[o := Stored(t.subs[o], ev).(ready := true)];
      } else {
        VisitOther(was, t, acts, o);
        more := [Store(o)];
      }
    }
  }
}
