/** What becomes of the work that the service chain has completed: under hypothesis H it is paid, unless its
    client has cancelled the very order, or an account to be credited does not exist. */
module WorldOutcome {
  import opened Common
  import opened Ledger
  import opened Escrow
  import C = Client
  import CL = ClientLedger
  import S = Service
  import opened World
  import opened WorldProtocol
  import opened WorldTheorems

  /** For each device the last order that the run has had open for it on the client chain. */
  function LastOrders(w0: World, steps: seq<Step>): map<AccountId, Order>
    decreases |steps|
  {
    (if steps == [] then map[] else LastOrders(w0, steps[..|steps| - 1])) + Exec(w0, steps).client.orders
  }

  /** The world as it would be if no order were ever taken out of the client chain's storage. */
  function Shadow(w: World, last: map<AccountId, Order>): World {
    w.(client := w.client.(orders := last))
  }

  predicate Remembers(last: map<AccountId, Order>, w: World) {
    forall d :: d in w.client.orders ==> d in last && last[d] == w.client.orders[d]
  }

  // ----- The protocol speaks of the last order even when it is gone ---------------------------------

  lemma QuietShadow(w: World, last: map<AccountId, Order>, call: C.Call)
    requires Protocol(Shadow(w, last)) && Remembers(last, w) && !call.PlaceOrder?
    requires SetsDevice(w.client, call) ==> Clear(w, About(call))
    ensures var w' := ClientDoes(w, call);
            last + w'.client.orders == last && Protocol(Shadow(w', last))
  {
    QuietCall(w.client, call);
    var s' := C.Serve(w.client, call).chain;
    assert last + s'.orders == last;
    if Clear(w, About(call)) {
      assert Clear(Shadow(w, last), About(call)) by {
        assert forall t :: Flying(Shadow(w, last), t, About(call)) <==> Flying(w, t, About(call));
      }
    }
    QuietClientKeeps(Shadow(w, last), s'.(orders := last), About(call));
  }

  lemma PlacementShadow(w: World, last: map<AccountId, Order>, call: C.Call)
    requires Protocol(w) && Protocol(Shadow(w, last)) && Remembers(last, w) && call.PlaceOrder?
    ensures var w' := ClientDoes(w, call);
            Protocol(Shadow(w', last + w'.client.orders))
  {
    var reply := C.Serve(w.client, call);
    var last' := last + reply.chain.orders;
    if C.Refusal(w.client, call.base) == None {
      PlacementLeft(w.client, call.who, call.base, call.reach);
      PlacedShadow(w, last, call.who, call.base, reply);
    } else {
      assert last' == last;
    }
  }

  lemma PlacedShadow(w: World, last: map<AccountId, Order>, who: AccountId, base: OrderBase, reply: C.Reply)
    requires Protocol(w) && Protocol(Shadow(w, last)) && Remembers(last, w)
    requires PlacementLeaves(w.client, who, base, reply)
    ensures Protocol(Shadow(Route(w.(client := reply.chain), reply.sent, w.service.self), last + reply.chain.orders))
  {
    var d := base.device;
    var last' := last + reply.chain.orders;
    ReadyIsClear(w, d);
    assert Clear(Shadow(w, last), d) by {
      assert forall t :: Flying(Shadow(w, last), t, d) <==> Flying(w, t, d);
    }
    PlacementMoves(Shadow(w, last), d, reply.chain.(orders := last'), reply.sent);
  }

  /** Under H every step keeps the protocol for the last orders too. */
  lemma ShadowKept(w: World, last: map<AccountId, Order>, step: Step)
    requires Protocol(w) && Protocol(Shadow(w, last)) && Remembers(last, w)
    requires Possible(w, step) && Restrained(w, step)
    ensures Protocol(Shadow(Apply(w, step), last + Apply(w, step).client.orders))
  {
    match step
    case AtClient(call) =>
      if call.PlaceOrder? {
        PlacementShadow(w, last, call);
      } else {
        QuietShadow(w, last, call);
      }
    case AtService(call) =>
      assert last + w.client.orders == last;
      ServiceKeepsProtocol(Shadow(w, last), call);
    case Deliver(t, answer, reach) => DeliveryShadow(w, last, t, answer, reach);
    case Lose(t) =>
      assert last + w.client.orders == last;
      TakenOff(Shadow(w, last), t);
  }

  lemma DeliveryShadow(w: World, last: map<AccountId, Order>, t: nat, answer: Answer, reach: bool)
    requires Protocol(w) && Protocol(Shadow(w, last)) && Remembers(last, w) && t in w.net
    ensures var w' := Apply(w, Deliver(t, answer, reach));
            Protocol(Shadow(w', last + w'.client.orders))
  {
    TakenOff(w, t);
    TakenOff(Shadow(w, last), t);
    var m := w.net[t];
    var w1 := w.(net := w.net - {t});
    assert Shadow(w, last).(net := w.net - {t}) == Shadow(w1, last);
    if m.NewOrder? {
      assert Concerns(m, m.order.device);
      ArrivalShadow(w1, last, m, answer, reach);
    } else {
      assert !m.OrderAccept? ==> Concerns(m, m.device);
      QuietShadow(w1, last, C.Receive(m));
    }
  }

  lemma ArrivalShadow(w: World, last: map<AccountId, Order>, m: Message, answer: Answer, reach: bool)
    requires Protocol(Shadow(w, last)) && Remembers(last, w) && m.NewOrder?
    requires var d := m.order.device;
             && Clear(Shadow(w, last), d) && BusyThere(w, d)
             && (d in last ==> Matches(Shadow(w, last), m, d, last[d]))
    ensures var w' := ServiceDoes(w, S.Receive(w.home, m, answer, reach));
            Protocol(Shadow(w', last + w'.client.orders))
  {
    assert last + w.client.orders == last;
    ArrivalKeepsProtocol(Shadow(w, last), m, answer, reach);
  }

  // ----- How an order is gone while something is outstanding for it -----------------------------------

  ghost predicate Outstanding(w: World, d: AccountId) {
    !Clear(w, d)
  }

  /** No order is open for d on the client chain after each of the steps from the n-th on. */
  predicate ClosedThroughout(w0: World, steps: seq<Step>, n: nat, d: AccountId)
    decreases |steps|
  {
    && n <= |steps|
    && d !in Exec(w0, steps).client.orders
    && (n < |steps| ==> ClosedThroughout(w0, steps[..|steps| - 1], n, d))
  }

  /** Step n of the run is the cancel of this order by its client, at or after its deadline, and no order has
      been open for d since. */
  ghost predicate CancelledAt(w0: World, steps: seq<Step>, n: nat, d: AccountId, order: Order) {
    && n < |steps|
    && steps[n] == AtClient(C.Cancel(order.client, d))
    && var c := Exec(w0, steps[..n]).client;
       && d in c.orders && c.orders[d] == order
       && order.until <= c.now
       && ClosedThroughout(w0, steps, n + 1, d)
  }

  lemma CancelledStays(w0: World, steps: seq<Step>, n: nat, d: AccountId, order: Order)
    requires steps != []
    requires CancelledAt(w0, steps[..|steps| - 1], n, d, order) && d !in Exec(w0, steps).client.orders
    ensures CancelledAt(w0, steps, n, d, order)
  {
    assert steps[..|steps| - 1][..n] == steps[..n];
  }

  /** Only a placement, which files a new order, makes something outstanding. */
  lemma OutstandingBefore(w: World, step: Step, d: AccountId)
    requires Protocol(w) && Possible(w, step)
    requires Outstanding(Apply(w, step), d)
    requires d in w.client.orders || d !in Apply(w, step).client.orders
    ensures Outstanding(w, d)
  {
    match step
    case AtClient(call) => ClientOutstanding(w, call, d);
    case AtService(call) => ServiceOutstanding(w, call, d);
    case Deliver(t, answer, reach) =>
      var m := w.net[t];
      var w1 := w.(net := w.net - {t});
      assert forall u :: Flying(w1, u, d) ==> Flying(w, u, d);
      assert Concerns(m, d) ==> Flying(w, t, d);
      if m.NewOrder? {
        ArrivalOutstanding(w1, m, answer, reach, d);
      } else {
        ClientOutstanding(w1, C.Receive(m), d);
      }
    case Lose(t) =>
      assert forall u :: Flying(Apply(w, step), u, d) ==> Flying(w, u, d);
  }

  lemma ClientOutstanding(w: World, call: C.Call, d: AccountId)
    requires Outstanding(ClientDoes(w, call), d)
    requires d in w.client.orders || d !in ClientDoes(w, call).client.orders
    ensures Outstanding(w, d)
  {
    var w' := ClientDoes(w, call);
    if !call.PlaceOrder? {
      QuietCall(w.client, call);
    } else if C.Refusal(w.client, call.base) == None {
      PlacementLeft(w.client, call.who, call.base, call.reach);
    }
    assert forall t :: Flying(w', t, d) ==> Flying(w, t, d);
  }

  lemma ServiceOutstanding(w: World, call: S.Call, d: AccountId)
    requires w.home != w.service.self
    requires call.Receive? ==> call.sender != w.home
    requires Outstanding(ServiceDoes(w, call), d)
    ensures Outstanding(w, d)
  {
    ServiceCallKeeps(w.service, call, w.home);
    var w' := ServiceDoes(w, call);
    assert Stored(w', d) ==> Stored(w, d);
    if !Stored(w, d) {
      assert forall t :: Flying(w', t, d) ==> Flying(w, t, d);
    }
  }

  lemma ArrivalOutstanding(w: World, m: Message, answer: Answer, reach: bool, d: AccountId)
    requires m.NewOrder?
    requires Outstanding(ServiceDoes(w, S.Receive(w.home, m, answer, reach)), d)
    ensures Outstanding(w, d) || Concerns(m, d)
  {
    var b := m.order;
    ReceiptKeeps(w.service, Order(b.until, b.data, b.fee, m.client, w.home), b.device, answer, reach);
    var w' := ServiceDoes(w, S.Receive(w.home, m, answer, reach));
    assert forall t :: Flying(w', t, d) ==> Flying(w, t, d);
  }

  /** While something is outstanding for d, its order goes only by its client's cancel. */
  lemma OnlyCancelCloses(w: World, step: Step, d: AccountId)
    requires Protocol(w) && Possible(w, step)
    requires d in w.client.orders && d !in Apply(w, step).client.orders && Outstanding(Apply(w, step), d)
    ensures step == AtClient(C.Cancel(w.client.orders[d].client, d)) && w.client.orders[d].until <= w.client.now
  {
    ClientAfter(w, step);
    if step.Deliver? {
      var m := w.net[step.ticket];
      var w1 := w.(net := w.net - {step.ticket});
      TakenOff(w, step.ticket);
      assert Concerns(m, d);
      ClientOutstanding(w1, C.Receive(m), d);
    } else if step.ccall.PlaceOrder? && C.Refusal(w.client, step.ccall.base) == None {
      PlacementLeft(w.client, step.ccall.who, step.ccall.base, step.ccall.reach);
    }
  }

  /** What is outstanding for d is about the last order open for d; and that order is open, or was cancelled by
      its client. */
  ghost predicate Traced(w0: World, steps: seq<Step>, d: AccountId) {
    Outstanding(Exec(w0, steps), d) ==>
      && d in LastOrders(w0, steps)
      && (d in Exec(w0, steps).client.orders || exists n :: CancelledAt(w0, steps, n, d, LastOrders(w0, steps)[d]))
  }

  lemma TraceGoesOn(w0: World, before: seq<Step>, steps: seq<Step>, d: AccountId)
    requires steps != [] && before == steps[..|steps| - 1]
    requires Protocol(Exec(w0, before)) && Possible(Exec(w0, before), steps[|steps| - 1])
    requires Remembers(LastOrders(w0, before), Exec(w0, before))
    requires Traced(w0, before, d)
    ensures Traced(w0, steps, d)
  {
    var w, step := Exec(w0, before), steps[|steps| - 1];
    if Outstanding(Exec(w0, steps), d) && d !in Exec(w0, steps).client.orders {
      OutstandingBefore(w, step, d);
      var order := LastOrders(w0, before)[d];
      assert LastOrders(w0, steps)[d] == order;
      if d in w.client.orders {
        OnlyCancelCloses(w, step, d);
        assert CancelledAt(w0, steps, |before|, d, order);
      } else {
        var n :| CancelledAt(w0, before, n, d, order);
        CancelledStays(w0, steps, n, d, order);
      }
    }
  }

  lemma {:induction false} LastIsKept(w0: World, steps: seq<Step>)
    requires Genesis(w0) && Lawful(w0, steps)
    ensures Protocol(Shadow(Exec(w0, steps), LastOrders(w0, steps)))
    ensures Remembers(LastOrders(w0, steps), Exec(w0, steps))
    ensures forall d :: Traced(w0, steps, d)
    decreases |steps|
  {
    Always(w0, steps);
    if steps == [] {
      assert Shadow(w0, LastOrders(w0, [])) == w0;
      forall d ensures Traced(w0, [], d) {
        assert forall t :: !Flying(w0, t, d);
      }
    } else {
      var before := steps[..|steps| - 1];
      LastIsKept(w0, before);
      Always(w0, before);
      ShadowKept(Exec(w0, before), LastOrders(w0, before), steps[|steps| - 1]);
      forall d ensures Traced(w0, steps, d) {
        TraceGoesOn(w0, before, steps, d);
      }
    }
  }

  // ----- Work is paid ----------------------------------------------------------------------------------

  /** The order for d is open, and an account that its completion has to credit does not exist. */
  predicate CannotBePaid(c: C.Chain, d: AccountId) {
    && d in c.orders && d in c.devices
    && var o := c.orders[d];
       Uncreditable(c.accounts, d, o.client, o.fee, c.devices[d].penalty, c.now >= o.until)
  }

  /** Work is paid. A completion that can be delivered stands for work on the last order open for the device,
      which the service chain can show. Delivered, it has an effect on the client chain, unless the client
      has cancelled that very order at or after its deadline, or an account to be credited does not exist;
      and then it has none. */
  lemma WorkIsPaid(w0: World, steps: seq<Step>, t: nat, answer: Answer, reach: bool)
      returns (order: Order, n: nat, i: nat, j: nat)
    requires Genesis(w0) && Lawful(w0, steps)
    requires var w := Exec(w0, steps); t in w.net && w.net[t].OrderDone?
    ensures var w := Exec(w0, steps);
            var d := w.net[t].device;
            && w.net[t].client == order.client
            && WorkShown(w.service.log, i, j, d, order, w.home)
            && (d in w.client.orders ==> w.client.orders[d] == order)
            && (d !in w.client.orders ==> CancelledAt(w0, steps, n, d, order))
            && (Pays(w, Deliver(t, answer, reach), d) <==> d in w.client.orders && !CannotBePaid(w.client, d))
  {
    var w := Exec(w0, steps);
    var d := w.net[t].device;
    var last := LastOrders(w0, steps);
    LastIsKept(w0, steps);
    Always(w0, steps);
    assert Traced(w0, steps, d) && Flying(w, t, d);
    order, n := last[d], 0;
    if d !in w.client.orders {
      n :| CancelledAt(w0, steps, n, d, order);
    }
    i, j := WorkOf(Shadow(w, last), t);
    ClientConservation(w0, steps);
    ClientShape(w0, steps);
    EffectIff(w, t, answer, reach);
  }

  lemma EffectIff(w: World, t: nat, answer: Answer, reach: bool)
    requires Issuance(w.client.accounts) < U128 && CL.Shape(w.client)
    requires t in w.net && w.net[t].OrderDone?
    requires var d := w.net[t].device; d in w.client.orders ==> w.client.orders[d].client == w.net[t].client
    ensures var d := w.net[t].device;
            Pays(w, Deliver(t, answer, reach), d) <==> d in w.client.orders && !CannotBePaid(w.client, d)
  {
    var d := w.net[t].device;
    ClientAfter(w, Deliver(t, answer, reach));
    if d in w.client.orders {
      var o := w.client.orders[d];
      PayFails(w.client.accounts, d, o.client, o.fee, w.client.devices[d].penalty, w.client.now >= o.until);
    }
  }
}
