/** The invariant of the protocol is kept by every step of the two chains. */
module WorldProtocol {
  import opened Common
  import C = Client
  import S = Service
  import opened ServiceLog
  import opened World

  lemma WorkedStays(w: World, w': World, d: AccountId, order: Order)
    requires LogGrows(w.service, w'.service) && w'.home == w.home
    requires Worked(w, d, order)
    ensures Worked(w', d, order)
  {
    var j :| Is(w.service.log, j, d, S.Completed) && CompletedOn(w, j, order);
    assert w'.service.log[j] == w.service.log[..|w.service.log|][j];
    assert Is(w'.service.log, j, d, S.Completed) && CompletedOn(w', j, order);
  }

  lemma MatchesStays(w: World, w': World, m: Message, d: AccountId, order: Order)
    requires LogGrows(w.service, w'.service) && w'.home == w.home
    requires Matches(w, m, d, order)
    ensures Matches(w', m, d, order)
  {
    if m.OrderDone? {
      WorkedStays(w, w', d, order);
    }
  }

  /** Nothing that matters to d has changed, except perhaps that its order is gone on the client chain. */
  ghost predicate Untouched(w: World, w': World, d: AccountId) {
    && (forall t :: Flying(w', t, d) ==> Flying(w, t, d) && w'.net[t] == w.net[t])
    && (Stored(w', d) ==> Stored(w, d) && w'.service.orders[d] == w.service.orders[d])
    && (BusyThere(w, d) ==> BusyThere(w', d))
    && (d in w'.client.orders ==> d in w.client.orders && w'.client.orders[d] == w.client.orders[d])
  }

  lemma KeptUntouched(w: World, w': World, d: AccountId)
    requires LogGrows(w.service, w'.service) && w'.home == w.home
    requires Kept(w, d) && Untouched(w, w', d)
    ensures Kept(w', d)
  {
    forall t | Flying(w', t, d) && d in w'.client.orders
      ensures Matches(w', w'.net[t], d, w'.client.orders[d])
    {
      MatchesStays(w, w', w.net[t], d, w.client.orders[d]);
    }
  }

  /** Taking a message off the net keeps the protocol, and leaves its device with nothing outstanding. */
  lemma TakenOff(w: World, t: nat)
    requires Protocol(w) && t in w.net
    ensures var w1 := w.(net := w.net - {t});
            && Protocol(w1)
            && forall d :: Concerns(w.net[t], d) ==>
                 && Clear(w1, d) && BusyThere(w1, d)
                 && (d in w1.client.orders ==> Matches(w1, w.net[t], d, w1.client.orders[d]))
  {
    var w1 := w.(net := w.net - {t});
    forall d ensures Kept(w1, d) {
      assert Kept(w, d);
      KeptUntouched(w, w1, d);
    }
    forall d | Concerns(w.net[t], d)
      ensures Clear(w1, d) && BusyThere(w1, d)
      ensures d in w1.client.orders ==> Matches(w1, w.net[t], d, w1.client.orders[d])
    {
      assert Kept(w, d) && Flying(w, t, d);
      assert forall u :: Flying(w1, u, d) ==> Flying(w, u, d) && u != t;
      if d in w1.client.orders {
        MatchesStays(w, w1, w.net[t], d, w1.client.orders[d]);
      }
    }
  }

  // ----- Steps on the service chain --------------------------------------------------------------

  lemma ServiceKeepsProtocol(w: World, call: S.Call)
    requires Protocol(w)
    requires call.Receive? ==> call.sender != w.home
    ensures Protocol(ServiceDoes(w, call))
  {
    ServiceCallKeeps(w.service, call, w.home);
    ServiceMoves(w, S.Serve(w.service, call));
  }

  lemma ServiceMoves(w: World, reply: S.Reply)
    requires Protocol(w) && ServiceKeeps(w.service, reply, w.home)
    ensures Protocol(Route(w.(service := reply.chain), reply.sent, w.home))
  {
    var w' := Route(w.(service := reply.chain), reply.sent, w.home);
    forall d ensures Kept(w', d) {
      assert Kept(w, d);
      if Flying(w', w.next, d) {
        assert FinalWord(w.service, reply.chain, w'.net[w.next], w.home);
        WordSent(w, w', d);
      } else {
        assert Untouched(w, w', d);
        KeptUntouched(w, w', d);
      }
    }
  }

  lemma WordSent(w: World, w': World, d: AccountId)
    requires Protocol(w) && w'.client == w.client && w'.home == w.home
    requires w.next in w'.net && Concerns(w'.net[w.next], d)
    requires w'.net == w.net[w.next := w'.net[w.next]]
    requires FinalWord(w.service, w'.service, w'.net[w.next], w.home)
    ensures Kept(w', d)
  {
    assert Kept(w, d) && Stored(w, d);
    assert forall t :: Flying(w', t, d) ==> t == w.next || Flying(w, t, d);
    if w'.net[w.next].OrderDone? && d in w.client.orders {
      var j := |w'.service.log| - 1;
      assert Is(w'.service.log, j, d, S.Completed) && CompletedOn(w', j, w.client.orders[d]);
    }
  }

  /** A new order that arrives from the client chain takes the place of its message. */
  lemma ArrivalKeepsProtocol(w: World, m: Message, answer: Answer, reach: bool)
    requires Protocol(w) && m.NewOrder?
    requires var d := m.order.device;
             && Clear(w, d) && BusyThere(w, d)
             && (d in w.client.orders ==> Matches(w, m, d, w.client.orders[d]))
    ensures Protocol(ServiceDoes(w, S.Receive(w.home, m, answer, reach)))
  {
    var b := m.order;
    var order := Order(b.until, b.data, b.fee, m.client, w.home);
    var w' := ServiceDoes(w, S.Receive(w.home, m, answer, reach));
    ReceiptKeeps(w.service, order, b.device, answer, reach);
    forall d ensures Kept(w', d) {
      assert Kept(w, d);
      assert forall t :: Flying(w', t, d) ==> Flying(w, t, d) && w'.net[t] == w.net[t];
      if d == b.device && d !in w.service.orders && d in w'.service.orders {
        assert w'.service.orders[d] == order;
      } else {
        assert Untouched(w, w', d);
        KeptUntouched(w, w', d);
      }
    }
  }

  // ----- Steps on the client chain ---------------------------------------------------------------

  /** The device of a new order was ready, so nothing was outstanding for it. */
  lemma ReadyIsClear(w: World, d: AccountId)
    requires Protocol(w) && !BusyThere(w, d)
    ensures Clear(w, d)
  {
    assert Kept(w, d);
  }

  /** What a placement leaves: nothing, an order not sent, or an order sent and its device busy. */
  predicate PlacementLeaves(s: C.Chain, who: AccountId, base: OrderBase, reply: C.Reply) {
    var s' := reply.chain;
    var d := base.device;
    && d !in s.orders && d in s.devices && s.devices[d].state == Ready
    && (s'.orders == s.orders || s'.orders == s.orders[d := base.Convert(who)])
    && (reply.sent == None ==> s'.devices == s.devices)
    && (reply.sent.Some? ==>
          && s'.orders == s.orders[d := base.Convert(who)]
          && s'.devices == s.devices[d := s.devices[d].(state := Busy)]
          && reply.sent.value.message == NewOrder(who, ConvertBack(base.Convert(who), d)))
  }

  lemma PlacementLeft(s: C.Chain, who: AccountId, base: OrderBase, reach: bool)
    requires C.Refusal(s, base) == None
    ensures PlacementLeaves(s, who, base, C.PlaceCall(s, who, base, reach))
  {
  }

  /** An order is sent for d0, for which nothing is outstanding, or nothing is sent; other devices stay. */
  lemma PlacementMoves(w: World, d0: AccountId, s': C.Chain, sent: Option<Envelope>)
    requires Protocol(w) && Clear(w, d0)
    requires forall d :: d != d0 && d in s'.orders ==> d in w.client.orders && s'.orders[d] == w.client.orders[d]
    requires forall d :: d != d0 && d in w.client.devices ==> d in s'.devices && s'.devices[d] == w.client.devices[d]
    requires sent.Some? ==>
               && d0 in s'.orders && d0 in s'.devices && s'.devices[d0].state == Busy
               && sent.value.message == NewOrder(s'.orders[d0].client, ConvertBack(s'.orders[d0], d0))
    ensures Protocol(Route(w.(client := s'), sent, w.service.self))
  {
    var w' := Route(w.(client := s'), sent, w.service.self);
    forall d ensures Kept(w', d) {
      assert Kept(w, d);
      if d == d0 {
        assert forall t :: Flying(w', t, d) ==> t == w.next || Flying(w, t, d);
      } else {
        assert Untouched(w, w', d);
        KeptUntouched(w, w', d);
      }
    }
  }

  /** The device that a call other than a placement may set. */
  function About(call: C.Call): AccountId {
    match call
    case PlaceOrder(_, base, _) => base.device
    case Cancel(_, d) => d
    case Register(who, _, _, _, _) => who
    case Receive(NewOrder(_, _)) => 0
    case Receive(m) => m.device
    case Tick(_) => 0
  }

  /** The call can change a device: it is an admitted registration, or a final word. */
  predicate SetsDevice(s: C.Chain, call: C.Call) {
    || (call.Register? && call.who !in s.orders)
    || (call.Receive? && (call.message.OrderReject? || call.message.OrderDone?))
  }

  /** A call that is not a placement sends nothing and makes no order. */
  lemma QuietCall(s: C.Chain, call: C.Call)
    requires !call.PlaceOrder?
    ensures var reply := C.Serve(s, call);
            && reply.sent == None
            && (forall d :: d in reply.chain.orders ==> d in s.orders && reply.chain.orders[d] == s.orders[d])
            && (forall d :: d != About(call) && d in s.devices ==>
                  d in reply.chain.devices && reply.chain.devices[d] == s.devices[d])
            && (!SetsDevice(s, call) ==> reply.chain.devices == s.devices)
  {
    if call.Cancel? && call.device in s.devices {
      assert s.devices[call.device := s.devices[call.device]] == s.devices;
    }
  }

  /** A change that makes no order, and sets no device but perhaps d0 from busy, for which nothing is
      outstanding. */
  lemma QuietClientKeeps(w: World, s': C.Chain, d0: AccountId)
    requires Protocol(w)
    requires forall d :: d in s'.orders ==> d in w.client.orders && s'.orders[d] == w.client.orders[d]
    requires forall d :: d != d0 && d in w.client.devices ==> d in s'.devices && s'.devices[d] == w.client.devices[d]
    requires Clear(w, d0) || s'.devices == w.client.devices
    ensures Protocol(w.(client := s'))
  {
    var w' := w.(client := s');
    forall d ensures Kept(w', d) {
      assert Kept(w, d);
      assert forall t :: Flying(w', t, d) <==> Flying(w, t, d);
      if d == d0 && Clear(w, d0) {
      } else {
        KeptUntouched(w, w', d);
      }
    }
  }

  lemma ClientKeepsProtocol(w: World, call: C.Call)
    requires Protocol(w)
    requires SetsDevice(w.client, call) ==> Clear(w, About(call))
    ensures Protocol(ClientDoes(w, call))
  {
    var reply := C.Serve(w.client, call);
    if !call.PlaceOrder? {
      QuietCall(w.client, call);
      QuietClientKeeps(w, reply.chain, About(call));
    } else if C.Refusal(w.client, call.base) == None {
      PlacementLeft(w.client, call.who, call.base, call.reach);
      ReadyIsClear(w, call.base.device);
      PlacementMoves(w, call.base.device, reply.chain, reply.sent);
    }
  }

  // ----- All steps -------------------------------------------------------------------------------

  /** Under hypothesis H every possible step keeps the protocol. */
  lemma ProtocolKept(w: World, step: Step)
    requires Protocol(w) && Possible(w, step) && Restrained(w, step)
    ensures Protocol(Apply(w, step))
  {
    match step
    case AtClient(call) => ClientKeepsProtocol(w, call);
    case AtService(call) => ServiceKeepsProtocol(w, call);
    case Deliver(t, answer, reach) =>
      TakenOff(w, t);
      var m := w.net[t];
      var w1 := w.(net := w.net - {t});
      if m.NewOrder? {
        assert Concerns(m, m.order.device);
        ArrivalKeepsProtocol(w1, m, answer, reach);
      } else {
        assert !m.OrderAccept? ==> Concerns(m, m.device);
        ClientKeepsProtocol(w1, C.Receive(m));
      }
    case Lose(t) => TakenOff(w, t);
  }

  /** Hypothesis H is not too strong: a registration that the pallet lets through keeps the protocol if and
      only if nothing is outstanding for the device. */
  lemma RegistrationIff(w: World, call: C.Call)
    requires Protocol(w) && call.Register? && call.who !in w.client.orders
    ensures Protocol(Apply(w, AtClient(call))) <==> Clear(w, call.who)
  {
    var w' := Apply(w, AtClient(call));
    if Clear(w, call.who) {
      ClientKeepsProtocol(w, call);
    } else {
      assert !BusyThere(w', call.who);
      assert Stored(w', call.who) <==> Stored(w, call.who);
      assert forall t :: Flying(w, t, call.who) ==> Flying(w', t, call.who);
      assert !Kept(w', call.who);
    }
  }
}
