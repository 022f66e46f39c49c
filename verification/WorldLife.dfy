/** The life of an order between the two chains: placed on the client chain, taken, accepted and completed or
    rejected on the service chain, and settled on the client chain, at whatever times the clocks allow. */
module WorldLife {
  import opened Common
  import opened Ledger
  import opened Escrow
  import C = Client
  import CL = ClientLedger
  import CC = ClientCalls
  import S = Service
  import SC = ServiceCalls
  import SL = ServiceLedger
  import opened ServiceLife
  import opened World

  /** Both chains know the device as ready for this order, the service chain is the device's, and the parties can
      afford the order on the client chain. */
  ghost predicate CanHire(w: World, who: AccountId, base: OrderBase) {
    var d := base.device;
    && Issuance(w.client.accounts) < U128 && SL.Inv(w.service)
    && w.home != w.service.self && w.next !in w.net
    && CC.Hireable(w.client, d, base.until)
    && w.client.devices[d].paraid == w.service.self
    && Affordable(w.client.accounts, d, who, base.fee, w.client.devices[d].penalty)
    && SC.Hireable(w.service, d, base.until)
  }

  /** The client chain has the order open on reserve, at time t; nothing else there has changed. */
  ghost predicate OrderOpen(c: C.Chain, c': C.Chain, who: AccountId, base: OrderBase, t: Moment)
    requires base.device in c.devices
  {
    var d, dev := base.device, c.devices[base.device];
    && Issuance(c'.accounts) < U128
    && c' == c.(orders := c.orders[d := Order(base.until, base.data, base.fee, who, 0)],
                devices := c.devices[d := C.Device(Busy, dev.penalty, dev.wcd, dev.paraid)],
                events := c.events + [C.Placed(who, d)],
                accounts := c'.accounts, now := t)
    && PutOnReserve(c.accounts, c'.accounts, d, who, base.fee, dev.penalty)
  }

  /** The service chain has the order from the client chain, its device in this state. */
  ghost predicate OrderHeld(w: World, who: AccountId, base: OrderBase, state: DeviceState) {
    var d, s := base.device, w.service;
    && SL.Inv(s) && w.home != s.self
    && d in s.orders && s.orders[d] == Order(base.until, base.data, base.fee, who, w.home)
    && d in s.devices && s.devices[d].state == state
  }

  lemma Placing(w: World, who: AccountId, base: OrderBase)
    requires CanHire(w, who, base)
    ensures var w' := Apply(w, AtClient(C.PlaceOrder(who, base, true)));
            && OrderOpen(w.client, w'.client, who, base, w.client.now)
            && w' == w.(client := w'.client, net := w.net[w.next := NewOrder(who, base)], next := w.next + 1)
  {
    CC.PlacementIff(w.client, who, base, true);
    CL.Conserves(w.client, C.PlaceOrder(who, base, true));
  }

  lemma Arriving(w: World, t: nat, who: AccountId, base: OrderBase, reach: bool)
    requires SL.Inv(w.service) && w.home != w.service.self
    requires t in w.net && w.net[t] == NewOrder(who, base)
    requires SC.Hireable(w.service, base.device, base.until)
    ensures var w' := Apply(w, Deliver(t, Some(Busy), reach));
            && w' == w.(service := w'.service, net := w.net - {t})
            && OrderHeld(w', who, base, Busy) && w'.service.now == w.service.now
  {
    SC.ArrivalIff(w.service, w.home, who, base, Some(Busy), reach);
    SL.InvKept(w.service, S.Receive(w.home, w.net[t], Some(Busy), reach));
  }

  lemma Waiting(w: World, who: AccountId, base: OrderBase, state: DeviceState, t: Moment)
    requires OrderHeld(w, who, base, state) && w.service.now <= t
    ensures var w' := Apply(w, AtService(S.Tick(t)));
            && w' == w.(service := w.service.(now := t))
            && OrderHeld(w', who, base, state)
  {
    SL.InvKept(w.service, S.Tick(t));
  }

  lemma Accepting(w: World, who: AccountId, base: OrderBase, reach: bool)
    requires OrderHeld(w, who, base, Busy) && w.service.now < base.until
    ensures var w' := Apply(w, AtService(S.Accept(base.device, false, true, reach)));
            && w'.client == w.client && w'.home == w.home
            && OrderHeld(w', who, base, Busy2) && w'.service.now == w.service.now
  {
    var call := S.Accept(base.device, false, true, reach);
    SC.AcceptIff(w.service, base.device, true, reach);
    SL.InvKept(w.service, call);
  }

  /** The final word of the service chain is on its way, and the service chain is done with the order. */
  ghost predicate Spoken(w: World, w': World, d: AccountId, onoff: bool, m: Message) {
    && w'.client == w.client && w'.home == w.home
    && w.next in w'.net && w'.net[w.next] == m
    && d !in w'.service.orders
    && d in w'.service.devices && w'.service.devices[d].state == (if onoff then Ready else Off)
  }

  lemma Completing(w: World, who: AccountId, base: OrderBase, onoff: bool)
    requires OrderHeld(w, who, base, Busy2)
    ensures Spoken(w, Apply(w, AtService(S.Done(base.device, onoff, true))), base.device, onoff,
                   OrderDone(who, base.device, onoff))
  {
    SC.DoneIff(w.service, base.device, onoff, true);
  }

  lemma Rejecting(w: World, who: AccountId, base: OrderBase, state: DeviceState, onoff: bool)
    requires OrderHeld(w, who, base, state) && (state == Busy || state == Busy2)
    ensures Spoken(w, Apply(w, AtService(S.Accept(base.device, true, onoff, true))), base.device, onoff,
                   OrderReject(who, base.device, onoff))
  {
    SC.RejectIff(w.service, base.device, onoff, true);
  }

  /** The order is over on the client chain: storage and reserves are as before, the device is on or off as it
      said, and money has changed hands as on a single chain. */
  ghost predicate Over(c: C.Chain, c': C.Chain, d: AccountId, onoff: bool, events: seq<C.Event>,
                       client: AccountId, earned: Balance, forfeit: Balance)
    requires d in c.devices
  {
    var dev := c.devices[d];
    && c'.orders == c.orders
    && c'.devices == c.devices[d := C.Device(if onoff then Ready else Off, dev.penalty, dev.wcd, dev.paraid)]
    && c'.events == c.events + events
    && forall a :: Reserved(c'.accounts, a) == Reserved(c.accounts, a)
                && Free(c'.accounts, a) == Free(c.accounts, a) + Gain(d, client, earned, forfeit, a)
  }

  lemma OpenHolds(c: C.Chain, c': C.Chain, who: AccountId, base: OrderBase, t: Moment)
    requires base.device in c.devices && OrderOpen(c, c', who, base, t)
    ensures base.device in CL.Deals(c') && Holds(c'.accounts, base.device, CL.Deals(c')[base.device])
  {
    var d := base.device;
    var deal := CL.Deals(c')[d];
    forall a ensures Reserved(c'.accounts, a) >= Share(d, deal, a) {
      assert Reserved(c'.accounts, a) == Reserved(c.accounts, a)
             + ((if a == who then base.fee else 0) + (if a == d then c.devices[d].penalty else 0));
    }
  }

  lemma HeldIsPayable(c: C.Chain, who: AccountId, d: AccountId, onoff: bool)
    requires Issuance(c.accounts) < U128
    requires d in CL.Deals(c) && Holds(c.accounts, d, CL.Deals(c)[d]) && who == c.orders[d].client
    ensures var reply := C.Serve(c, C.Receive(OrderDone(who, d, onoff)));
            var o := c.orders[d];
            && (reply.out == Ok <==>
                  || who == d
                  || ((o.fee == 0 || Exists(c.accounts, d))
                      && (c.now < o.until || c.devices[d].penalty == 0 || Total(c.accounts, who) > o.fee)))
            && (reply.out == Ok ==>
                  && CC.Closes(c, reply, d, if onoff then Ready else Off, C.Completed(who, d))
                  && CC.Settles(c, reply.chain.accounts, d, d))
  {
    assert Reserved(c.accounts, who) >= Share(d, CL.Deals(c)[d], who);
    CC.DoneIff(c, who, d, onoff);
  }

  lemma Paying(c: C.Chain, c1: C.Chain, who: AccountId, base: OrderBase, t: Moment, onoff: bool)
    requires base.device in c.devices && base.device !in c.orders && OrderOpen(c, c1, who, base, t)
    ensures var d, penalty := base.device, c.devices[base.device].penalty;
            var reply := C.Serve(c1, C.Receive(OrderDone(who, d, onoff)));
            && (reply.out == Ok <==>
                  || who == d
                  || ((base.fee == 0 || Exists(c.accounts, d))
                      && (t < base.until || penalty == 0 || Total(c.accounts, who) > base.fee)))
            && (reply.out == Ok ==>
                  Over(c, reply.chain, d, onoff, [C.Placed(who, d)] + [C.Completed(who, d)], who, base.fee,
                       if t < base.until then 0 else penalty))
  {
    var d, penalty := base.device, c.devices[base.device].penalty;
    var reply := C.Serve(c1, C.Receive(OrderDone(who, d, onoff)));
    OpenHolds(c, c1, who, base, t);
    HeldIsPayable(c1, who, d, onoff);
    SameTotals(c.accounts, c1.accounts, d, who, base.fee, penalty);
    if reply.out == Ok {
      assert c1.orders - {d} == c.orders;
      RoundTrip(c.accounts, c1.accounts, reply.chain.accounts, d, who, d, base.fee, penalty, base.until <= t);
    }
  }

  lemma HeldIsRefundable(c: C.Chain, who: AccountId, d: AccountId, onoff: bool)
    requires Issuance(c.accounts) < U128
    requires d in CL.Deals(c) && Holds(c.accounts, d, CL.Deals(c)[d]) && who == c.orders[d].client
    ensures var reply := C.Serve(c, C.Receive(OrderReject(who, d, onoff)));
            && (reply.out == Ok <==> CC.Refundable(c, d))
            && (reply.out == Ok ==>
                  && CC.Closes(c, reply, d, if onoff then Ready else Off, C.Rejected(who, d))
                  && CC.Settles(c, reply.chain.accounts, d, who))
  {
    CC.RejectIff(c, who, d, onoff);
  }

  lemma Refunding(c: C.Chain, c1: C.Chain, who: AccountId, base: OrderBase, t: Moment, onoff: bool)
    requires base.device in c.devices && base.device !in c.orders && OrderOpen(c, c1, who, base, t)
    ensures var d, penalty := base.device, c.devices[base.device].penalty;
            var reply := C.Serve(c1, C.Receive(OrderReject(who, d, onoff)));
            && (reply.out == Ok <==> t < base.until || penalty == 0 || who == d || Exists(c.accounts, who))
            && (reply.out == Ok ==>
                  Over(c, reply.chain, d, onoff, [C.Placed(who, d)] + [C.Rejected(who, d)], who, 0,
                       if t < base.until then 0 else penalty))
  {
    var d, penalty := base.device, c.devices[base.device].penalty;
    var reply := C.Serve(c1, C.Receive(OrderReject(who, d, onoff)));
    OpenHolds(c, c1, who, base, t);
    HeldIsRefundable(c1, who, d, onoff);
    SameTotals(c.accounts, c1.accounts, d, who, base.fee, penalty);
    if reply.out == Ok {
      assert c1.orders - {d} == c.orders;
      RoundTrip(c.accounts, c1.accounts, reply.chain.accounts, d, who, who, base.fee, penalty, base.until <= t);
    }
  }

  // ----- The whole way -------------------------------------------------------------------------------

  /** The order is placed, sent, and taken on the service chain, whose clock then moves on to t. */
  function Taken(w: World, who: AccountId, base: OrderBase, reach: bool, t: Moment): World {
    var w1 := Apply(w, AtClient(C.PlaceOrder(who, base, true)));
    var w2 := Apply(w1, Deliver(w.next, Some(Busy), reach));
    Apply(w2, AtService(S.Tick(t)))
  }

  lemma Taking(w: World, who: AccountId, base: OrderBase, reach: bool, t: Moment)
    requires CanHire(w, who, base) && w.service.now <= t
    ensures var w' := Taken(w, who, base, reach, t);
            && OrderOpen(w.client, w'.client, who, base, w.client.now)
            && OrderHeld(w', who, base, Busy) && w'.service.now == t && w'.home == w.home
  {
    var w1 := Apply(w, AtClient(C.PlaceOrder(who, base, true)));
    var w2 := Apply(w1, Deliver(w.next, Some(Busy), reach));
    Placing(w, who, base);
    Arriving(w1, w.next, who, base, reach);
    Waiting(w2, who, base, Busy, t);
  }

  /** The order is accepted, and the device works until t. */
  function Worked(w: World, d: AccountId, reach: bool, t: Moment): World {
    Apply(Apply(w, AtService(S.Accept(d, false, true, reach))), AtService(S.Tick(t)))
  }

  lemma Working(w: World, who: AccountId, base: OrderBase, reach: bool, t: Moment)
    requires OrderHeld(w, who, base, Busy) && w.service.now < base.until && w.service.now <= t
    ensures var w' := Worked(w, base.device, reach, t);
            w'.client == w.client && OrderHeld(w', who, base, Busy2) && w'.home == w.home
  {
    Accepting(w, who, base, reach);
    Waiting(Apply(w, AtService(S.Accept(base.device, false, true, reach))), who, base, Busy2, t);
  }

  /** The service chain speaks its final word by this call; it arrives when the client chain's clock is at t. */
  function Heard(w: World, call: S.Call, t: Moment): World {
    var w1 := Apply(w, AtService(call));
    var w2 := Apply(w1, AtClient(C.Tick(t)));
    Apply(w2, Deliver(w.next, None, true))
  }

  lemma Hearing(w: World, call: S.Call, t: Moment, d: AccountId, onoff: bool, m: Message)
    requires Spoken(w, Apply(w, AtService(call)), d, onoff, m) && w.client.now <= t && !m.NewOrder?
    ensures var w' := Heard(w, call, t);
            && w'.client == C.Serve(w.client.(now := t), C.Receive(m)).chain
            && d !in w'.service.orders && d in w'.service.devices
            && w'.service.devices[d].state == (if onoff then Ready else Off)
  {
  }

  lemma Later(c: C.Chain, c1: C.Chain, who: AccountId, base: OrderBase, t: Moment)
    requires base.device in c.devices && OrderOpen(c, c1, who, base, c.now)
    ensures OrderOpen(c, c1.(now := t), who, base, t)
  {
  }

  /** Full circle over two chains. An order that the client chain can place and the service chain take, accepted
      in time by the service chain's clock and completed at any later time, is paid on the client chain when the
      completion arrives, late or not by that chain's own clock, if the accounts to be credited exist. Both
      chains then have the device on or off as it says, and neither has the order. */
  lemma Served(w: World, who: AccountId, base: OrderBase, reach: bool, onoff: bool, t1: Moment, t2: Moment, t: Moment)
    requires CanHire(w, who, base)
    requires w.service.now <= t1 < base.until && t1 <= t2 && w.client.now <= t
    ensures var d, c := base.device, w.client;
            var w' := Heard(Worked(Taken(w, who, base, reach, t1), d, reach, t2), S.Done(d, onoff, true), t);
            && d !in w'.service.orders && d in w'.service.devices
            && w'.service.devices[d].state == (if onoff then Ready else Off)
            && (|| who == d
                || ((base.fee == 0 || Exists(c.accounts, d))
                    && (t < base.until || c.devices[d].penalty == 0 || Total(c.accounts, who) > base.fee)) ==>
                  Over(c, w'.client, d, onoff, [C.Placed(who, d)] + [C.Completed(who, d)], who, base.fee,
                       if t < base.until then 0 else c.devices[d].penalty))
  {
    var d := base.device;
    var w1 := Taken(w, who, base, reach, t1);
    var w2 := Worked(w1, d, reach, t2);
    Taking(w, who, base, reach, t1);
    Working(w1, who, base, reach, t2);
    Completing(w2, who, base, onoff);
    Hearing(w2, S.Done(d, onoff, true), t, d, onoff, OrderDone(who, d, onoff));
    Later(w.client, w2.client, who, base, t);
    Paying(w.client, w2.client.(now := t), who, base, t, onoff);
  }

  /** The same for an order that the device rejects instead of accepting it: the fee is back with the client and
      the penalty with the device, or with the client if the rejection arrives late. */
  lemma Turned(w: World, who: AccountId, base: OrderBase, reach: bool, onoff: bool, t1: Moment, t: Moment)
    requires CanHire(w, who, base)
    requires w.service.now <= t1 && w.client.now <= t
    ensures var d, c := base.device, w.client;
            var w' := Heard(Taken(w, who, base, reach, t1), S.Accept(d, true, onoff, true), t);
            && d !in w'.service.orders && d in w'.service.devices
            && w'.service.devices[d].state == (if onoff then Ready else Off)
            && (t < base.until || c.devices[d].penalty == 0 || who == d || Exists(c.accounts, who) ==>
                  Over(c, w'.client, d, onoff, [C.Placed(who, d)] + [C.Rejected(who, d)], who, 0,
                       if t < base.until then 0 else c.devices[d].penalty))
  {
    var d := base.device;
    var w1 := Taken(w, who, base, reach, t1);
    Taking(w, who, base, reach, t1);
    Rejecting(w1, who, base, Busy, onoff);
    Hearing(w1, S.Accept(d, true, onoff, true), t, d, onoff, OrderReject(who, d, onoff));
    Later(w.client, w1.client, who, base, t);
    Refunding(w.client, w1.client.(now := t), who, base, t, onoff);
  }
}
