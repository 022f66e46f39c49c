/** What final words do when they are delivered, in every run under hypothesis H: the order is closed and all
    its money settled, or the client has cancelled it before, or an account to be credited does not exist. */
module WorldClosing {
  import opened Common
  import opened Ledger
  import opened Escrow
  import C = Client
  import CL = ClientLedger
  import CC = ClientCalls
  import opened World
  import opened WorldTheorems
  import opened WorldOutcome
  import opened WorldRuin

  /** The last order open for d is still open, or its client has cancelled it at step n. */
  ghost predicate OpenOrCancelled(w0: World, steps: seq<Step>, d: AccountId, order: Order, n: nat) {
    var c := Exec(w0, steps).client;
    if d in c.orders then c.orders[d] == order else CancelledAt(w0, steps, n, d, order)
  }

  /** The order for d is closed, its device on or off as the message says, and all its money settled, the fee
      for the account `earner`. */
  ghost predicate ClosedBy(c: C.Chain, c': C.Chain, d: AccountId, onoff: bool, event: C.Event, earner: AccountId)
    requires d in c.orders && d in c.devices
  {
    var dev := c.devices[d];
    && c' == c.(orders := c.orders - {d},
                devices := c.devices[d := C.Device(if onoff then Ready else Off, dev.penalty, dev.wcd, dev.paraid)],
                events := c.events + [event],
                accounts := c'.accounts)
    && CC.Settles(c, c'.accounts, d, earner)
  }

  lemma FinalWordOf(w0: World, steps: seq<Step>, t: nat) returns (order: Order, n: nat)
    requires Genesis(w0) && Lawful(w0, steps)
    requires var w := Exec(w0, steps); t in w.net && (w.net[t].OrderReject? || w.net[t].OrderDone?)
    ensures var w := Exec(w0, steps);
            var d := w.net[t].device;
            && w.net[t].client == order.client
            && OpenOrCancelled(w0, steps, d, order, n)
            && CL.Sound(w.client)
            && (d in w.client.orders ==>
                  d in w.client.devices && Holds(w.client.accounts, d, CL.Deals(w.client)[d]))
  {
    var w := Exec(w0, steps);
    var d := w.net[t].device;
    var last := LastOrders(w0, steps);
    LastIsKept(w0, steps);
    ConfinedAlways(w0, steps);
    assert Traced(w0, steps, d) && Flying(w, t, d);
    assert Kept(Shadow(w, last), d) && Flying(Shadow(w, last), t, d);
    order, n := last[d], 0;
    if d in w.client.orders {
      SoundDealHolds(w, d);
    } else {
      n :| CancelledAt(w0, steps, n, d, order);
    }
  }

  /** A rejection that is delivered closes its order and refunds the client in full if and only if that order is
      open and the penalty, if it is the client's, can be credited; it leaves the client chain alone otherwise. If
      the order is not open, its client has cancelled that very order. */
  lemma RejectionCloses(w0: World, steps: seq<Step>, t: nat, answer: Answer, reach: bool) returns (order: Order, n: nat)
    requires Genesis(w0) && Lawful(w0, steps)
    requires var w := Exec(w0, steps); t in w.net && w.net[t].OrderReject?
    ensures var w := Exec(w0, steps);
            var m, c, c' := w.net[t], w.client, Apply(w, Deliver(t, answer, reach)).client;
            && m.client == order.client
            && OpenOrCancelled(w0, steps, m.device, order, n)
            && (m.device in c.orders ==> m.device in c.devices)
            && if m.device in c.orders && CC.Refundable(c, m.device)
               then ClosedBy(c, c', m.device, m.onoff, C.Rejected(m.client, m.device), m.client)
               else c' == c
  {
    order, n := FinalWordOf(w0, steps, t);
    var w := Exec(w0, steps);
    var m := w.net[t];
    ClientAfter(w, Deliver(t, answer, reach));
    CC.RejectIff(w.client, m.client, m.device, m.onoff);
  }

  /** A completion that is delivered closes its order and pays the device in full if and only if that order is open
      and device and client can be credited; otherwise the order is not closed, and unless the completion pays
      half the client chain is left alone. If the order is not open, its client has cancelled that very order. */
  lemma CompletionCloses(w0: World, steps: seq<Step>, t: nat, answer: Answer, reach: bool)
      returns (order: Order, n: nat)
    requires Genesis(w0) && Lawful(w0, steps)
    requires var w := Exec(w0, steps); t in w.net && w.net[t].OrderDone?
    ensures var w := Exec(w0, steps);
            var m, c, c' := w.net[t], w.client, Apply(w, Deliver(t, answer, reach)).client;
            var d := m.device;
            && m.client == order.client
            && OpenOrCancelled(w0, steps, d, order, n)
            && (d in c.orders ==> d in c.devices)
            && if d in c.orders
                  && (|| m.client == d
                      || ((order.fee == 0 || Exists(c.accounts, d))
                          && (c.now < order.until || c.devices[d].penalty == 0
                              || Total(c.accounts, m.client) > order.fee)))
               then ClosedBy(c, c', d, m.onoff, C.Completed(m.client, d), d)
               else c' == c.(accounts := c'.accounts) && (c' == c || HalfPays(w, Deliver(t, answer, reach)))
  {
    order, n := FinalWordOf(w0, steps, t);
    var w := Exec(w0, steps);
    var m := w.net[t];
    var d := m.device;
    ClientAfter(w, Deliver(t, answer, reach));
    CC.DoneIff(w.client, m.client, d, m.onoff);
    CL.TornIff(w.client, C.Receive(m));
    if d in w.client.orders {
      assert Reserved(w.client.accounts, m.client) >= Share(d, CL.Deals(w.client)[d], m.client);
    }
  }
}
