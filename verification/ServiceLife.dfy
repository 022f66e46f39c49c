/** The life of a local order on the service chain, from any state with the invariant: hired, accepted and
    completed; hired and rejected; hired and cancelled. Whatever is not the order's is as it was before. */
module ServiceLife {
  import opened Common
  import opened Ledger
  import opened Escrow
  import opened Service
  import SL = ServiceLedger
  import opened ServiceCalls

  /** Once the order is over, account a has gained the fee if it is the device that has earned it, and the
      penalty if it is the client of a late device; what one gains the other has lost. */
  function Gain(d: AccountId, client: AccountId, earned: Balance, forfeit: Balance, a: AccountId): int {
    (if a == d then earned - forfeit else 0) + (if a == client then forfeit - earned else 0)
  }

  /** The order for d is over: storage and reserves are as before, the device is on or off, money has changed
      hands, and the log has grown. */
  ghost predicate Over(s: Chain, s': Chain, d: AccountId, state: DeviceState,
                       client: AccountId, earned: Balance, forfeit: Balance)
    requires d in s.devices
  {
    && s'.orders == s.orders
    && s'.devices == s.devices[d := Device(state, s.devices[d].penalty, s.devices[d].wcd)]
    && forall a :: Reserved(s'.accounts, a) == Reserved(s.accounts, a)
                && Free(s'.accounts, a) == Free(s.accounts, a) + Gain(d, client, earned, forfeit, a)
  }

  /** What was put on reserve for an order has been settled. */
  lemma RoundTrip(l: Accounts, l1: Accounts, l2: Accounts, d: AccountId, client: AccountId, earner: AccountId,
                  fee: Balance, penalty: Balance, late: bool)
    requires PutOnReserve(l, l1, d, client, fee, penalty)
    requires SettledFor(l1, l2, d, client, earner, fee, penalty, late)
    requires earner == client || earner == d
    ensures var earned := if earner == d then fee else 0;
            var forfeit := if late then penalty else 0;
            forall a :: Reserved(l2, a) == Reserved(l, a)
                     && (d != client ==> Free(l2, a) == Free(l, a) + Gain(d, client, earned, forfeit, a))
                     && (d == client ==> Free(l2, a) == Free(l, a))
  {
    forall a ensures Reserved(l2, a) == Reserved(l, a) {
      assert Reserved(l1, a) == Reserved(l, a) + ((if a == client then fee else 0) + (if a == d then penalty else 0));
    }
    forall a ensures Free(l2, a) == Free(l, a)
                     + (if d == client then 0
                        else Gain(d, client, if earner == d then fee else 0, if late then penalty else 0, a)) {
      assert Free(l1, a) == Free(l, a) - ((if a == client then fee else 0) + (if a == d then penalty else 0));
    }
  }

  /** The local order that `who` has placed with `base` on state s is open, its device in this state, and the
      clock at t; nothing else has changed. */
  ghost predicate Standing(s: Chain, s': Chain, who: AccountId, base: OrderBase, state: DeviceState, t: Moment)
    requires base.device in s.devices
  {
    var d, dev := base.device, s.devices[base.device];
    && SL.Inv(s')
    && s' == s.(orders := s.orders[d := Order(base.until, base.data, base.fee, who, s.self)],
                devices := s.devices[d := Device(state, dev.penalty, dev.wcd)],
                log := s'.log, accounts := s'.accounts, now := t)
    && PutOnReserve(s.accounts, s'.accounts, d, who, base.fee, dev.penalty)
  }

  /** The device can take the order, and the parties can afford it. */
  ghost predicate Fair(s: Chain, who: AccountId, base: OrderBase) {
    && SL.Inv(s)
    && Hireable(s, base.device, base.until)
    && Affordable(s.accounts, base.device, who, base.fee, s.devices[base.device].penalty)
  }

  /** The chain with a local order just filed, its device waiting to accept. */
  function Hired(s: Chain, who: AccountId, base: OrderBase, reach: bool, t: Moment): Chain {
    Serve(Serve(s, PlaceOrder(who, base, Some(Busy), reach)).chain, Tick(t)).chain
  }

  lemma Hiring(s: Chain, who: AccountId, base: OrderBase, reach: bool, t: Moment)
    requires Fair(s, who, base) && s.now <= t
    ensures Serve(s, PlaceOrder(who, base, Some(Busy), reach)).out == Ok
    ensures Standing(s, Hired(s, who, base, reach, t), who, base, Busy, t)
  {
    var place := PlaceOrder(who, base, Some(Busy), reach);
    PlacementIff(s, who, base, Some(Busy), reach);
    SL.InvKept(s, place);
    SL.InvKept(Serve(s, place).chain, Tick(t));
  }

  /** The chain with the order accepted at t1, and its device at work until t2. */
  function AtWork(s: Chain, who: AccountId, base: OrderBase, reach: bool, t1: Moment, t2: Moment): Chain {
    Serve(Serve(Hired(s, who, base, reach, t1), Accept(base.device, false, true, reach)).chain, Tick(t2)).chain
  }

  lemma Accepting(s: Chain, who: AccountId, base: OrderBase, reach: bool, t1: Moment, t2: Moment)
    requires Fair(s, who, base) && s.now <= t1 < base.until && t1 <= t2
    ensures Standing(s, AtWork(s, who, base, reach, t1, t2), who, base, Busy2, t2)
  {
    Hiring(s, who, base, reach, t1);
    AcceptingFrom(s, Hired(s, who, base, reach, t1), who, base, reach, t1, t2);
  }

  lemma AcceptingFrom(s: Chain, s1: Chain, who: AccountId, base: OrderBase, reach: bool, t1: Moment, t2: Moment)
    requires base.device in s.devices && Standing(s, s1, who, base, Busy, t1)
    requires t1 < base.until && t1 <= t2
    ensures Standing(s, Serve(Serve(s1, Accept(base.device, false, true, reach)).chain, Tick(t2)).chain,
                     who, base, Busy2, t2)
  {
    var accept := Accept(base.device, false, true, reach);
    AcceptIff(s1, base.device, true, reach);
    SL.InvKept(s1, accept);
    SL.InvKept(Serve(s1, accept).chain, Tick(t2));
  }

  /** Full circle. An order that a device can take and the parties can afford, accepted in time, can be completed
      at any later time, if the accounts to be credited exist. The device has then earned the fee; on time it
      has its penalty back, late the client has it. */
  lemma Served(s: Chain, who: AccountId, base: OrderBase, reach: bool, onoff: bool, t1: Moment, t2: Moment)
    requires Fair(s, who, base) && s.now <= t1 < base.until && t1 <= t2
    ensures var d, penalty := base.device, s.devices[base.device].penalty;
            var reply := Serve(AtWork(s, who, base, reach, t1, t2), Done(d, onoff, reach));
            && (reply.out == Ok <==>
                  || who == d
                  || ((base.fee == 0 || Exists(s.accounts, d))
                      && (t2 < base.until || penalty == 0 || Total(s.accounts, who) > base.fee)))
            && (reply.out == Ok ==>
                  Over(s, reply.chain, d, if onoff then Ready else Off, who, base.fee,
                       if t2 < base.until then 0 else penalty))
  {
    Accepting(s, who, base, reach, t1, t2);
    Completing(s, AtWork(s, who, base, reach, t1, t2), who, base, reach, onoff, t2);
  }

  lemma Completing(s: Chain, s1: Chain, who: AccountId, base: OrderBase, reach: bool, onoff: bool, t: Moment)
    requires base.device in s.devices && base.device !in s.orders
    requires Standing(s, s1, who, base, Busy2, t)
    ensures var d, penalty := base.device, s.devices[base.device].penalty;
            var reply := Serve(s1, Done(d, onoff, reach));
            && (reply.out == Ok <==>
                  || who == d
                  || ((base.fee == 0 || Exists(s.accounts, d))
                      && (t < base.until || penalty == 0 || Total(s.accounts, who) > base.fee)))
            && (reply.out == Ok ==>
                  Over(s, reply.chain, d, if onoff then Ready else Off, who, base.fee,
                       if t < base.until then 0 else penalty))
  {
    var d, penalty := base.device, s.devices[base.device].penalty;
    var reply := Serve(s1, Done(d, onoff, reach));
    CompletionSettled(s1, d, onoff, reach);
    SameTotals(s.accounts, s1.accounts, d, who, base.fee, penalty);
    if reply.out == Ok {
      OverNow(s, s1, reply.chain, who, base, Busy2, t, if onoff then Ready else Off, d);
    }
  }

  /** The order is taken out, its device set, and all its money settled: then it is over. */
  lemma OverNow(s: Chain, s1: Chain, s2: Chain, who: AccountId, base: OrderBase, state: DeviceState, t: Moment,
                state': DeviceState, earner: AccountId)
    requires base.device in s.devices && base.device !in s.orders
    requires Standing(s, s1, who, base, state, t)
    requires s2.orders == s1.orders - {base.device}
    requires s2.devices ==
             s1.devices[base.device := Device(state', s1.devices[base.device].penalty, s1.devices[base.device].wcd)]
    requires Settles(s1, s2.accounts, base.device, earner) && (earner == who || earner == base.device)
    ensures Over(s, s2, base.device, state', who, if earner == base.device then base.fee else 0,
                 if t < base.until then 0 else s.devices[base.device].penalty)
  {
    var d := base.device;
    assert s1.orders - {d} == s.orders;
    RoundTrip(s.accounts, s1.accounts, s2.accounts, d, who, earner, base.fee, s.devices[d].penalty, base.until <= t);
  }

  lemma CompletionSettled(s: Chain, d: AccountId, onoff: bool, reach: bool)
    requires SL.Inv(s) && d in s.devices && s.devices[d].state == Busy2
    requires d in s.orders && s.orders[d].paraid == s.self
    ensures var reply := Serve(s, Done(d, onoff, reach));
            && (reply.out == Ok <==> Payable(s, d, reach))
            && reply.chain.orders == s.orders - {d}
            && reply.chain.devices ==
               s.devices[d := Device(if onoff then Ready else Off, s.devices[d].penalty, s.devices[d].wcd)]
            && (reply.out == Ok ==> Settles(s, reply.chain.accounts, d, d))
  {
    DoneIff(s, d, onoff, reach);
  }

  lemma SameTotals(l: Accounts, l1: Accounts, d: AccountId, client: AccountId, fee: Balance, penalty: Balance)
    requires PutOnReserve(l, l1, d, client, fee, penalty)
    ensures Total(l1, d) == Total(l, d) && Total(l1, client) == Total(l, client)
  {
  }

  /** An order that its device rejects before or after the deadline gives everybody back what was put on reserve,
      but the client has the penalty if the device was late; it fails only for a client that does not exist. */
  lemma Turned(s: Chain, who: AccountId, base: OrderBase, reach: bool, onoff: bool, t: Moment)
    requires Fair(s, who, base) && s.now <= t
    ensures var d, penalty := base.device, s.devices[base.device].penalty;
            var reply := Serve(Hired(s, who, base, reach, t), Accept(d, true, onoff, reach));
            && (reply.out == Ok <==> t < base.until || penalty == 0 || who == d || Exists(s.accounts, who))
            && (reply.out == Ok ==>
                  Over(s, reply.chain, d, if onoff then Ready else Off, who, 0, if t < base.until then 0 else penalty))
  {
    var d, penalty := base.device, s.devices[base.device].penalty;
    var s1 := Hired(s, who, base, reach, t);
    Hiring(s, who, base, reach, t);
    RejectIff(s1, d, onoff, reach);
    var reply := Serve(s1, Accept(d, true, onoff, reach));
    Refunding(s, s1, who, base, t, reply, if onoff then Ready else Off, onoff, false);
  }

  lemma Refunding(s: Chain, s1: Chain, who: AccountId, base: OrderBase, t: Moment,
                  reply: Reply, state: DeviceState, onoff: bool, byClient: bool)
    requires base.device in s.devices && base.device !in s.orders
    requires Standing(s, s1, who, base, Busy, t)
    requires reply.out == Ok ==> SendsAway(s1, reply, base.device, state, onoff, byClient)
    ensures Refundable(s1, base.device, false) <==>
            t < base.until || s.devices[base.device].penalty == 0 || who == base.device || Exists(s.accounts, who)
    ensures Refundable(s1, base.device, true) <==> Refundable(s1, base.device, false)
    ensures reply.out == Ok ==>
              Over(s, reply.chain, base.device, state, who, 0,
                   if t < base.until then 0 else s.devices[base.device].penalty)
  {
    var d, penalty := base.device, s.devices[base.device].penalty;
    SameTotals(s.accounts, s1.accounts, d, who, base.fee, penalty);
    if reply.out == Ok {
      OverNow(s, s1, reply.chain, who, base, Busy, t, state, who);
    }
  }

  /** An order that its client cancels once it is overdue gives the client its fee back and the penalty; the device
      stays busy until it says otherwise. */
  lemma Cancelled(s: Chain, who: AccountId, base: OrderBase, reach: bool, t: Moment)
    requires Fair(s, who, base) && s.now <= t
    ensures var d, penalty := base.device, s.devices[base.device].penalty;
            var reply := Serve(Hired(s, who, base, reach, t), Cancel(who, d, reach));
            && (reply.out == Ok <==> base.until <= t && (penalty == 0 || who == d || Exists(s.accounts, who)))
            && (reply.out == Ok ==> Over(s, reply.chain, d, Busy, who, 0, penalty))
  {
    var d := base.device;
    var s1 := Hired(s, who, base, reach, t);
    Hiring(s, who, base, reach, t);
    CancelIff(s1, who, d, reach);
    Refunding(s, s1, who, base, t, Serve(s1, Cancel(who, d, reach)), Busy, false, true);
  }
}
