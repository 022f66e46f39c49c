/** What the service pallet answers to each call and what the call leaves, on every input: exactly when it
    succeeds, exactly which error it gives, and the whole storage, log and message afterwards. */
module ServiceCalls {
  import opened Common
  import opened Ledger
  import opened Escrow
  import opened Service
  import opened Accounting
  import SL = ServiceLedger

  /** Device d waits for an order, and a deadline `until` leaves it its work cycle, as far as the clock can tell. */
  predicate Hireable(s: Chain, d: AccountId, until: Moment) {
    && s.now < until
    && d !in s.orders
    && d in s.devices && s.devices[d].state == Ready
    && (s.now + s.devices[d].wcd) % U64 <= until
  }

  // ----- A new order -------------------------------------------------------------------------------

  /** The order is taken: filed for d, whose device answers as the callback does. Fee and penalty of a local
      order go on reserve; of a remote order that is accepted at once its chain is told, if it can be. */
  ghost predicate Takes(s: Chain, reply: Reply, order: Order, d: AccountId, answer: Answer, reach: bool)
    requires d in s.devices
  {
    var dev, s' := s.devices[d], reply.chain;
    var placed := Record(Placed, d, Some(order), s.now, dev.penalty, false);
    var accepted := Record(Accepted, d, Some(order), s.now, dev.penalty, false);
    && answer.Some?
    && s' == s.(orders := s.orders[d := order],
                devices := s.devices[d := Device(answer.value, dev.penalty, dev.wcd)],
                log := s.log + [placed] + (if answer == Some(Busy2) then [accepted] else []),
                accounts := s'.accounts)
    && (if order.paraid == s.self
        then PutOnReserve(s.accounts, s'.accounts, d, order.client, order.fee, dev.penalty)
        else s'.accounts == s.accounts)
    && reply.sent == (if answer == Some(Busy2) && order.paraid != s.self && reach
                      then Some(Envelope(order.paraid, OrderAccept(order.client, d))) else None)
  }

  ghost predicate TakenIff(s: Chain, reply: Reply, order: Order, d: AccountId, answer: Answer, reach: bool) {
    && (reply.out == Ok <==>
          && Hireable(s, d, order.until) && answer.Some?
          && (order.paraid == s.self ==> Affordable(s.accounts, d, order.client, order.fee, s.devices[d].penalty)))
    && (reply.out == Ok ==> Takes(s, reply, order, d, answer, reach))
    && (reply.out.Err? ==> reply.chain == s.(accounts := reply.chain.accounts) && reply.sent == None)
  }

  ghost predicate RefusedWith(s: Chain, out: Outcome, order: Order, d: AccountId, answer: Answer) {
    && (out == Err(Overdue) <==> order.until <= s.now)
    && (out == Err(NoDevice) <==> s.now < order.until && d !in s.orders && d !in s.devices)
    && (out == Err(BadOrderDetails) <==>
          && s.now < order.until && d !in s.orders && d in s.devices && s.devices[d].state == Ready
          && order.until < (s.now + s.devices[d].wcd) % U64)
    && (out == Err(DeviceLowBail) <==>
          && Hireable(s, d, order.until) && answer.Some?
          && order.paraid == s.self && Free(s.accounts, order.client) < order.fee)
    && (out == Err(InsufficientBalance) <==>
          && Hireable(s, d, order.until) && answer.Some?
          && order.paraid == s.self && order.fee <= Free(s.accounts, order.client)
          && !Affordable(s.accounts, d, order.client, order.fee, s.devices[d].penalty))
    && (out == Err(IllegalState) <==>
          && s.now < order.until
          && (d in s.orders
              || (d in s.devices && s.devices[d].state != Ready)
              || (Hireable(s, d, order.until) && answer == None)))
    && out in {Ok, Err(Overdue), Err(NoDevice), Err(BadOrderDetails), Err(DeviceLowBail), Err(InsufficientBalance),
               Err(IllegalState)}
  }

  lemma ReceiptIff(s: Chain, order: Order, d: AccountId, answer: Answer, reach: bool)
    requires Issuance(s.accounts) < U128
    ensures TakenIff(s, OrderReceived(s, order, d, answer, reach), order, d, answer, reach)
    ensures RefusedWith(s, OrderReceived(s, order, d, answer, reach).out, order, d, answer)
  {
    if d in s.devices {
      HoldIff(s.accounts, d, order.client, order.fee, s.devices[d].penalty);
    }
  }

  /** A client's order is taken if and only if the device can be hired, the callback agrees, and client and
      device can afford it. */
  lemma PlacementIff(s: Chain, who: AccountId, base: OrderBase, answer: Answer, reach: bool)
    requires Issuance(s.accounts) < U128
    ensures var reply := Serve(s, PlaceOrder(who, base, answer, reach));
            var order := Order(base.until, base.data, base.fee, who, s.self);
            && TakenIff(s, reply, order, base.device, answer, reach)
            && RefusedWith(s, reply.out, order, base.device, answer)
  {
    ReceiptIff(s, LocalOrder(s, who, base), base.device, answer, reach);
  }

  /** An order that arrives from another chain is filed under that chain, and no money is asked for. */
  lemma ArrivalIff(s: Chain, sender: ParaId, client: AccountId, base: OrderBase, answer: Answer, reach: bool)
    requires Issuance(s.accounts) < U128
    ensures var reply := Serve(s, Receive(sender, NewOrder(client, base), answer, reach));
            var order := Order(base.until, base.data, base.fee, client, sender);
            && TakenIff(s, reply, order, base.device, answer, reach)
            && RefusedWith(s, reply.out, order, base.device, answer)
  {
    ReceiptIff(s, Order(base.until, base.data, base.fee, client, sender), base.device, answer, reach);
  }

  /** Any other message leaves the chain alone. */
  lemma OtherMessages(s: Chain, sender: ParaId, m: Message, answer: Answer, reach: bool)
    requires !m.NewOrder?
    ensures Serve(s, Receive(sender, m, answer, reach)) == Reply(s, Ok, None)
  {
  }

  // ----- Acceptance --------------------------------------------------------------------------------

  /** A device can accept its order if and only if it has not yet done so and the deadline is still to come. */
  lemma AcceptIff(s: Chain, d: AccountId, onoff: bool, reach: bool)
    ensures var reply := Serve(s, Accept(d, false, onoff, reach));
            && (reply.out == Ok <==>
                  && d in s.devices && s.devices[d].state == Busy
                  && d in s.orders && s.now < s.orders[d].until)
            && (reply.out == Ok ==>
                  var dev, order := s.devices[d], s.orders[d];
                  && reply.chain ==
                     s.(devices := s.devices[d := Device(Busy2, dev.penalty, dev.wcd)],
                        log := s.log + [Record(Accepted, d, Some(order), s.now, dev.penalty, false)])
                  && reply.sent == (if order.paraid != s.self && reach
                                    then Some(Envelope(order.paraid, OrderAccept(order.client, d))) else None))
            && (reply.out.Err? ==> reply == Reply(s, reply.out, None))
            && (reply.out == Err(NoDevice) <==> d !in s.devices)
            && (reply.out == Err(IllegalState) <==> d in s.devices && s.devices[d].state != Busy)
            && (reply.out == Err(NoOrder) <==>
                  d in s.devices && s.devices[d].state == Busy && d !in s.orders)
  {
  }

  // ----- Rejection and cancel ----------------------------------------------------------------------

  /** The order, if there is one, can be refunded: a local one if the penalty can be credited to a client that is
      due it, a remote one if its chain can be told. */
  predicate Refundable(s: Chain, d: AccountId, reach: bool)
    requires d in s.devices
  {
    d in s.orders ==>
      var o := s.orders[d];
      if o.paraid == s.self
      then s.now < o.until || s.devices[d].penalty == 0 || o.client == d || Exists(s.accounts, o.client)
      else reach
  }

  /** The order is gone and its chain told; the device is as it is given here. */
  ghost predicate SendsAway(s: Chain, reply: Reply, d: AccountId, state: DeviceState, onoff: bool, byClient: bool)
    requires d in s.devices
  {
    var dev, s' := s.devices[d], reply.chain;
    var order := if d in s.orders then Some(s.orders[d]) else None;
    && s' == s.(orders := s.orders - {d},
                devices := s.devices[d := Device(state, dev.penalty, dev.wcd)],
                log := s.log + [Record(Rejected, d, order, s.now, dev.penalty, byClient)],
                accounts := s'.accounts)
    && (d in s.orders && s.orders[d].paraid != s.self ==>
          && s'.accounts == s.accounts
          && reply.sent == Some(Envelope(s.orders[d].paraid, OrderReject(s.orders[d].client, d, onoff))))
    && (d !in s.orders ==> s'.accounts == s.accounts && reply.sent == None)
    && (d in s.orders && s.orders[d].paraid == s.self ==>
          && reply.sent == None
          && (SL.Inv(s) ==> Settles(s, s'.accounts, d, s.orders[d].client)))
  }

  /** All the money of the order for d is settled, the fee for the account `earner`. */
  ghost predicate Settles(s: Chain, l': Accounts, d: AccountId, earner: AccountId)
    requires d in s.devices && d in s.orders
  {
    var o := s.orders[d];
    SettledFor(s.accounts, l', d, o.client, earner, o.fee, s.devices[d].penalty, o.until <= s.now)
  }

  lemma RejectionIff(s: Chain, d: AccountId, dev: Device, onoff: bool, byClient: bool, reach: bool)
    requires Issuance(s.accounts) < U128
    requires d in s.devices && dev.penalty == s.devices[d].penalty && dev.wcd == s.devices[d].wcd
    ensures var reply := OrderRejected(s, OrderOf(s, d), d, dev, onoff, byClient, reach);
            && (reply.out == Ok <==> Refundable(s, d, reach))
            && (reply.out == Ok ==> SendsAway(s, reply, d, dev.state, onoff, byClient))
            && (reply.out.Err? ==>
                  && reply == Reply(s, reply.out, None)
                  && reply.out == Err(if s.orders[d].paraid == s.self then DeadAccount else CannotReachDestination))
  {
    if d in s.orders {
      var o := s.orders[d];
      RefundTears(s.accounts, d, o.client, o.client, o.fee, dev.penalty, s.now >= o.until);
      RefundToIff(s.accounts, d, o.client, o.client, o.fee, dev.penalty, s.now >= o.until);
      if SL.Inv(s) && o.paraid == s.self {
        DealHolds(SL.BooksOf(s), d);
        SettledInFull(s.accounts, d, SL.LocalDeals(s)[d], s.now >= o.until);
      }
    }
  }

  /** A device can reject if and only if it is busy and the order, if there is one, can be refunded; it is then
      on or off as it says, and says so to the order's chain. */
  lemma RejectIff(s: Chain, d: AccountId, onoff: bool, reach: bool)
    requires Issuance(s.accounts) < U128
    ensures var reply := Serve(s, Accept(d, true, onoff, reach));
            && (reply.out == Ok <==>
                  && d in s.devices && (s.devices[d].state == Busy || s.devices[d].state == Busy2)
                  && Refundable(s, d, reach))
            && (reply.out == Ok ==> SendsAway(s, reply, d, if onoff then Ready else Off, onoff, false))
            && (reply.out.Err? ==> reply == Reply(s, reply.out, None))
            && (reply.out == Err(NoDevice) <==> d !in s.devices)
            && (reply.out == Err(IllegalState) <==>
                  d in s.devices && s.devices[d].state != Busy && s.devices[d].state != Busy2)
            && (d in s.devices && (s.devices[d].state == Busy || s.devices[d].state == Busy2)
                && !Refundable(s, d, reach) ==>
                  reply.out == Err(if s.orders[d].paraid == s.self then DeadAccount else CannotReachDestination))
  {
    if d in s.devices {
      RejectionIff(s, d, s.devices[d].(state := OnOff(onoff)), onoff, false, reach);
    }
  }

  /** The client, and nobody else, can cancel from the deadline on, if the order can be refunded; the device is
      left as it was, and the order's chain is told that it is off. */
  lemma CancelIff(s: Chain, who: AccountId, d: AccountId, reach: bool)
    requires Issuance(s.accounts) < U128
    ensures var reply := Serve(s, Cancel(who, d, reach));
            && (reply.out == Ok <==>
                  && d in s.orders && s.orders[d].client == who && s.orders[d].until <= s.now
                  && d in s.devices && Refundable(s, d, reach))
            && (reply.out == Ok ==> SendsAway(s, reply, d, s.devices[d].state, false, true))
            && (reply.out.Err? ==> reply == Reply(s, reply.out, None))
            && (reply.out == Err(NoOrder) <==> d !in s.orders)
            && (reply.out == Err(Prohibited) <==>
                  d in s.orders && (s.orders[d].client != who || s.now < s.orders[d].until))
            && (d in s.orders && s.orders[d].client == who && s.orders[d].until <= s.now ==>
                  && (d !in s.devices ==> reply.out == Err(NoDevice))
                  && (d in s.devices && !Refundable(s, d, reach) ==>
                        reply.out == Err(if s.orders[d].paraid == s.self then DeadAccount
                                         else CannotReachDestination)))
  {
    if d in s.devices {
      RejectionIff(s, d, s.devices[d], false, true, reach);
    }
  }

  // ----- Completion --------------------------------------------------------------------------------

  /** The accounts that a local completion credits exist when it comes to that; a remote one can be sent. */
  predicate Payable(s: Chain, d: AccountId, reach: bool)
    requires d in s.devices && d in s.orders
  {
    var o := s.orders[d];
    if o.paraid == s.self
    then o.client == d
         || ((o.fee == 0 || Exists(s.accounts, d))
             && (s.now < o.until || s.devices[d].penalty == 0 || Total(s.accounts, o.client) > o.fee))
    else reach
  }

  /** A device can complete its order if and only if it has accepted it and the order can be settled. Once it
      has accepted, the order is gone and the device on or off as it says, even if the call then fails; the
      order's chain hears of a success, and the same flag. */
  lemma DoneIff(s: Chain, d: AccountId, onoff: bool, reach: bool)
    requires SL.Inv(s)
    ensures var reply := Serve(s, Done(d, onoff, reach));
            && (reply.out == Ok <==>
                  && d in s.devices && s.devices[d].state == Busy2 && d in s.orders
                  && Payable(s, d, reach))
            && (d in s.devices && s.devices[d].state == Busy2 && d in s.orders ==>
                  var dev, order, s' := s.devices[d], s.orders[d], reply.chain;
                  && s' == s.(orders := s.orders - {d},
                              devices := s.devices[d := Device(if onoff then Ready else Off, dev.penalty, dev.wcd)],
                              log := s'.log, accounts := s'.accounts)
                  && s'.log == s.log + (if reply.out == Ok
                                        then [Record(Completed, d, Some(order), s.now, dev.penalty, false)] else [])
                  && (order.paraid != s.self ==> s'.accounts == s.accounts)
                  && (order.paraid == s.self && reply.out == Ok ==> Settles(s, s'.accounts, d, d))
                  && reply.sent == (if reply.out == Ok && order.paraid != s.self
                                    then Some(Envelope(order.paraid, OrderDone(order.client, d, onoff))) else None)
                  && (reply.out.Err? ==>
                        reply.out == Err(if order.paraid == s.self then DeadAccount else CannotReachDestination)))
            && (!(d in s.devices && s.devices[d].state == Busy2 && d in s.orders) ==>
                  reply == Reply(s, Err(if d !in s.devices then NoDevice
                                        else if s.devices[d].state != Busy2 then IllegalState else NoOrder), None))
  {
    if d in s.devices && s.devices[d].state == Busy2 && d in s.orders && s.orders[d].paraid == s.self {
      var deal := SL.LocalDeals(s)[d];
      var late := s.now >= deal.until;
      DealHolds(SL.BooksOf(s), d);
      PayMoves(s.accounts, d, deal, late);
      SettledInFull(s.accounts, d, deal, late);
      PayIff(s.accounts, d, deal.client, deal.fee, deal.penalty, late);
    }
  }

  // ----- The device's own profile and the clock ----------------------------------------------------

  /** A device can register, anew or for the first time, if and only if it has no order. */
  lemma RegisterIff(s: Chain, d: AccountId, penalty: Balance, wcd: Moment, onoff: bool)
    ensures Serve(s, Register(d, penalty, wcd, onoff)) ==
            if d in s.orders then Reply(s, Err(DeviceExists), None)
            else Reply(s.(devices := s.devices[d := Device(if onoff then Ready else Off, penalty, wcd)],
                          log := s.log + [Record(Registered, d, None, s.now, penalty, false)]), Ok, None)
  {
  }

  /** A device can be switched on when it is off, and off when it is off or ready. */
  lemma SetStateIff(s: Chain, d: AccountId, onoff: bool)
    ensures var reply := Serve(s, SetState(d, onoff));
            && (reply.out == Ok <==>
                  d in s.devices && (s.devices[d].state == Off || (s.devices[d].state == Ready && !onoff)))
            && (reply.out == Ok ==>
                  var dev := s.devices[d];
                  reply == Reply(s.(devices := s.devices[d := Device(if onoff then Ready else Off,
                                                                     dev.penalty, dev.wcd)]), Ok, None))
            && (reply.out.Err? ==> reply == Reply(s, Err(if d in s.devices then IllegalState else NoDevice), None))
  {
  }

  /** The clock only goes forward. */
  lemma TickIff(s: Chain, to: Moment)
    ensures Serve(s, Tick(to)) == Reply(s.(now := if s.now <= to then to else s.now), Ok, None)
  {
  }

  /** An event is deposited for every record on the log, of its kind and for its device, in that order. */
  lemma EventsOf(log: seq<Record>, i: nat)
    requires i < |log|
    ensures |Events(log)| == |log| && Events(log)[i] == Event(log[i].fact, log[i].device)
  {
  }
}
