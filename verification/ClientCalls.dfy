/** What the client pallet answers to each call and message and what it leaves, on every input: exactly when it
    succeeds, exactly which error it gives, and the whole storage, events and message afterwards. */
module ClientCalls {
  import opened Common
  import opened Ledger
  import opened Escrow
  import opened Client
  import CL = ClientLedger

  /** Device d waits for an order, and a deadline `until` leaves it its work cycle, as far as the clock can tell. */
  predicate Hireable(s: Chain, d: AccountId, until: Moment) {
    && s.now < until
    && d !in s.orders
    && d in s.devices && s.devices[d].state == Ready
    && (s.now + s.devices[d].wcd) % U64 <= until
  }

  // ----- A new order -------------------------------------------------------------------------------

  /** The order is filed for d with fee and penalty on reserve. If it can be sent, it is, and the device is busy;
      if not, that is an error, but the order stays filed and the device ready. */
  ghost predicate Places(s: Chain, reply: Reply, who: AccountId, base: OrderBase, reach: bool)
    requires base.device in s.devices
  {
    var d, dev, s' := base.device, s.devices[base.device], reply.chain;
    var order := Order(base.until, base.data, base.fee, who, 0);
    && PutOnReserve(s.accounts, s'.accounts, d, who, base.fee, dev.penalty)
    && if reach then
         && s' == s.(orders := s.orders[d := order],
                     devices := s.devices[d := Device(Busy, dev.penalty, dev.wcd, dev.paraid)],
                     events := s.events + [Placed(who, d)],
                     accounts := s'.accounts)
         && reply.sent == Some(Envelope(dev.paraid, NewOrder(who, base)))
       else
         && s' == s.(orders := s.orders[d := order], accounts := s'.accounts)
         && reply.out == Err(CannotReachDestination) && reply.sent == None
  }

  /** A client's order is filed if and only if the device can be hired and client and device can afford it; the
      call succeeds if the order can also be sent. */
  lemma PlacementIff(s: Chain, who: AccountId, base: OrderBase, reach: bool)
    requires Issuance(s.accounts) < U128
    ensures var reply := Serve(s, PlaceOrder(who, base, reach));
            var d := base.device;
            var files := Hireable(s, d, base.until)
                         && Affordable(s.accounts, d, who, base.fee, s.devices[d].penalty);
            && (reply.out == Ok <==> files && reach)
            && (files ==> Places(s, reply, who, base, reach))
            && (!files ==> reply.chain == s.(accounts := reply.chain.accounts) && reply.sent == None)
  {
    if base.device in s.devices {
      HoldIff(s.accounts, base.device, who, base.fee, s.devices[base.device].penalty);
    }
  }

  lemma PlacementErrors(s: Chain, who: AccountId, base: OrderBase, reach: bool)
    requires Issuance(s.accounts) < U128
    ensures var out := Serve(s, PlaceOrder(who, base, reach)).out;
            var d := base.device;
            && (out == Err(Overdue) <==> base.until <= s.now)
            && (out == Err(NoDevice) <==> s.now < base.until && d !in s.orders && d !in s.devices)
            && (out == Err(IllegalState) <==>
                  s.now < base.until && (d in s.orders || (d in s.devices && s.devices[d].state != Ready)))
            && (out == Err(BadOrderDetails) <==>
                  && s.now < base.until && d !in s.orders && d in s.devices && s.devices[d].state == Ready
                  && base.until < (s.now + s.devices[d].wcd) % U64)
            && (out == Err(DeviceLowBail) <==>
                  Hireable(s, d, base.until) && Free(s.accounts, who) < base.fee)
            && (out == Err(InsufficientBalance) <==>
                  && Hireable(s, d, base.until) && base.fee <= Free(s.accounts, who)
                  && !Affordable(s.accounts, d, who, base.fee, s.devices[d].penalty))
            && (out == Err(CannotReachDestination) <==>
                  && Hireable(s, d, base.until) && !reach
                  && Affordable(s.accounts, d, who, base.fee, s.devices[d].penalty))
  {
    if base.device in s.devices {
      HoldIff(s.accounts, base.device, who, base.fee, s.devices[base.device].penalty);
    }
  }

  // ----- Rejection and cancel ----------------------------------------------------------------------

  /** The penalty of the order's device, if it is late, can be credited to its client. */
  predicate Refundable(s: Chain, d: AccountId)
    requires d in s.devices && d in s.orders
  {
    var o := s.orders[d];
    s.now < o.until || s.devices[d].penalty == 0 || o.client == d || Exists(s.accounts, o.client)
  }

  /** The order is closed with this event, and the device is as it is given here. */
  predicate Closes(s: Chain, reply: Reply, d: AccountId, state: DeviceState, event: Event)
    requires d in s.devices
  {
    var dev := s.devices[d];
    && reply.chain == s.(orders := s.orders - {d},
                         devices := s.devices[d := Device(state, dev.penalty, dev.wcd, dev.paraid)],
                         events := s.events + [event],
                         accounts := reply.chain.accounts)
    && reply.sent == None
  }

  /** All the money of the order for d is settled, the fee for the account `earner`. */
  ghost predicate Settles(s: Chain, l': Accounts, d: AccountId, earner: AccountId)
    requires d in s.devices && d in s.orders
  {
    var o := s.orders[d];
    SettledFor(s.accounts, l', d, o.client, earner, o.fee, s.devices[d].penalty, o.until <= s.now)
  }

  lemma RejectedIff(s: Chain, who: AccountId, d: AccountId, dev: Device)
    requires Issuance(s.accounts) < U128
    requires d in s.orders && d in s.devices && dev == s.devices[d].(state := dev.state)
    ensures var reply := OrderRejected(s, who, s.orders[d], d, dev);
            && (reply.out == Ok <==> Refundable(s, d))
            && (reply.out == Ok ==> Closes(s, reply, d, dev.state, Rejected(who, d)))
            && (reply.out.Err? ==>
                  && reply == Reply(s.(accounts := reply.chain.accounts), Err(DeadAccount), None)
                  && (who == s.orders[d].client ==> reply.chain == s))
            && (reply.out == Ok && who == s.orders[d].client && Holds(s.accounts, d, CL.Deals(s)[d]) ==>
                  Settles(s, reply.chain.accounts, d, s.orders[d].client))
  {
    var o := s.orders[d];
    RefundToIff(s.accounts, d, who, o.client, o.fee, dev.penalty, s.now >= o.until);
    RefundTears(s.accounts, d, who, o.client, o.fee, dev.penalty, s.now >= o.until);
    if who == o.client && Holds(s.accounts, d, CL.Deals(s)[d]) {
      SettledInFull(s.accounts, d, CL.Deals(s)[d], s.now >= o.until);
    }
  }

  /** The client, and nobody else, can cancel from the deadline on, if it can be credited the penalty; the device
      is left as it was. */
  lemma CancelIff(s: Chain, who: AccountId, d: AccountId)
    requires Issuance(s.accounts) < U128
    ensures var reply := Serve(s, Cancel(who, d));
            && (reply.out == Ok <==>
                  && d in s.orders && s.orders[d].client == who && s.orders[d].until <= s.now
                  && d in s.devices && Refundable(s, d))
            && (reply.out == Ok ==> Closes(s, reply, d, s.devices[d].state, Rejected(who, d)))
            && (reply.out == Ok && Holds(s.accounts, d, CL.Deals(s)[d]) ==>
                  Settles(s, reply.chain.accounts, d, s.orders[d].client))
            && (reply.out.Err? ==>
                  reply == Reply(s, Err(if d !in s.orders then NoOrder
                                        else if s.orders[d].client != who || s.now < s.orders[d].until then Prohibited
                                        else if d !in s.devices then NoDevice else DeadAccount), None))
  {
    if d in s.orders && d in s.devices {
      RejectedIff(s, who, d, s.devices[d]);
    }
  }

  /** A rejection is obeyed, whatever account it names, if and only if there is an order to close and the client
      can be credited the penalty; the device is then on or off as the message says. */
  lemma RejectIff(s: Chain, who: AccountId, d: AccountId, onoff: bool)
    requires Issuance(s.accounts) < U128
    ensures var reply := Serve(s, Receive(OrderReject(who, d, onoff)));
            && (reply.out == Ok <==> d in s.orders && d in s.devices && Refundable(s, d))
            && (reply.out == Ok ==> Closes(s, reply, d, if onoff then Ready else Off, Rejected(who, d)))
            && (reply.out == Ok && who == s.orders[d].client && Holds(s.accounts, d, CL.Deals(s)[d]) ==>
                  Settles(s, reply.chain.accounts, d, s.orders[d].client))
            && (reply.out.Err? ==>
                  && reply == Reply(s.(accounts := reply.chain.accounts),
                                    Err(if d !in s.orders then NoOrder
                                        else if d !in s.devices then NoDevice else DeadAccount), None)
                  && (d in s.orders && who == s.orders[d].client ==> reply.chain == s))
  {
    if d in s.orders && d in s.devices {
      RejectedIff(s, who, d, s.devices[d].(state := OnOff(onoff)));
    }
  }

  // ----- Completion --------------------------------------------------------------------------------

  /** A completion is obeyed, whatever account it names, if and only if there is an order to close and device and
      payer can be credited; the device is then on or off as the message says. */
  lemma DoneIff(s: Chain, who: AccountId, d: AccountId, onoff: bool)
    requires Issuance(s.accounts) < U128
    ensures var reply := Serve(s, Receive(OrderDone(who, d, onoff)));
            && (reply.out == Ok <==>
                  && d in s.orders && d in s.devices
                  && CanPay(s.accounts, d, who, s.orders[d].fee, s.devices[d].penalty, s.orders[d].until <= s.now))
            && (reply.out == Ok ==> Closes(s, reply, d, if onoff then Ready else Off, Completed(who, d)))
            && (reply.out == Ok && who == s.orders[d].client && Holds(s.accounts, d, CL.Deals(s)[d]) ==>
                  Settles(s, reply.chain.accounts, d, d))
            && (reply.out.Err? ==>
                  reply == Reply(s.(accounts := reply.chain.accounts),
                                 Err(if d !in s.orders then NoOrder
                                     else if d !in s.devices then NoDevice else DeadAccount), None))
  {
    if d in s.orders && d in s.devices {
      var o := s.orders[d];
      PayIff(s.accounts, d, who, o.fee, s.devices[d].penalty, s.now >= o.until);
      if who == o.client && Holds(s.accounts, d, CL.Deals(s)[d]) {
        SettledInFull(s.accounts, d, CL.Deals(s)[d], s.now >= o.until);
      }
    }
  }

  // ----- The rest ----------------------------------------------------------------------------------

  /** Word of an acceptance is passed on as an event and changes nothing else; a new order is not for this
      pallet. */
  lemma OtherMessages(s: Chain, who: AccountId, d: AccountId, base: OrderBase)
    ensures Serve(s, Receive(OrderAccept(who, d))) ==
            Reply(s.(events := s.events + [Accepted(who, d)]), Ok, None)
    ensures Serve(s, Receive(NewOrder(who, base))) == Reply(s, Ok, None)
  {
  }

  /** A device can register, anew or for the first time, if and only if it has no order. */
  lemma RegisterIff(s: Chain, d: AccountId, paraid: ParaId, penalty: Balance, wcd: Moment, onoff: bool)
    ensures Serve(s, Register(d, paraid, penalty, wcd, onoff)) ==
            if d in s.orders then Reply(s, Err(DeviceExists), None)
            else Reply(s.(devices := s.devices[d := Device(if onoff then Ready else Off, penalty, wcd, paraid)],
                          events := s.events + [Registered(d)]), Ok, None)
  {
  }

  /** The clock only goes forward. */
  lemma TickIff(s: Chain, to: Moment)
    ensures Serve(s, Tick(to)) == Reply(s.(now := if s.now <= to then to else s.now), Ok, None)
  {
  }
}
