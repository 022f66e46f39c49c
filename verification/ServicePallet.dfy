/** The service pallet with its storage, doing its work step by step. Each call is proved to do to the
    chain, on every input, what the Service module says. */
module ServicePallet {
  import opened Common
  import opened Ledger
  import opened Accounting
  import Service
  import SL = ServiceLedger

  class Pallet {
    const self: ParaId
    const currency: Balances
    var now: Moment
    var orders: map<AccountId, Order>
    var devices: map<AccountId, Service.Device>
    var events: seq<Service.Event>
    var outbox: seq<Envelope>
    ghost var log: seq<Service.Record>

    ghost function Chain(): Service.Chain
      reads this, currency
    {
      Service.Chain(self, now, orders, devices, currency.accounts, log)
    }

    /** The call has answered `out` and left the chain and the outbox as the reply says, and the events
        deposited keep up with the log. */
    twostate predicate Did(reply: Service.Reply, out: Outcome)
      reads this, currency
    {
      && Chain() == reply.chain
      && out == reply.out
      && outbox == old(outbox) + Posted(reply.sent)
      && (old(events == Service.Events(log)) ==> events == Service.Events(log))
    }

    constructor (self: ParaId, currency: Balances)
      requires Issuance(currency.accounts) < U128
      ensures Service.Genesis(Chain()) && outbox == [] && events == Service.Events(log)
      ensures this.self == self && this.currency == currency
    {
      this.self, this.currency := self, currency;
      now, orders, devices, events, outbox, log := 0, map[], map[], [], [], [];
    }

    method SetTimestamp(to: Moment)
      modifies this`now
      ensures Did(Service.Serve(old(Chain()), Service.Tick(to)), Ok)
    {
      if to >= now { now := to; }
    }

    /** A call to the pallet, dispatched. It keeps the invariant of the chain; it is a step of the escrow
        machine, and an error leaves the chain as it was, except for the torn calls. */
    method Dispatch(call: Service.Call) returns (out: Outcome)
      requires SL.Inv(Chain())
      modifies this, currency
      ensures SL.Inv(Chain())
      ensures var reply := Service.Serve(old(Chain()), call);
              Did(reply, reply.out) && (!call.Receive? ==> out == reply.out)
      ensures !SL.Torn(old(Chain()), call) ==>
                && Clean(SL.BooksOf(old(Chain())), SL.StepOf(old(Chain()), call), SL.BooksOf(Chain()))
                && (out.Err? ==> Chain() == old(Chain()))
    {
      ghost var before := Chain();
      SL.InvKept(before, call);
      SL.CallSettles(before, call);
      out := Ok;
      match call {
        case PlaceOrder(who, base, answer, reach) => out := PlaceOrder(who, base, answer, reach);
        case Cancel(who, device, reach) => out := Cancel(who, device, reach);
        case Accept(who, reject, onoff, reach) => out := Accept(who, reject, onoff, reach);
        case Done(who, onoff, reach) => out := Done(who, onoff, reach);
        case Register(who, penalty, wcd, onoff) => out := Register(who, penalty, wcd, onoff);
        case SetState(who, onoff) => out := SetState(who, onoff);
        case Receive(sender, message, answer, reach) => HandleBlobMessage(sender, message, answer, reach);
        case Tick(to) => SetTimestamp(to);
      }
    }

    method PlaceOrder(who: AccountId, base: OrderBase, answer: Answer, reach: bool) returns (out: Outcome)
      modifies this, currency
      ensures Did(Service.Serve(old(Chain()), Service.PlaceOrder(who, base, answer, reach)), out)
    {
      var order := Order(base.until, base.data, base.fee, who, self);
      out := OrderReceived(order, base.device, answer, reach);
    }

    method Cancel(who: AccountId, device: AccountId, reach: bool) returns (out: Outcome)
      modifies this, currency
      ensures Did(Service.Serve(old(Chain()), Service.Cancel(who, device, reach)), out)
    {
      if device !in orders { return Err(NoOrder); }
      var order := orders[device];
      if now < order.until || order.client != who { return Err(Prohibited); }
      if device !in devices { return Err(NoDevice); }
      var dev := devices[device];
      out := OrderReject(Some(order), device, dev, false, true, reach);
    }

    method Accept(who: AccountId, reject: bool, onoff: bool, reach: bool) returns (out: Outcome)
      modifies this, currency
      ensures Did(Service.Serve(old(Chain()), Service.Accept(who, reject, onoff, reach)), out)
    {
      var order := if who in orders then Some(orders[who]) else None;
      if who !in devices { return Err(NoDevice); }
      var dev := devices[who];
      if reject {
        if !(dev.state == Busy || dev.state == Busy2) { return Err(IllegalState); }
        dev := dev.(state := if onoff then Ready else Off);
        out := OrderReject(order, who, dev, onoff, false, reach);
        return;
      }
      if dev.state != Busy { return Err(IllegalState); }
      if order == None { return Err(NoOrder); }
      if now >= order.value.until { return Err(Overdue); }
      OrderAccept(order.value, who, dev, reach);
      return Ok;
    }

    method Done(who: AccountId, onoff: bool, reach: bool) returns (out: Outcome)
      modifies this, currency
      ensures Did(Service.Serve(old(Chain()), Service.Done(who, onoff, reach)), out)
    {
      if who !in devices { return Err(NoDevice); }
      var dev := devices[who];
      if dev.state != Busy2 { return Err(IllegalState); }
      if who !in orders { return Err(NoOrder); }
      var order := orders[who];
      orders := orders - {who};
      out := OrderDone(order, who, dev, onoff, reach);
    }

    method Register(who: AccountId, penalty: Balance, wcd: Moment, onoff: bool) returns (out: Outcome)
      modifies this
      ensures Did(Service.Serve(old(Chain()), Service.Register(who, penalty, wcd, onoff)), out)
    {
      if who in orders { return Err(DeviceExists); }
      devices := devices[who := Service.Device(if onoff then Ready else Off, penalty, wcd)];
      Deposit(Service.Registered, who, None, penalty, false);
      return Ok;
    }

    method SetState(who: AccountId, onoff: bool) returns (out: Outcome)
      modifies this
      ensures Did(Service.Serve(old(Chain()), Service.SetState(who, onoff)), out)
    {
      if who !in devices { return Err(NoDevice); }
      var dev := devices[who];
      match (onoff, dev.state) {
        case (false, Ready) => dev := dev.(state := Off);
        case (false, Off) => dev := dev.(state := Off);
        case (true, Off) => dev := dev.(state := Ready);
        case _ => return Err(IllegalState);
      }
      devices := devices[who := dev];
      return Ok;
    }

    method HandleBlobMessage(sender: ParaId, message: Message, answer: Answer, reach: bool)
      modifies this, currency
      ensures var reply := Service.Serve(old(Chain()), Service.Receive(sender, message, answer, reach));
              Did(reply, reply.out)
    {
      match message {
        case NewOrder(client, base) =>
          var order := Order(base.until, base.data, base.fee, client, sender);
          var _ := OrderReceived(order, base.device, answer, reach);
        case _ =>
      }
    }

    method OrderReceived(order: Order, device: AccountId, answer: Answer, reach: bool) returns (out: Outcome)
      modifies this, currency
      ensures Did(Service.OrderReceived(old(Chain()), order, device, answer, reach), out)
    {
      if now >= order.until { return Err(Overdue); }
      if device in orders { return Err(IllegalState); }
      if device !in devices { return Err(NoDevice); }
      var dev := devices[device];
      if dev.state != Ready { return Err(IllegalState); }
      if order.until < WrapAdd(now, dev.wcd) { return Err(BadOrderDetails); }
      if answer == None { return Err(IllegalState); }
      dev := dev.(state := answer.value);
      if order.paraid == self {
        var covered := currency.CanReserve(order.client, order.fee);
        if !covered { return Err(DeviceLowBail); }
        out := currency.TryReserve(device, dev.penalty);
        if out.Err? { return; }
        out := currency.TryReserve(order.client, order.fee);
        if out.Err? { return; }
      }
      orders := orders[device := order];
      Deposit(Service.Placed, device, Some(order), dev.penalty, false);
      if dev.state == Busy2 {
        OrderAccept(order, device, dev, reach);
      } else {
        devices := devices[device := dev];
      }
      return Ok;
    }

    method OrderDone(order: Order, device: AccountId, dev: Service.Device, onoff: bool, reach: bool)
      returns (out: Outcome)
      modifies this, currency
      ensures Did(Service.OrderCompleted(old(Chain()), order, device, dev, onoff, reach), out)
    {
      devices := devices[device := dev.(state := if onoff then Ready else Off)];
      if order.paraid == self {
        out := currency.TryRepatriate(order.client, device, order.fee);
        if out.Err? { return; }
        if now < order.until {
          var _ := currency.Release(device, dev.penalty);
        } else {
          out := currency.TryRepatriate(device, order.client, dev.penalty);
          if out.Err? { return; }
        }
      } else {
        if !reach { return Err(CannotReachDestination); }
        outbox := outbox + [Envelope(order.paraid, Message.OrderDone(order.client, device, onoff))];
      }
      Deposit(Service.Completed, device, Some(order), dev.penalty, false);
      return Ok;
    }

    /** A message that cannot be sent is not an error here. */
    method OrderAccept(order: Order, device: AccountId, dev: Service.Device, reach: bool)
      modifies this
      ensures Did(Service.OrderAccepted(old(Chain()), order, device, dev, reach), Ok)
    {
      devices := devices[device := dev.(state := Busy2)];
      if order.paraid != self && reach {
        outbox := outbox + [Envelope(order.paraid, Message.OrderAccept(order.client, device))];
      }
      Deposit(Service.Accepted, device, Some(order), dev.penalty, false);
    }

    method OrderReject(order: Option<Order>, device: AccountId, dev: Service.Device,
                       onoff: bool, ghost byClient: bool, reach: bool)
      returns (out: Outcome)
      modifies this, currency
      ensures Did(Service.OrderRejected(old(Chain()), order, device, dev, onoff, byClient, reach), out)
    {
      if order.Some? {
        var o := order.value;
        if o.paraid == self {
          var _ := currency.Release(o.client, o.fee);
          if now < o.until {
            var _ := currency.Release(device, dev.penalty);
          } else {
            out := currency.TryRepatriate(device, o.client, dev.penalty);
            if out.Err? { return; }
          }
        } else {
          if !reach { return Err(CannotReachDestination); }
          outbox := outbox + [Envelope(o.paraid, Message.OrderReject(o.client, device, onoff))];
        }
      }
      orders := orders - {device};
      devices := devices[device := dev];
      Deposit(Service.Rejected, device, order, dev.penalty, byClient);
      return Ok;
    }

    method Deposit(fact: Service.Fact, device: AccountId, order: Option<Order>, penalty: Balance, ghost byClient: bool)
      modifies this`events, this`log
      ensures old(events == Service.Events(log)) ==> events == Service.Events(log)
      ensures Chain() == Service.Post(old(Chain()), Service.Record(fact, device, order, now, penalty, byClient))
    {
      events := events + [Service.Event(fact, device)];
      log := log + [Service.Record(fact, device, order, now, penalty, byClient)];
    }
  }
}
