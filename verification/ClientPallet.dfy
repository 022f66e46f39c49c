/** The client pallet with its storage, doing its work step by step. Each call is proved to do to the
    chain, on every input, what the Client module says. */
module ClientPallet {
  import opened Common
  import opened Ledger
  import opened Accounting
  import Client
  import CL = ClientLedger
  import CT = ClientTheorems

  class Pallet {
    const currency: Balances
    var now: Moment
    var orders: map<AccountId, Order>
    var devices: map<AccountId, Client.Device>
    var events: seq<Client.Event>
    var outbox: seq<Envelope>

    ghost function Chain(): Client.Chain
      reads this, currency
    {
      Client.Chain(now, orders, devices, currency.accounts, events)
    }

    /** The call has answered `out` and left the chain and the outbox as the reply says. */
    twostate predicate Did(reply: Client.Reply, out: Outcome)
      reads this, currency
    {
      && Chain() == reply.chain
      && out == reply.out
      && outbox == old(outbox) + Posted(reply.sent)
    }

    constructor (currency: Balances)
      requires Issuance(currency.accounts) < U128
      ensures Client.Genesis(Chain()) && outbox == []
      ensures this.currency == currency
    {
      this.currency := currency;
      now, orders, devices, events, outbox := 0, map[], map[], [], [];
    }

    method SetTimestamp(to: Moment)
      modifies this`now
      ensures Did(Client.Serve(old(Chain()), Client.Tick(to)), Ok)
    {
      if to >= now { now := to; }
    }

    /** A call to the pallet, dispatched. Whatever account a message names, the call keeps the shape of the
        storage and all the money, and an error leaves the chain as it was, except for the torn calls. From a
        backed chain a call whose message, if it is one, names the order's client keeps the invariant unless
        it pays only half, and is then a step of the escrow machine unless it overcommits. */
    method Dispatch(call: Client.Call) returns (out: Outcome)
      requires CL.Sound(Chain())
      modifies this, currency
      ensures CL.Sound(Chain()) && Issuance(currency.accounts) == old(Issuance(currency.accounts))
      ensures var reply := Client.Serve(old(Chain()), call);
              && Did(reply, reply.out) && (!call.Receive? ==> out == reply.out)
              && (reply.out.Err? && Chain() != old(Chain()) <==> CL.Torn(old(Chain()), call))
      ensures old(CL.Inv(Chain())) && CL.Faithful(old(Chain()), call) ==>
                (CL.Inv(Chain()) <==> !CL.HalfPays(old(Chain()), call))
      ensures old(CL.Inv(Chain())) && CL.Faithful(old(Chain()), call) && !CL.HalfPays(old(Chain()), call)
                && !CL.Overcommits(old(Chain()), call) ==>
                Clean(CL.BooksOf(old(Chain())), CL.StepOf(old(Chain()), call), CL.BooksOf(Chain()))
    {
      ghost var before := Chain();
      CL.ShapeKept(before, call);
      CL.Conserves(before, call);
      CL.TornIff(before, call);
      if CL.Inv(before) && CL.Faithful(before, call) {
        CT.InvKeptIff(before, call);
        CT.RefinesEscrow(before, call);
      }
      out := Ok;
      match call {
        case PlaceOrder(who, base, reach) => out := PlaceOrder(who, base, reach);
        case Cancel(who, device) => out := Cancel(who, device);
        case Register(who, paraid, penalty, wcd, onoff) => out := Register(who, paraid, penalty, wcd, onoff);
        case Receive(message) => HandleBlobMessage(message);
        case Tick(to) => SetTimestamp(to);
      }
    }

    method PlaceOrder(who: AccountId, base: OrderBase, reach: bool) returns (out: Outcome)
      modifies this, currency
      ensures Did(Client.Serve(old(Chain()), Client.PlaceOrder(who, base, reach)), out)
    {
      if now >= base.until { return Err(Overdue); }
      if base.device in orders { return Err(IllegalState); }
      if base.device !in devices { return Err(NoDevice); }
      var dev := devices[base.device];
      if dev.state != Ready { return Err(IllegalState); }
      if base.until < WrapAdd(now, dev.wcd) { return Err(BadOrderDetails); }
      var covered := currency.CanReserve(who, base.fee);
      if !covered { return Err(DeviceLowBail); }
      out := currency.TryReserve(base.device, dev.penalty);
      if out.Err? { return; }
      out := currency.TryReserve(who, base.fee);
      if out.Err? { return; }
      var device := base.device;
      var order := base.Convert(who);
      orders := orders[device := order];
      var message := NewOrder(who, ConvertBack(order, device));
      if !reach { return Err(CannotReachDestination); }
      outbox := outbox + [Envelope(dev.paraid, message)];
      dev := dev.(state := Busy);
      devices := devices[device := dev];
      events := events + [Client.Placed(who, device)];
      return Ok;
    }

    method Cancel(who: AccountId, device: AccountId) returns (out: Outcome)
      modifies this, currency
      ensures Did(Client.Serve(old(Chain()), Client.Cancel(who, device)), out)
    {
      if device !in orders { return Err(NoOrder); }
      var order := orders[device];
      if now < order.until || order.client != who { return Err(Prohibited); }
      if device !in devices { return Err(NoDevice); }
      var dev := devices[device];
      out := Reject(who, order, device, dev);
    }

    method Register(who: AccountId, paraid: ParaId, penalty: Balance, wcd: Moment, onoff: bool) returns (out: Outcome)
      modifies this
      ensures Did(Client.Serve(old(Chain()), Client.Register(who, paraid, penalty, wcd, onoff)), out)
    {
      if who in orders { return Err(DeviceExists); }
      devices := devices[who := Client.Device(if onoff then Ready else Off, penalty, wcd, paraid)];
      events := events + [Client.Registered(who)];
      return Ok;
    }

    method HandleBlobMessage(message: Message)
      modifies this, currency
      ensures var reply := Client.Serve(old(Chain()), Client.Receive(message)); Did(reply, reply.out)
    {
      match message {
        case OrderAccept(client, device) => OnAccept(client, device);
        case OrderReject(client, device, onoff) => var _ := OnReject(client, device, onoff);
        case OrderDone(client, device, onoff) => var _ := OnDone(client, device, onoff);
        case NewOrder(_, _) =>
      }
    }

    method OnAccept(who: AccountId, device: AccountId)
      modifies this`events
      ensures Did(Client.ReceiveCall(old(Chain()), Message.OrderAccept(who, device)), Ok)
    {
      events := events + [Client.Accepted(who, device)];
    }

    method OnReject(who: AccountId, device: AccountId, onoff: bool) returns (out: Outcome)
      modifies this, currency
      ensures Did(Client.OnReject(old(Chain()), who, device, onoff), out)
    {
      if device !in orders { return Err(NoOrder); }
      var order := orders[device];
      if device !in devices { return Err(NoDevice); }
      var dev := devices[device];
      dev := dev.(state := if !onoff then Off else Ready);
      out := Reject(who, order, device, dev);
    }

    method OnDone(who: AccountId, device: AccountId, onoff: bool) returns (out: Outcome)
      modifies this, currency
      ensures Did(Client.OnDone(old(Chain()), who, device, onoff), out)
    {
      if device !in orders { return Err(NoOrder); }
      var order := orders[device];
      if device !in devices { return Err(NoDevice); }
      var dev := devices[device];
      out := currency.TryRepatriate(who, device, order.fee);
      if out.Err? { return; }
      if now < order.until {
        var _ := currency.Release(device, dev.penalty);
      } else {
        out := currency.TryRepatriate(device, who, dev.penalty);
        if out.Err? { return; }
      }
      orders := orders - {device};
      dev := dev.(state := if !onoff then Off else Ready);
      devices := devices[device := dev];
      events := events + [Client.Completed(who, device)];
      return Ok;
    }

    method Reject(who: AccountId, order: Order, device: AccountId, dev: Client.Device) returns (out: Outcome)
      modifies this, currency
      ensures Did(Client.OrderRejected(old(Chain()), who, order, device, dev), out)
    {
      var _ := currency.Release(who, order.fee);
      if now < order.until {
        var _ := currency.Release(device, dev.penalty);
      } else {
        out := currency.TryRepatriate(device, order.client, dev.penalty);
        if out.Err? { return; }
      }
      orders := orders - {device};
      devices := devices[device := dev];
      events := events + [Client.Rejected(who, device)];
      return Ok;
    }
  }
}
