/** The client chain as a state and what each call does to it. Here too an error keeps the writes made
    before it, and the result of handling a message is thrown away. */
module Client {
  import opened Common
  import opened Ledger
  import opened Escrow

  datatype Device = Device(state: DeviceState, penalty: Balance, wcd: Moment, paraid: ParaId)

  datatype Event =
    | Registered(device: AccountId)
    | Placed(client: AccountId, device: AccountId)
    | Accepted(client: AccountId, device: AccountId)
    | Rejected(client: AccountId, device: AccountId)
    | Completed(client: AccountId, device: AccountId)

  datatype Chain = Chain(
    now: Moment,
    orders: map<AccountId, Order>,
    devices: map<AccountId, Device>,
    accounts: Accounts,
    events: seq<Event>)

  datatype Reply = Reply(chain: Chain, out: Outcome, sent: Option<Envelope>)

  datatype Call =
    | PlaceOrder(who: AccountId, base: OrderBase, reach: bool)
    | Cancel(who: AccountId, device: AccountId)
    | Register(who: AccountId, paraid: ParaId, penalty: Balance, wcd: Moment, onoff: bool)
    | Receive(message: Message)
    | Tick(to: Moment)

  function Post(s: Chain, e: Event): Chain {
    s.(events := s.events + [e])
  }

  function TermsOf(s: Chain, d: AccountId): Option<Terms> {
    if d in s.orders && d in s.devices
    then Some(Terms(s.orders[d], s.devices[d].penalty, s.devices[d].wcd)) else None
  }

  function Fail(s: Chain, e: Error): Reply {
    Reply(s, Err(e), None)
  }

  /** The first check that a new order fails, if any. */
  function Refusal(s: Chain, base: OrderBase): Option<Error> {
    if s.now >= base.until then Some(Overdue)
    else if base.device in s.orders then Some(IllegalState)
    else if base.device !in s.devices then Some(NoDevice)
    else if s.devices[base.device].state != Ready then Some(IllegalState)
    else if base.until < WrapAdd(s.now, s.devices[base.device].wcd) then Some(BadOrderDetails)
    else None
  }

  /** The order is filed before it is sent; the device becomes busy only once it has been sent. */
  function PlaceCall(s: Chain, who: AccountId, base: OrderBase, reach: bool): Reply {
    var refusal := Refusal(s, base);
    if refusal.Some? then Fail(s, refusal.value)
    else
      var d := base.device;
      var dev := s.devices[d];
      var b := Hold(s.accounts, d, who, base.fee, dev.penalty);
      var s1 := s.(accounts := b.accounts);
      if b.out.Err? then Reply(s1, b.out, None)
      else
        var order := base.Convert(who);
        var s2 := s1.(orders := s.orders[d := order]);
        if !reach then Fail(s2, CannotReachDestination)
        else Reply(Post(s2.(devices := s.devices[d := dev.(state := Busy)]), Placed(who, d)), Ok,
                   Some(Envelope(dev.paraid, NewOrder(who, ConvertBack(order, d)))))
  }

  /** `who` is the account that is refunded the fee; the order's client is the one that is due a penalty. */
  function OrderRejected(s: Chain, who: AccountId, order: Order, d: AccountId, dev: Device): Reply {
    var b := Refund(s.accounts, d, who, order.client, order.fee, dev.penalty, s.now >= order.until);
    var s1 := s.(accounts := b.accounts);
    if b.out.Err? then Reply(s1, b.out, None)
    else Reply(Post(s1.(orders := s.orders - {d}, devices := s.devices[d := dev]), Rejected(who, d)), Ok, None)
  }

  function CancelCall(s: Chain, who: AccountId, d: AccountId): Reply {
    if d !in s.orders then Fail(s, NoOrder)
    else if s.now < s.orders[d].until || s.orders[d].client != who then Fail(s, Prohibited)
    else if d !in s.devices then Fail(s, NoDevice)
    else OrderRejected(s, who, s.orders[d], d, s.devices[d])
  }

  function RegisterCall(s: Chain, d: AccountId, paraid: ParaId, penalty: Balance, wcd: Moment, onoff: bool): Reply {
    if d in s.orders then Fail(s, DeviceExists)
    else Reply(Post(s.(devices := s.devices[d := Device(OnOff(onoff), penalty, wcd, paraid)]), Registered(d)), Ok, None)
  }

  /** The account that a rejection names is taken for the client, unchecked. */
  function OnReject(s: Chain, who: AccountId, d: AccountId, onoff: bool): Reply {
    if d !in s.orders then Fail(s, NoOrder)
    else if d !in s.devices then Fail(s, NoDevice)
    else OrderRejected(s, who, s.orders[d], d, s.devices[d].(state := OnOff(onoff)))
  }

  /** The account that a completion names is taken for the client, unchecked. */
  function OnDone(s: Chain, who: AccountId, d: AccountId, onoff: bool): Reply {
    if d !in s.orders then Fail(s, NoOrder)
    else if d !in s.devices then Fail(s, NoDevice)
    else
      var order, dev := s.orders[d], s.devices[d];
      var b := Pay(s.accounts, d, who, order.fee, dev.penalty, s.now >= order.until);
      var s1 := s.(accounts := b.accounts);
      if b.out.Err? then Reply(s1, b.out, None)
      else Reply(Post(s1.(orders := s.orders - {d}, devices := s.devices[d := dev.(state := OnOff(onoff))]),
                      Completed(who, d)), Ok, None)
  }

  function ReceiveCall(s: Chain, m: Message): Reply {
    match m
    case OrderAccept(client, d) => Reply(Post(s, Accepted(client, d)), Ok, None)
    case OrderReject(client, d, onoff) => OnReject(s, client, d, onoff)
    case OrderDone(client, d, onoff) => OnDone(s, client, d, onoff)
    case NewOrder(_, _) => Reply(s, Ok, None)
  }

  function Serve(s: Chain, call: Call): Reply {
    match call
    case PlaceOrder(who, base, reach) => PlaceCall(s, who, base, reach)
    case Cancel(who, d) => CancelCall(s, who, d)
    case Register(who, paraid, penalty, wcd, onoff) => RegisterCall(s, who, paraid, penalty, wcd, onoff)
    case Receive(m) => ReceiveCall(s, m)
    case Tick(to) => Reply(if to >= s.now then s.(now := to) else s, Ok, None)
  }

  ghost predicate Genesis(s: Chain) {
    s.orders == map[] && s.devices == map[] && s.events == [] && Issuance(s.accounts) < U128
  }
}
