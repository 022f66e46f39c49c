/** The service chain as a state and what each call does to it. A call that returns an error keeps the
    writes it made before, because no dispatchable is transactional. */
module Service {
  import opened Common
  import opened Ledger
  import opened Escrow

  datatype Device = Device(state: DeviceState, penalty: Balance, wcd: Moment)

  datatype Fact = Registered | Placed | Accepted | Rejected | Completed

  /** An event as deposited. */
  datatype Event = Event(fact: Fact, device: AccountId)

  /** An event together with what was on chain at that moment: the order it was about, the time, the
      device's penalty, and for a rejection whether the client's cancel caused it. */
  datatype Record = Record(fact: Fact, device: AccountId, order: Option<Order>,
                           at: Moment, penalty: Balance, byClient: bool)

  datatype Chain = Chain(
    self: ParaId,
    now: Moment,
    orders: map<AccountId, Order>,
    devices: map<AccountId, Device>,
    accounts: Accounts,
    log: seq<Record>)

  datatype Reply = Reply(chain: Chain, out: Outcome, sent: Option<Envelope>)

  /** Everything that can happen on the chain. `answer` is what the callback says about a new order,
      `reach` whether a message can be sent. */
  datatype Call =
    | PlaceOrder(who: AccountId, base: OrderBase, answer: Answer, reach: bool)
    | Cancel(who: AccountId, device: AccountId, reach: bool)
    | Accept(who: AccountId, reject: bool, onoff: bool, reach: bool)
    | Done(who: AccountId, onoff: bool, reach: bool)
    | Register(who: AccountId, penalty: Balance, wcd: Moment, onoff: bool)
    | SetState(who: AccountId, onoff: bool)
    | Receive(sender: ParaId, message: Message, answer: Answer, reach: bool)
    | Tick(to: Moment)

  function Events(log: seq<Record>): seq<Event> {
    seq(|log|, i requires 0 <= i < |log| => Event(log[i].fact, log[i].device))
  }

  function Post(s: Chain, r: Record): Chain {
    s.(log := s.log + [r])
  }

  function TermsOf(s: Chain, d: AccountId): Option<Terms> {
    if d in s.orders && d in s.devices
    then Some(Terms(s.orders[d], s.devices[d].penalty, s.devices[d].wcd)) else None
  }

  function Fail(s: Chain, e: Error): Reply {
    Reply(s, Err(e), None)
  }

  function Send(reach: bool, to: ParaId, message: Message): Option<Envelope> {
    if reach then Some(Envelope(to, message)) else None
  }

  function LocalOrder(s: Chain, client: AccountId, base: OrderBase): Order {
    Order(base.until, base.data, base.fee, client, s.self)
  }

  /** The first check that a new order fails, if any. */
  function Refusal(s: Chain, order: Order, d: AccountId, answer: Answer): Option<Error> {
    if s.now >= order.until then Some(Overdue)
    else if d in s.orders then Some(IllegalState)
    else if d !in s.devices then Some(NoDevice)
    else if s.devices[d].state != Ready then Some(IllegalState)
    else if order.until < WrapAdd(s.now, s.devices[d].wcd) then Some(BadOrderDetails)
    else if answer == None then Some(IllegalState)
    else None
  }

  function OrderReceived(s: Chain, order: Order, d: AccountId, answer: Answer, reach: bool): Reply {
    var refusal := Refusal(s, order, d, answer);
    if refusal.Some? then Fail(s, refusal.value)
    else
      var dev := s.devices[d];
      var b := if order.paraid == s.self then Hold(s.accounts, d, order.client, order.fee, dev.penalty)
               else Booking(s.accounts, Ok);
      var s1 := s.(accounts := b.accounts);
      if b.out.Err? then Reply(s1, b.out, None)
      else
        var s2 := Post(s1.(orders := s.orders[d := order]),
                       Record(Placed, d, Some(order), s.now, dev.penalty, false));
        if answer == Some(Busy2) then OrderAccepted(s2, order, d, dev, reach)
        else Reply(s2.(devices := s.devices[d := dev.(state := answer.value)]), Ok, None)
  }

  function OrderAccepted(s: Chain, order: Order, d: AccountId, dev: Device, reach: bool): Reply {
    Reply(Post(s.(devices := s.devices[d := dev.(state := Busy2)]),
               Record(Accepted, d, Some(order), s.now, dev.penalty, false)),
          Ok,
          if order.paraid == s.self then None else Send(reach, order.paraid, OrderAccept(order.client, d)))
  }

  /** Called with the order already taken out of the storage. */
  function OrderCompleted(s: Chain, order: Order, d: AccountId, dev: Device, onoff: bool, reach: bool): Reply {
    var s1 := s.(devices := s.devices[d := dev.(state := OnOff(onoff))]);
    var fact := Record(Completed, d, Some(order), s.now, dev.penalty, false);
    if order.paraid == s.self then
      var b := Pay(s.accounts, d, order.client, order.fee, dev.penalty, s.now >= order.until);
      var s2 := s1.(accounts := b.accounts);
      if b.out.Err? then Reply(s2, b.out, None) else Reply(Post(s2, fact), Ok, None)
    else if !reach then Fail(s1, CannotReachDestination)
    else Reply(Post(s1, fact), Ok, Some(Envelope(order.paraid, OrderDone(order.client, d, onoff))))
  }

  function OrderRejected(s: Chain, order: Option<Order>, d: AccountId, dev: Device,
                         onoff: bool, byClient: bool, reach: bool): Reply {
    var local := order.Some? && order.value.paraid == s.self;
    var b := if local
             then Refund(s.accounts, d, order.value.client, order.value.client, order.value.fee, dev.penalty,
                         s.now >= order.value.until)
             else Booking(s.accounts, Ok);
    var s1 := s.(accounts := b.accounts);
    if b.out.Err? then Reply(s1, b.out, None)
    else if order.Some? && !local && !reach then Fail(s1, CannotReachDestination)
    else
      Reply(Post(s1.(orders := s.orders - {d}, devices := s.devices[d := dev]),
                 Record(Rejected, d, order, s.now, dev.penalty, byClient)),
            Ok,
            if order.Some? && !local
            then Some(Envelope(order.value.paraid, OrderReject(order.value.client, d, onoff)))
            else None)
  }

  function CancelCall(s: Chain, who: AccountId, d: AccountId, reach: bool): Reply {
    if d !in s.orders then Fail(s, NoOrder)
    else if s.now < s.orders[d].until || s.orders[d].client != who then Fail(s, Prohibited)
    else if d !in s.devices then Fail(s, NoDevice)
    else OrderRejected(s, Some(s.orders[d]), d, s.devices[d], false, true, reach)
  }

  function OrderOf(s: Chain, d: AccountId): Option<Order> {
    if d in s.orders then Some(s.orders[d]) else None
  }

  function AcceptCall(s: Chain, d: AccountId, reject: bool, onoff: bool, reach: bool): Reply {
    if d !in s.devices then Fail(s, NoDevice)
    else
      var dev := s.devices[d];
      if reject then
        if dev.state != Busy && dev.state != Busy2 then Fail(s, IllegalState)
        else OrderRejected(s, OrderOf(s, d), d, dev.(state := OnOff(onoff)), onoff, false, reach)
      else if dev.state != Busy then Fail(s, IllegalState)
      else if d !in s.orders then Fail(s, NoOrder)
      else if s.now >= s.orders[d].until then Fail(s, Overdue)
      else OrderAccepted(s, s.orders[d], d, dev, reach)
  }

  function DoneCall(s: Chain, d: AccountId, onoff: bool, reach: bool): Reply {
    if d !in s.devices then Fail(s, NoDevice)
    else if s.devices[d].state != Busy2 then Fail(s, IllegalState)
    else if d !in s.orders then Fail(s, NoOrder)
    else OrderCompleted(s.(orders := s.orders - {d}), s.orders[d], d, s.devices[d], onoff, reach)
  }

  function RegisterCall(s: Chain, d: AccountId, penalty: Balance, wcd: Moment, onoff: bool): Reply {
    if d in s.orders then Fail(s, DeviceExists)
    else Reply(Post(s.(devices := s.devices[d := Device(OnOff(onoff), penalty, wcd)]),
                    Record(Registered, d, None, s.now, penalty, false)), Ok, None)
  }

  function SetStateCall(s: Chain, d: AccountId, onoff: bool): Reply {
    if d !in s.devices then Fail(s, NoDevice)
    else
      var dev := s.devices[d];
      if dev.state == Off || (dev.state == Ready && !onoff)
      then Reply(s.(devices := s.devices[d := dev.(state := OnOff(onoff))]), Ok, None)
      else Fail(s, IllegalState)
  }

  /** Other messages than a new order are only logged as unknown. */
  function ReceiveCall(s: Chain, sender: ParaId, m: Message, answer: Answer, reach: bool): Reply {
    match m
    case NewOrder(client, b) =>
      OrderReceived(s, Order(b.until, b.data, b.fee, client, sender), b.device, answer, reach)
    case _ => Reply(s, Ok, None)
  }

  function Serve(s: Chain, call: Call): Reply {
    match call
    case PlaceOrder(who, base, answer, reach) => OrderReceived(s, LocalOrder(s, who, base), base.device, answer, reach)
    case Cancel(who, d, reach) => CancelCall(s, who, d, reach)
    case Accept(who, reject, onoff, reach) => AcceptCall(s, who, reject, onoff, reach)
    case Done(who, onoff, reach) => DoneCall(s, who, onoff, reach)
    case Register(who, penalty, wcd, onoff) => RegisterCall(s, who, penalty, wcd, onoff)
    case SetState(who, onoff) => SetStateCall(s, who, onoff)
    case Receive(sender, m, answer, reach) => ReceiveCall(s, sender, m, answer, reach)
    case Tick(to) => Reply(if to >= s.now then s.(now := to) else s, Ok, None)
  }

  /** The chain after a run of calls. */
  function Run(s: Chain, calls: seq<Call>): Chain
    decreases |calls|
  {
    if calls == [] then s
    else Serve(Run(s, calls[..|calls| - 1]), calls[|calls| - 1]).chain
  }

  /** A chain before its first call: any balances, nothing registered. */
  ghost predicate Genesis(s: Chain) {
    s.orders == map[] && s.devices == map[] && s.log == [] && Issuance(s.accounts) < U128
  }
}
