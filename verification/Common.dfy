/** The records, messages and conversions that the two pallets share. */
module Common {

  const U32: int := 0x1_0000_0000
  const U64: int := 0x1_0000_0000_0000_0000
  const U128: int := 0x1_0000_0000_0000_0000_0000_0000_0000_0000

  type AccountId = nat
  type ParaId = p: int | 0 <= p < U32
  type Moment = t: int | 0 <= t < U64
  type Balance = b: int | 0 <= b < U128

  /** What the order asks the device to do; the pallets only copy it. */
  type Payload = nat

  datatype Option<+T> = None | Some(value: T)

  datatype DeviceState = Off | Ready | Busy | Busy2 | Timewait

  /** What the service pallet's callback may answer: None refuses the order, Busy leaves the
      acceptance to the device, Busy2 accepts at once. */
  type Answer = a: Option<DeviceState> | a == None || a == Some(Busy) || a == Some(Busy2) witness None

  datatype Error =
    | NoOrder | NoDevice | Prohibited | IllegalState | Overdue | BadOrderDetails
    | DeviceExists | DeviceLowBail | CannotReachDestination
    | InsufficientBalance | Overflow | DeadAccount

  datatype Outcome = Ok | Err(error: Error)

  /** An order as it stands in the pallets' storage, filed under its device. */
  datatype Order = Order(until: Moment, data: Payload, fee: Balance, client: AccountId, paraid: ParaId)

  /** An order as it is placed and as it travels. */
  datatype OrderBase = OrderBase(until: Moment, data: Payload, fee: Balance, device: AccountId)
  {
    function Convert(client: AccountId): Order {
      Order(until, data, fee, client, 0)
    }
  }

  /** What client and device have agreed on: the order, and the device's penalty and work cycle with it. */
  datatype Terms = Terms(order: Order, penalty: Balance, wcd: Moment)

  function ConvertBack(order: Order, device: AccountId): OrderBase {
    OrderBase(order.until, order.data, order.fee, device)
  }

  datatype Message =
    | NewOrder(client: AccountId, order: OrderBase)
    | OrderAccept(client: AccountId, device: AccountId)
    | OrderReject(client: AccountId, device: AccountId, onoff: bool)
    | OrderDone(client: AccountId, device: AccountId, onoff: bool)

  datatype Envelope = Envelope(to: ParaId, message: Message)

  function Posted(sent: Option<Envelope>): seq<Envelope> {
    match sent
    case None => []
    case Some(e) => [e]
  }

  /** Addition of two u64 moments as the release build performs it: it wraps. */
  function WrapAdd(t: Moment, d: Moment): Moment {
    (t + d) % U64
  }

  /** A deadline that passes the wrapped sum passes the true one if and only if nothing wrapped. */
  lemma WrapChecks(t: Moment, d: Moment, until: Moment)
    requires WrapAdd(t, d) <= until
    ensures until >= t + d <==> t + d < U64
  {
    if t + d >= U64 {
      assert WrapAdd(t, d) == t + d - U64;
    }
  }

  function OnOff(onoff: bool): DeviceState {
    if onoff then Ready else Off
  }

  /** Two stored orders that stand for the same agreement; only the chain they came from may differ. */
  predicate SameTerms(o: Order, p: Order) {
    o.until == p.until && o.data == p.data && o.fee == p.fee && o.client == p.client
  }
}
