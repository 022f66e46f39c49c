/** The money on the client chain, call by call: what is on reserve is what the open orders require, and
    every call is a step of the same escrow machine as on the service chain, except exactly for two kinds. */
module ClientLedger {
  import opened Common
  import opened Ledger
  import opened Escrow
  import opened Accounting
  import opened Client

  function Deals(s: Chain): map<AccountId, Deal> {
    map d | d in s.orders && d in s.devices
      :: Deal(s.orders[d].client, s.orders[d].fee, s.devices[d].penalty, s.orders[d].until)
  }

  function BooksOf(s: Chain): Books {
    Books(s.accounts, Deals(s))
  }

  /** An open order stands on a registered device that is ready, its message not sent, or busy. A device
      is never recorded as having accepted. */
  predicate Shape(s: Chain) {
    && (forall d :: d in s.orders ==> d in s.devices && (s.devices[d].state == Ready || s.devices[d].state == Busy))
    && (forall d :: d in s.devices ==> s.devices[d].state != Busy2 && s.devices[d].state != Timewait)
  }

  ghost predicate Sound(s: Chain) {
    Shape(s) && Issuance(s.accounts) < U128
  }

  ghost predicate Inv(s: Chain) {
    Sound(s) && Backed(BooksOf(s))
  }

  /** A rejection or completion names the client of the open order it is about. The pallet does not check
      this; the protocol of the two chains provides it. */
  predicate Faithful(s: Chain, call: Call) {
    match call
    case Receive(OrderReject(client, d, _)) => d in s.orders ==> client == s.orders[d].client
    case Receive(OrderDone(client, d, _)) => d in s.orders ==> client == s.orders[d].client
    case _ => true
  }

  /** The device whose order a call may close. */
  function Subject(call: Call): Option<AccountId> {
    match call
    case Cancel(_, d) => Some(d)
    case Receive(OrderReject(_, d, _)) => Some(d)
    case Receive(OrderDone(_, d, _)) => Some(d)
    case _ => None
  }

  // ----- Calls that leave traces of an error ---------------------------------------------------

  /** A placement that takes the device's penalty and then finds the fee uncovered. */
  predicate Overcommits(s: Chain, call: Call) {
    && call.PlaceOrder?
    && Refusal(s, call.base) == None
    && Overcommitted(s.accounts, call.base.device, call.who, call.base.fee, s.devices[call.base.device].penalty)
  }

  /** A placement that succeeds up to the sending of the message. */
  predicate Unsent(s: Chain, call: Call) {
    && call.PlaceOrder? && !call.reach
    && Refusal(s, call.base) == None
    && Hold(s.accounts, call.base.device, call.who, call.base.fee, s.devices[call.base.device].penalty).out == Ok
  }

  /** A completion that moves all that the account it names has, and then finds that account, which is owed
      the penalty, without anything. The order stays open with less behind it. */
  predicate HalfPays(s: Chain, call: Call) {
    && call.Receive? && call.message.OrderDone? && call.message.device in Deals(s)
    && var d := call.message.device;
       var deal := Deals(s)[d];
       HalfPaid(s.accounts, d, call.message.client, deal.fee, deal.penalty, s.now >= deal.until)
  }

  /** A rejection that frees another account's reserve and then finds the client without anything. */
  predicate Misrefunds(s: Chain, call: Call) {
    && call.Receive? && call.message.OrderReject? && call.message.device in Deals(s)
    && var d := call.message.device;
       var deal := Deals(s)[d];
       Misrefunded(s.accounts, d, call.message.client, deal.client, deal.fee, deal.penalty, s.now >= deal.until)
  }

  /** The calls that return an error and leave traces. */
  predicate Torn(s: Chain, call: Call) {
    Overcommits(s, call) || Unsent(s, call) || HalfPays(s, call) || Misrefunds(s, call)
  }

  /** From any state and whatever account a message names, an error leaves the chain as it was, except
      exactly for the torn calls; and no error sends a message or deposits an event. */
  lemma TornIff(s: Chain, call: Call)
    requires Issuance(s.accounts) < U128
    ensures var reply := Serve(s, call);
            && (reply.out.Err? && reply.chain != s <==> Torn(s, call))
            && (reply.out.Err? ==> reply.sent == None && reply.chain.events == s.events)
  {
    match call
    case PlaceOrder(who, base, reach) =>
      if Refusal(s, base) == None {
        PlacementTears(s, call, Hold(s.accounts, base.device, who, base.fee, s.devices[base.device].penalty));
      }
    case Cancel(who, d) =>
      if d in s.orders && d in s.devices {
        RejectionTears(s, who, d, s.devices[d]);
      }
    case Receive(OrderReject(who, d, onoff)) =>
      if d in s.orders && d in s.devices {
        RejectionTears(s, who, d, s.devices[d].(state := OnOff(onoff)));
      }
    case Receive(OrderDone(who, d, onoff)) =>
      if d in s.orders && d in s.devices {
        PayTears(s.accounts, d, who, s.orders[d].fee, s.devices[d].penalty, s.now >= s.orders[d].until);
      }
    case _ =>
  }

  lemma PlacementTears(s: Chain, call: Call, b: Booking)
    requires Issuance(s.accounts) < U128 && call.PlaceOrder? && Refusal(s, call.base) == None
    requires b == Hold(s.accounts, call.base.device, call.who, call.base.fee, s.devices[call.base.device].penalty)
    ensures var reply := Serve(s, call);
            && (reply.out.Err? && reply.chain != s <==> Overcommits(s, call) || Unsent(s, call))
            && (reply.out.Err? ==> reply.sent == None && reply.chain.events == s.events)
  {
    HoldMoves(s.accounts, call.base.device,
              Deal(call.who, call.base.fee, s.devices[call.base.device].penalty, call.base.until));
  }

  lemma RejectionTears(s: Chain, who: AccountId, d: AccountId, dev: Device)
    requires Issuance(s.accounts) < U128
    requires d in s.orders && d in s.devices && dev.penalty == s.devices[d].penalty
    ensures var reply := OrderRejected(s, who, s.orders[d], d, dev);
            var o := s.orders[d];
            && (reply.out.Err? ==> reply.sent == None && reply.chain.events == s.events)
            && (reply.out.Err? && reply.chain != s <==>
                Misrefunded(s.accounts, d, who, o.client, o.fee, dev.penalty, s.now >= o.until))
  {
    var o := s.orders[d];
    RefundTears(s.accounts, d, who, o.client, o.fee, dev.penalty, s.now >= o.until);
  }

  // ----- Calls as steps of the escrow machine --------------------------------------------------

  function CloseStep(s: Chain, d: AccountId, out: Outcome, paid: bool): Move {
    if out == Ok && d in Deals(s) then Close(d, s.now >= s.orders[d].until, paid) else Stutter
  }

  /** A placement opens a deal even if its message is not sent. */
  function StepOf(s: Chain, call: Call): Move {
    var reply := Serve(s, call);
    match call
    case PlaceOrder(who, base, _) =>
      if (reply.out == Ok || Unsent(s, call)) && base.device in s.devices
      then Open(base.device, Deal(who, base.fee, s.devices[base.device].penalty, base.until)) else Stutter
    case Cancel(_, d) => CloseStep(s, d, reply.out, false)
    case Receive(OrderReject(_, d, _)) => CloseStep(s, d, reply.out, false)
    case Receive(OrderDone(_, d, _)) => CloseStep(s, d, reply.out, true)
    case _ => Stutter
  }

  /** No call makes or destroys money, whatever account a message names. */
  lemma Conserves(s: Chain, call: Call)
    requires Issuance(s.accounts) < U128
    ensures Issuance(Serve(s, call).chain.accounts) == Issuance(s.accounts)
  {
    match call
    case PlaceOrder(who, base, reach) =>
      if Refusal(s, base) == None {
        HoldMoves(s.accounts, base.device, Deal(who, base.fee, s.devices[base.device].penalty, base.until));
      }
    case Cancel(who, d) =>
      if d in s.orders && d in s.devices {
        var o := s.orders[d];
        RefundConserves(s.accounts, d, who, o.client, o.fee, s.devices[d].penalty, s.now >= o.until);
      }
    case Receive(m) =>
      if !m.NewOrder? && m.device in s.orders && m.device in s.devices {
        var o := s.orders[m.device];
        var penalty := s.devices[m.device].penalty;
        RefundConserves(s.accounts, m.device, m.client, o.client, o.fee, penalty, s.now >= o.until);
        PayConserves(s.accounts, m.device, m.client, o.fee, penalty, s.now >= o.until);
      }
    case _ =>
  }

  lemma PlacementShape(s: Chain, who: AccountId, base: OrderBase, reach: bool)
    requires Shape(s)
    ensures Shape(PlaceCall(s, who, base, reach).chain)
  {
  }

  lemma RejectionShape(s: Chain, who: AccountId, order: Order, d: AccountId, dev: Device)
    requires Shape(s) && dev.state != Busy2 && dev.state != Timewait
    ensures Shape(OrderRejected(s, who, order, d, dev).chain)
  {
  }

  lemma CompletionShape(s: Chain, who: AccountId, d: AccountId, onoff: bool)
    requires Shape(s)
    ensures Shape(OnDone(s, who, d, onoff).chain)
  {
  }

  lemma ShapeKept(s: Chain, call: Call)
    requires Shape(s)
    ensures Shape(Serve(s, call).chain)
  {
    match call
    case PlaceOrder(who, base, reach) => PlacementShape(s, who, base, reach);
    case Cancel(who, d) =>
      if d in s.orders {
        RejectionShape(s, who, s.orders[d], d, s.devices[d]);
      }
    case Receive(OrderReject(who, d, onoff)) =>
      if d in s.orders {
        RejectionShape(s, who, s.orders[d], d, s.devices[d].(state := OnOff(onoff)));
      }
    case Receive(OrderDone(who, d, onoff)) => CompletionShape(s, who, d, onoff);
    case _ =>
  }

  // ----- What the calls do to the open deals -----------------------------------------------------

  lemma PlacementFiled(s: Chain, call: Call, b: Booking)
    requires call.PlaceOrder? && Refusal(s, call.base) == None
    requires b == Hold(s.accounts, call.base.device, call.who, call.base.fee, s.devices[call.base.device].penalty)
    ensures var s' := Serve(s, call).chain;
            var d := call.base.device;
            && s'.accounts == b.accounts
            && Deals(s') == if b.out == Ok
                            then Deals(s)[d := Deal(call.who, call.base.fee, s.devices[d].penalty, call.base.until)]
                            else Deals(s)
  {
  }

  lemma RejectionFiled(s: Chain, who: AccountId, d: AccountId, dev: Device)
    requires d in s.orders && d in s.devices && dev.penalty == s.devices[d].penalty
    ensures var reply := OrderRejected(s, who, s.orders[d], d, dev);
            Deals(reply.chain) == if reply.out == Ok then Deals(s) - {d} else Deals(s)
  {
  }

  lemma CompletionFiled(s: Chain, who: AccountId, d: AccountId, onoff: bool)
    requires d in s.orders && d in s.devices
    ensures var reply := OnDone(s, who, d, onoff);
            Deals(reply.chain) == if reply.out == Ok then Deals(s) - {d} else Deals(s)
  {
  }

  lemma OtherFiled(s: Chain, call: Call)
    requires match call
             case PlaceOrder(_, base, _) => Refusal(s, base).Some?
             case Cancel(_, _) => false
             case Receive(m) => m.NewOrder? || m.OrderAccept? || m.device !in Deals(s)
             case _ => true
    ensures BooksOf(Serve(s, call).chain) == BooksOf(s) && StepOf(s, call) == Stutter
  {
    assert Deals(Serve(s, call).chain) == Deals(s);
  }

  // ----- With the subject's deal on reserve --------------------------------------------------------

  /** The deal that the call may close is fully on reserve. */
  ghost predicate SubjectHolds(s: Chain, call: Call) {
    var subject := Subject(call);
    subject.Some? && subject.value in Deals(s) ==> Holds(s.accounts, subject.value, Deals(s)[subject.value])
  }

  lemma InvHolds(s: Chain, call: Call)
    requires Inv(s)
    ensures SubjectHolds(s, call)
  {
    var subject := Subject(call);
    if subject.Some? && subject.value in Deals(s) {
      DealHolds(BooksOf(s), subject.value);
    }
  }

  lemma PlacementSettles(s: Chain, call: Call, b: Booking)
    requires Issuance(s.accounts) < U128 && call.PlaceOrder? && Refusal(s, call.base) == None
    requires b == Hold(s.accounts, call.base.device, call.who, call.base.fee, s.devices[call.base.device].penalty)
    ensures !Overcommits(s, call) ==> Clean(BooksOf(s), StepOf(s, call), BooksOf(Serve(s, call).chain))
  {
    var s' := Serve(s, call).chain;
    var d := call.base.device;
    var deal := Deal(call.who, call.base.fee, s.devices[d].penalty, call.base.until);
    HoldMoves(s.accounts, d, deal);
    PlacementFiled(s, call, b);
    if b.out == Ok {
      DealOpened(BooksOf(s), BooksOf(s'), d, deal);
    } else if b.accounts == s.accounts {
      Quiet(BooksOf(s));
    }
  }

  lemma RejectionSettles(s: Chain, d: AccountId, dev: Device)
    requires Issuance(s.accounts) < U128 && d in Deals(s) && Holds(s.accounts, d, Deals(s)[d])
    requires dev.penalty == s.devices[d].penalty
    ensures var reply := OrderRejected(s, s.orders[d].client, s.orders[d], d, dev);
            Clean(BooksOf(s), CloseStep(s, d, reply.out, false), BooksOf(reply.chain))
  {
    var reply := OrderRejected(s, s.orders[d].client, s.orders[d], d, dev);
    var late := s.now >= s.orders[d].until;
    RefundMoves(s.accounts, d, Deals(s)[d], late);
    RejectionFiled(s, s.orders[d].client, d, dev);
    if reply.out == Ok {
      DealClosed(BooksOf(s), BooksOf(reply.chain), d, late, false);
    } else {
      Quiet(BooksOf(s));
    }
  }

  lemma CompletionSettles(s: Chain, d: AccountId, onoff: bool)
    requires Issuance(s.accounts) < U128 && d in Deals(s) && Holds(s.accounts, d, Deals(s)[d])
    requires !HalfPays(s, Receive(OrderDone(s.orders[d].client, d, onoff)))
    ensures var reply := OnDone(s, s.orders[d].client, d, onoff);
            Clean(BooksOf(s), CloseStep(s, d, reply.out, true), BooksOf(reply.chain))
  {
    var deal := Deals(s)[d];
    var late := s.now >= deal.until;
    var b := Pay(s.accounts, d, deal.client, deal.fee, deal.penalty, late);
    PayMoves(s.accounts, d, deal, late);
    PayTears(s.accounts, d, deal.client, deal.fee, deal.penalty, late);
    CompletionFiled(s, deal.client, d, onoff);
    if b.out == Ok {
      DealClosed(BooksOf(s), BooksOf(OnDone(s, deal.client, d, onoff).chain), d, late, true);
    } else {
      Quiet(BooksOf(s));
    }
  }

  /** A call whose message, if it is one, names the order's client is a step of the escrow machine and leaves
      every account's slack alone, if the deal that it may close is on reserve, and it is neither a placement
      that overcommits nor a completion that pays only half. */
  lemma CallSettles(s: Chain, call: Call)
    requires Sound(s) && Faithful(s, call) && SubjectHolds(s, call)
    requires !Overcommits(s, call) && !HalfPays(s, call)
    ensures Clean(BooksOf(s), StepOf(s, call), BooksOf(Serve(s, call).chain))
  {
    Quiet(BooksOf(s));
    match call
    case PlaceOrder(who, base, reach) =>
      if Refusal(s, base) == None {
        PlacementSettles(s, call, Hold(s.accounts, base.device, who, base.fee, s.devices[base.device].penalty));
      } else {
        OtherFiled(s, call);
      }
    case Cancel(who, d) =>
      if d in s.orders && s.orders[d].client == who {
        RejectionSettles(s, d, s.devices[d]);
      }
    case Receive(m) =>
      if m.OrderReject? && m.device in s.orders {
        RejectionSettles(s, m.device, s.devices[m.device].(state := OnOff(m.onoff)));
      } else if m.OrderDone? && m.device in s.orders {
        CompletionSettles(s, m.device, m.onoff);
      } else {
        OtherFiled(s, call);
      }
    case _ => OtherFiled(s, call);
  }

  // ----- The two exceptions ------------------------------------------------------------------------

  /** An overcommitting placement moves the device's penalty to its reserve, and nothing else. */
  lemma OvercommitMoves(s: Chain, call: Call)
    requires Issuance(s.accounts) < U128 && Overcommits(s, call)
    ensures var s' := Serve(s, call).chain;
            var d := call.base.device;
            && Deals(s') == Deals(s)
            && (forall a :: Slack(BooksOf(s'), a) >= Slack(BooksOf(s), a))
            && Slack(BooksOf(s'), d) > Slack(BooksOf(s), d)
            && (forall a :: Total(s'.accounts, a) == Total(s.accounts, a))
            && !IsStep(BooksOf(s), BooksOf(s'))
  {
    var s' := Serve(s, call).chain;
    var d := call.base.device;
    var penalty := s.devices[d].penalty;
    HoldMoves(s.accounts, d, Deal(call.who, call.base.fee, penalty, call.base.until));
    ReserveConserves(s.accounts, d, penalty);
    PlacementFiled(s, call, Hold(s.accounts, d, call.who, call.base.fee, penalty));
    MovedForNothing(BooksOf(s), BooksOf(s'), d);
  }

  /** A completion that pays only half moves the whole reserve of the account it names to the device, and
      nothing else; the order stays open. */
  lemma HalfPayMoves(s: Chain, call: Call)
    requires Issuance(s.accounts) < U128 && HalfPays(s, call)
    ensures var s' := Serve(s, call).chain;
            var d, who := call.message.device, call.message.client;
            var moved := Reserved(s.accounts, who);
            && moved > 0 && d != who
            && Deals(s') == Deals(s)
            && (forall a :: Slack(BooksOf(s'), a) == Slack(BooksOf(s), a) - (if a == who then moved else 0))
            && (forall a :: Total(s'.accounts, a) ==
                  Total(s.accounts, a) + (if a == d then moved else 0) - (if a == who then moved else 0))
            && !IsStep(BooksOf(s), BooksOf(s'))
  {
    var d, who := call.message.device, call.message.client;
    var deal := Deals(s)[d];
    PayTears(s.accounts, d, who, deal.fee, deal.penalty, s.now >= deal.until);
    CompletionFiled(s, who, d, call.message.onoff);
    MovedForNothing(BooksOf(s), BooksOf(Serve(s, call).chain), d);
  }

  // ----- From any state ----------------------------------------------------------------------------

  /** What a completion that pays only half takes from the reserve of account a. */
  function Taken(s: Chain, call: Call, a: AccountId): Balance {
    if HalfPays(s, call) && call.message.client == a then Reserved(s.accounts, a) else 0
  }

  /** Nothing else that is faithful takes from a reserve more than it frees of what is due. */
  lemma SlackKept(s: Chain, call: Call)
    requires Issuance(s.accounts) < U128 && Faithful(s, call)
    ensures forall a :: Slack(BooksOf(Serve(s, call).chain), a) >= Slack(BooksOf(s), a) - Taken(s, call, a)
  {
    if HalfPays(s, call) {
      HalfPayMoves(s, call);
    } else {
      match call
      case PlaceOrder(who, base, reach) =>
        if Refusal(s, base) == None {
          PlacementSlack(s, call, Hold(s.accounts, base.device, who, base.fee, s.devices[base.device].penalty));
        } else {
          OtherFiled(s, call);
        }
      case Cancel(who, d) =>
        if d in Deals(s) && s.orders[d].client == who {
          RejectionSlack(s, d, s.devices[d]);
        }
      case Receive(m) =>
        if m.OrderReject? && m.device in Deals(s) {
          RejectionSlack(s, m.device, s.devices[m.device].(state := OnOff(m.onoff)));
        } else if m.OrderDone? && m.device in Deals(s) {
          CompletionSlack(s, m.device, m.onoff);
        } else {
          OtherFiled(s, call);
        }
      case _ => OtherFiled(s, call);
    }
  }

  lemma PlacementSlack(s: Chain, call: Call, b: Booking)
    requires Issuance(s.accounts) < U128 && call.PlaceOrder? && Refusal(s, call.base) == None
    requires b == Hold(s.accounts, call.base.device, call.who, call.base.fee, s.devices[call.base.device].penalty)
    ensures forall a :: Slack(BooksOf(Serve(s, call).chain), a) >= Slack(BooksOf(s), a)
  {
    var d := call.base.device;
    var deal := Deal(call.who, call.base.fee, s.devices[d].penalty, call.base.until);
    HoldMoves(s.accounts, d, deal);
    PlacementFiled(s, call, b);
    if b.out == Ok {
      DealOpened(BooksOf(s), BooksOf(Serve(s, call).chain), d, deal);
    }
  }

  lemma RejectionSlack(s: Chain, d: AccountId, dev: Device)
    requires Issuance(s.accounts) < U128 && d in Deals(s) && dev.penalty == s.devices[d].penalty
    ensures var s' := OrderRejected(s, s.orders[d].client, s.orders[d], d, dev).chain;
            forall a :: Slack(BooksOf(s'), a) >= Slack(BooksOf(s), a)
  {
    var s' := OrderRejected(s, s.orders[d].client, s.orders[d], d, dev).chain;
    RejectionTears(s, s.orders[d].client, d, dev);
    RejectionFiled(s, s.orders[d].client, d, dev);
    RefundTakes(s.accounts, d, Deals(s)[d], s.now >= s.orders[d].until);
    forall a ensures Slack(BooksOf(s'), a) >= Slack(BooksOf(s), a) {
      DueClose(Deals(s), d, a);
    }
  }

  lemma CompletionSlack(s: Chain, d: AccountId, onoff: bool)
    requires Issuance(s.accounts) < U128 && d in Deals(s)
    requires !HalfPays(s, Receive(OrderDone(s.orders[d].client, d, onoff)))
    ensures var s' := OnDone(s, s.orders[d].client, d, onoff).chain;
            forall a :: Slack(BooksOf(s'), a) >= Slack(BooksOf(s), a)
  {
    var s' := OnDone(s, s.orders[d].client, d, onoff).chain;
    var deal := Deals(s)[d];
    var late := s.now >= deal.until;
    PayTears(s.accounts, d, deal.client, deal.fee, deal.penalty, late);
    CompletionFiled(s, deal.client, d, onoff);
    PayTakes(s.accounts, d, deal, late);
    forall a ensures Slack(BooksOf(s'), a) >= Slack(BooksOf(s), a) {
      DueClose(Deals(s), d, a);
    }
  }
}
