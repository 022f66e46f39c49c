/** The money on the service chain: what is on reserve is what the open local orders require, every call
    is a step of the escrow machine, and the exact calls for which an error leaves traces. */
module ServiceLedger {
  import opened Common
  import opened Ledger
  import opened Escrow
  import opened Accounting
  import opened Service
  import opened ServiceLog

  function DealOf(order: Order, penalty: Balance): Deal {
    Deal(order.client, order.fee, penalty, order.until)
  }

  /** Orders from other chains put nothing on reserve here. */
  function LocalDeals(s: Chain): map<AccountId, Deal> {
    map d | d in s.orders && d in s.devices && s.orders[d].paraid == s.self
      :: DealOf(s.orders[d], s.devices[d].penalty)
  }

  function BooksOf(s: Chain): Books {
    Books(s.accounts, LocalDeals(s))
  }

  ghost predicate Inv(s: Chain) {
    Shape(s) && Backed(BooksOf(s)) && Issuance(s.accounts) < U128
  }

  // ----- Calls that leave traces of an error ---------------------------------------------------

  predicate TornReceipt(s: Chain, order: Order, d: AccountId, answer: Answer) {
    && Refusal(s, order, d, answer) == None
    && order.paraid == s.self
    && Overcommitted(s.accounts, d, order.client, order.fee, s.devices[d].penalty)
  }

  predicate TornCompletion(s: Chain, d: AccountId, reach: bool) {
    && d in s.devices && s.devices[d].state == Busy2 && d in s.orders
    && var order := s.orders[d];
       var deal := DealOf(order, s.devices[d].penalty);
       if order.paraid == s.self
       then DeviceGone(s.accounts, d, deal) || ClientGone(s.accounts, d, deal, s.now >= order.until)
       else !reach
  }

  predicate Torn(s: Chain, call: Call) {
    match call
    case PlaceOrder(who, base, answer, _) => TornReceipt(s, LocalOrder(s, who, base), base.device, answer)
    case Receive(sender, NewOrder(client, b), answer, _) =>
      TornReceipt(s, Order(b.until, b.data, b.fee, client, sender), b.device, answer)
    case Done(who, _, reach) => TornCompletion(s, who, reach)
    case _ => false
  }

  // ----- Calls as steps of the escrow machine --------------------------------------------------

  function OpenStep(s: Chain, order: Order, d: AccountId, out: Outcome): Move {
    if out == Ok && order.paraid == s.self && d in s.devices
    then Open(d, DealOf(order, s.devices[d].penalty)) else Stutter
  }

  function CloseStep(s: Chain, d: AccountId, out: Outcome, paid: bool): Move {
    if out == Ok && d in LocalDeals(s) then Close(d, s.now >= s.orders[d].until, paid) else Stutter
  }

  function StepOf(s: Chain, call: Call): Move {
    var out := Serve(s, call).out;
    match call
    case PlaceOrder(who, base, _, _) => OpenStep(s, LocalOrder(s, who, base), base.device, out)
    case Receive(sender, NewOrder(client, b), _, _) =>
      OpenStep(s, Order(b.until, b.data, b.fee, client, sender), b.device, out)
    case Cancel(_, d, _) => CloseStep(s, d, out, false)
    case Accept(who, true, _, _) => CloseStep(s, who, out, false)
    case Done(who, _, _) => CloseStep(s, who, out, true)
    case _ => Stutter
  }

  /** What a reply has done to the money: a step of the escrow machine that leaves every account's slack
      alone, or, if the call is torn, an error that leaves reserves behind and never takes any. */
  ghost predicate Settled(s: Chain, reply: Reply, step: Move, torn: bool) {
    && Issuance(reply.chain.accounts) == Issuance(s.accounts)
    && (torn <==> reply.out.Err? && reply.chain != s)
    && (!torn ==> Clean(BooksOf(s), step, BooksOf(reply.chain)))
    && (torn ==> forall a :: Slack(BooksOf(reply.chain), a) >= Slack(BooksOf(s), a))
  }

  /** What is filed when an order is received, apart from the money. */
  lemma Filed(s: Chain, order: Order, d: AccountId, answer: Answer, reach: bool)
    requires Refusal(s, order, d, answer) == None
    ensures var reply := OrderReceived(s, order, d, answer, reach);
            LocalDeals(reply.chain) ==
              if reply.out == Ok && order.paraid == s.self
              then LocalDeals(s)[d := DealOf(order, s.devices[d].penalty)] else LocalDeals(s)
  {
  }

  lemma ReceiptSettles(s: Chain, order: Order, d: AccountId, answer: Answer, reach: bool)
    requires Inv(s)
    ensures var reply := OrderReceived(s, order, d, answer, reach);
            Settled(s, reply, OpenStep(s, order, d, reply.out), TornReceipt(s, order, d, answer))
  {
    if Refusal(s, order, d, answer).Some? {
      Quiet(BooksOf(s));
    } else if order.paraid != s.self {
      Filed(s, order, d, answer, reach);
      Quiet(BooksOf(s));
    } else {
      LocalReceiptSettles(s, order, d, answer, reach,
                          Hold(s.accounts, d, order.client, order.fee, s.devices[d].penalty));
    }
  }

  lemma LocalReceiptSettles(s: Chain, order: Order, d: AccountId, answer: Answer, reach: bool, b: Booking)
    requires Inv(s)
    requires Refusal(s, order, d, answer) == None && order.paraid == s.self
    requires b == Hold(s.accounts, d, order.client, order.fee, s.devices[d].penalty)
    ensures var reply := OrderReceived(s, order, d, answer, reach);
            Settled(s, reply, OpenStep(s, order, d, reply.out), TornReceipt(s, order, d, answer))
  {
    var reply := OrderReceived(s, order, d, answer, reach);
    assert reply.out == b.out && reply.chain.accounts == b.accounts;
    assert b.out.Err? ==> reply.chain == s.(accounts := b.accounts);
    var deal := DealOf(order, s.devices[d].penalty);
    HoldMoves(s.accounts, d, deal);
    Filed(s, order, d, answer, reach);
    if b.out == Ok {
      DealOpened(BooksOf(s), BooksOf(reply.chain), d, deal);
    } else if b.accounts == s.accounts {
      Quiet(BooksOf(s));
    }
  }

  lemma RejectionSettles(s: Chain, d: AccountId, dev: Device, onoff: bool, byClient: bool, reach: bool)
    requires Inv(s)
    requires d in s.devices && dev.penalty == s.devices[d].penalty
    ensures var reply := OrderRejected(s, OrderOf(s, d), d, dev, onoff, byClient, reach);
            Settled(s, reply, CloseStep(s, d, reply.out, false), false)
  {
    var reply := OrderRejected(s, OrderOf(s, d), d, dev, onoff, byClient, reach);
    var s' := reply.chain;
    if d in LocalDeals(s) {
      var deal := LocalDeals(s)[d];
      var late := s.now >= s.orders[d].until;
      DealHolds(BooksOf(s), d);
      RefundMoves(s.accounts, d, deal, late);
      RefundConserves(s.accounts, d, deal.client, deal.client, deal.fee, deal.penalty, late);
      if reply.out == Ok {
        assert LocalDeals(s') == LocalDeals(s) - {d};
        DealClosed(BooksOf(s), BooksOf(s'), d, late, false);
      } else {
        Quiet(BooksOf(s));
      }
    } else {
      assert LocalDeals(s') == LocalDeals(s);
      Quiet(BooksOf(s));
    }
  }

  lemma CompletionSettles(s: Chain, d: AccountId, onoff: bool, reach: bool)
    requires Inv(s)
    ensures var reply := DoneCall(s, d, onoff, reach);
            Settled(s, reply, CloseStep(s, d, reply.out, true), TornCompletion(s, d, reach))
  {
    var reply := DoneCall(s, d, onoff, reach);
    var s' := reply.chain;
    if d in s.devices && s.devices[d].state == Busy2 && d in s.orders {
      assert d !in s'.orders;
      if d in LocalDeals(s) {
        LocalCompletionSettles(s, d, onoff, reach);
      } else {
        assert LocalDeals(s') == LocalDeals(s);
        Quiet(BooksOf(s));
      }
    } else {
      Quiet(BooksOf(s));
    }
  }

  lemma LocalCompletionSettles(s: Chain, d: AccountId, onoff: bool, reach: bool)
    requires Inv(s)
    requires d in LocalDeals(s) && s.devices[d].state == Busy2
    ensures var reply := DoneCall(s, d, onoff, reach);
            Settled(s, reply, CloseStep(s, d, reply.out, true), TornCompletion(s, d, reach))
  {
    var reply := DoneCall(s, d, onoff, reach);
    var s' := reply.chain;
    var deal := LocalDeals(s)[d];
    var late := s.now >= s.orders[d].until;
    DealHolds(BooksOf(s), d);
    PayMoves(s.accounts, d, deal, late);
    PayConserves(s.accounts, d, deal.client, deal.fee, deal.penalty, late);
    assert LocalDeals(s') == LocalDeals(s) - {d};
    if reply.out == Ok {
      DealClosed(BooksOf(s), BooksOf(s'), d, late, true);
    } else {
      assert d !in s'.orders && d in s.orders;
      forall a ensures Slack(BooksOf(s'), a) >= Slack(BooksOf(s), a) {
        DueClose(LocalDeals(s), d, a);
      }
    }
  }

  lemma MessageSettles(s: Chain, call: Call)
    requires Inv(s) && call.Receive?
    ensures Settled(s, Serve(s, call), StepOf(s, call), Torn(s, call))
  {
    if call.message.NewOrder? {
      var b := call.message.order;
      var order := Order(b.until, b.data, b.fee, call.message.client, call.sender);
      ReceiptSettles(s, order, b.device, call.answer, call.reach);
    } else {
      Quiet(BooksOf(s));
    }
  }

  lemma CancelSettles(s: Chain, who: AccountId, d: AccountId, reach: bool)
    requires Inv(s)
    ensures var reply := CancelCall(s, who, d, reach);
            Settled(s, reply, CloseStep(s, d, reply.out, false), false)
  {
    if d in s.orders && s.now >= s.orders[d].until && s.orders[d].client == who && d in s.devices {
      RejectionSettles(s, d, s.devices[d], false, true, reach);
    } else {
      Quiet(BooksOf(s));
    }
  }

  lemma AcceptSettles(s: Chain, d: AccountId, reject: bool, onoff: bool, reach: bool)
    requires Inv(s)
    ensures var reply := AcceptCall(s, d, reject, onoff, reach);
            Settled(s, reply, if reject then CloseStep(s, d, reply.out, false) else Stutter, false)
  {
    if reject {
      if d in s.devices && (s.devices[d].state == Busy || s.devices[d].state == Busy2) {
        RejectionSettles(s, d, s.devices[d].(state := OnOff(onoff)), onoff, false, reach);
      } else {
        Quiet(BooksOf(s));
      }
    } else {
      var s' := AcceptCall(s, d, reject, onoff, reach).chain;
      assert LocalDeals(s') == LocalDeals(s);
      Quiet(BooksOf(s));
    }
  }

  lemma ProfileSettles(s: Chain, call: Call)
    requires Inv(s)
    requires call.Register? || call.SetState? || call.Tick?
    ensures Settled(s, Serve(s, call), Stutter, false)
  {
    var s' := Serve(s, call).chain;
    assert LocalDeals(s') == LocalDeals(s);
    Quiet(BooksOf(s));
  }

  /** Every call settles: it is a step of the escrow machine, and an error leaves the chain as it was,
      except exactly for the torn calls. */
  lemma CallSettles(s: Chain, call: Call)
    requires Inv(s)
    ensures Settled(s, Serve(s, call), StepOf(s, call), Torn(s, call))
  {
    match call
    case PlaceOrder(who, base, answer, reach) =>
      ReceiptSettles(s, LocalOrder(s, who, base), base.device, answer, reach);
    case Receive(_, _, _, _) => MessageSettles(s, call);
    case Cancel(who, d, reach) => CancelSettles(s, who, d, reach);
    case Accept(who, reject, onoff, reach) => AcceptSettles(s, who, reject, onoff, reach);
    case Done(who, onoff, reach) => CompletionSettles(s, who, onoff, reach);
    case Register(_, _, _, _) => ProfileSettles(s, call);
    case SetState(_, _) => ProfileSettles(s, call);
    case Tick(_) => ProfileSettles(s, call);
  }

  /** A call that answers with an error has sent nothing and deposited no event. */
  lemma ErrorsAreSilent(s: Chain, call: Call)
    ensures Serve(s, call).out.Err? ==> Serve(s, call).sent == None && Serve(s, call).chain.log == s.log
  {
  }

  lemma SelfKept(s: Chain, call: Call)
    ensures Serve(s, call).chain.self == s.self
  {
  }

  lemma InvKept(s: Chain, call: Call)
    requires Inv(s)
    ensures Inv(Serve(s, call).chain)
  {
    ShapeKept(s, call);
    CallSettles(s, call);
    forall a ensures Slack(BooksOf(Serve(s, call).chain), a) >= 0 {
      assert Slack(BooksOf(s), a) >= 0;
    }
  }

  lemma AtGenesis(s: Chain)
    requires Genesis(s)
    ensures Inv(s)
  {
    forall d ensures Fits(s, d) {
    }
    assert LocalDeals(s) == map[];
    NothingOpen(BooksOf(s));
  }
}
