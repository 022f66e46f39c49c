/** The service chain's log as an account of who has gained what. */
module ServiceHistory {
  import opened Common
  import opened Ledger
  import opened Escrow
  import opened Accounting
  import opened Service
  import opened ServiceLedger
  import opened ServiceTheorems

  /** What the log says a closed local order has brought account a. */
  function Gain(self: ParaId, r: Record, a: AccountId): int {
    if r.order == None || r.order.value.paraid != self then 0
    else
      var deal := DealOf(r.order.value, r.penalty);
      var late := r.at >= deal.until;
      match r.fact
      case Completed => PaidOutcome(r.device, deal, late, a)
      case Rejected => RefundOutcome(r.device, deal, late, a)
      case _ => 0
  }

  function Gains(self: ParaId, log: seq<Record>, a: AccountId): int
    decreases |log|
  {
    if log == [] then 0
    else Gains(self, log[..|log| - 1], a) + Gain(self, log[|log| - 1], a)
  }

  lemma GainsOfMore(self: ParaId, log: seq<Record>, r: Record, a: AccountId)
    ensures Gains(self, log + [r], a) == Gains(self, log, a) + Gain(self, r, a)
  {
    assert (log + [r])[..|log|] == log;
  }

  lemma RejectionGains(s: Chain, d: AccountId, dev: Device, onoff: bool, byClient: bool, reach: bool, a: AccountId)
    requires d in s.devices && dev.penalty == s.devices[d].penalty
    ensures var reply := OrderRejected(s, OrderOf(s, d), d, dev, onoff, byClient, reach);
            Gains(s.self, reply.chain.log, a) ==
            Gains(s.self, s.log, a) + Brought(VaultOf(BooksOf(s)), CloseStep(s, d, reply.out, false), a)
  {
    GainsOfMore(s.self, s.log, Record(Rejected, d, OrderOf(s, d), s.now, dev.penalty, byClient), a);
  }

  lemma AcceptanceGains(s: Chain, d: AccountId, onoff: bool, reach: bool, a: AccountId)
    ensures Gains(s.self, AcceptCall(s, d, false, onoff, reach).chain.log, a) == Gains(s.self, s.log, a)
  {
    if d in s.orders && d in s.devices {
      GainsOfMore(s.self, s.log, Record(Accepted, d, Some(s.orders[d]), s.now, s.devices[d].penalty, false), a);
    }
  }

  lemma CompletionTells(s: Chain, d: AccountId, onoff: bool, reach: bool)
    ensures var reply := DoneCall(s, d, onoff, reach);
            if reply.out == Ok
            then d in s.orders && d in s.devices && reply.chain.log ==
                   s.log + [Record(Completed, d, Some(s.orders[d]), s.now, s.devices[d].penalty, false)]
            else reply.chain.log == s.log
  {
  }

  lemma CompletionGains(s: Chain, d: AccountId, onoff: bool, reach: bool, a: AccountId)
    ensures var reply := DoneCall(s, d, onoff, reach);
            Gains(s.self, reply.chain.log, a) ==
            Gains(s.self, s.log, a) + Brought(VaultOf(BooksOf(s)), CloseStep(s, d, reply.out, true), a)
  {
    CompletionTells(s, d, onoff, reach);
    if d in s.orders && d in s.devices {
      GainsOfMore(s.self, s.log, Record(Completed, d, Some(s.orders[d]), s.now, s.devices[d].penalty, false), a);
    }
  }

  lemma MessageGains(s: Chain, call: Call, a: AccountId)
    requires call.Receive?
    ensures Gains(s.self, Serve(s, call).chain.log, a) ==
            Gains(s.self, s.log, a) + Brought(VaultOf(BooksOf(s)), StepOf(s, call), a)
  {
    if call.message.NewOrder? {
      var b := call.message.order;
      ReceiptGains(s, Order(b.until, b.data, b.fee, call.message.client, call.sender), b.device,
                   call.answer, call.reach, a);
    }
  }

  /** The log gains with each call what the call's step of the escrow machine brings. */
  lemma LogKeepsAccount(s: Chain, call: Call, a: AccountId)
    ensures Gains(s.self, Serve(s, call).chain.log, a) ==
            Gains(s.self, s.log, a) + Brought(VaultOf(BooksOf(s)), StepOf(s, call), a)
  {
    match call
    case PlaceOrder(who, base, answer, reach) =>
      ReceiptGains(s, LocalOrder(s, who, base), base.device, answer, reach, a);
    case Receive(_, _, _, _) => MessageGains(s, call, a);
    case Cancel(who, d, reach) =>
      if d in s.orders && s.now >= s.orders[d].until && s.orders[d].client == who && d in s.devices {
        RejectionGains(s, d, s.devices[d], false, true, reach, a);
      }
    case Accept(who, reject, onoff, reach) =>
      if reject {
        if who in s.devices && (s.devices[who].state == Busy || s.devices[who].state == Busy2) {
          RejectionGains(s, who, s.devices[who].(state := OnOff(onoff)), onoff, false, reach, a);
        }
      } else {
        AcceptanceGains(s, who, onoff, reach, a);
      }
    case Done(who, onoff, reach) => CompletionGains(s, who, onoff, reach, a);
    case Register(who, penalty, wcd, onoff) =>
      GainsOfMore(s.self, s.log, Record(Registered, who, None, s.now, penalty, false), a);
    case _ =>
  }

  lemma ReceiptGains(s: Chain, order: Order, d: AccountId, answer: Answer, reach: bool, a: AccountId)
    ensures Gains(s.self, OrderReceived(s, order, d, answer, reach).chain.log, a) == Gains(s.self, s.log, a)
  {
    if Refusal(s, order, d, answer) == None {
      var dev := s.devices[d];
      var placed := Record(Placed, d, Some(order), s.now, dev.penalty, false);
      GainsOfMore(s.self, s.log, placed, a);
      GainsOfMore(s.self, s.log + [placed], Record(Accepted, d, Some(order), s.now, dev.penalty, false), a);
    }
  }

  // ----- Settlement history --------------------------------------------------------------------

  /** What a call moves to account a with no event to tell of it. */
  function Untold(s: Chain, call: Call, a: AccountId): int {
    if PaysUntold(s, call) then
      var deal := LocalDeals(s)[call.who];
      (if a == call.who then deal.fee else 0) - (if a == deal.client then deal.fee else 0)
    else 0
  }

  function UntoldSum(s0: Chain, calls: seq<Call>, a: AccountId): int
    decreases |calls|
  {
    if calls == [] then 0
    else
      var n := |calls| - 1;
      UntoldSum(s0, calls[..n], a) + Untold(Run(s0, calls[..n]), calls[n], a)
  }

  predicate AllTold(s0: Chain, calls: seq<Call>)
    decreases |calls|
  {
    calls != [] ==>
      var n := |calls| - 1;
      AllTold(s0, calls[..n]) && !PaysUntold(Run(s0, calls[..n]), calls[n])
  }

  /** Settlement history: every account's balance is its first balance plus the outcomes of the closed local
      orders on the log, plus the fees of completions that failed on the penalty; and of the last there are
      none in a run without such completions. */
  lemma {:induction false} SettlementHistory(s0: Chain, calls: seq<Call>, a: AccountId)
    requires Genesis(s0)
    ensures Run(s0, calls).self == s0.self
    ensures Total(Run(s0, calls).accounts, a) ==
            Total(s0.accounts, a) + Gains(s0.self, Run(s0, calls).log, a) + UntoldSum(s0, calls, a)
    ensures AllTold(s0, calls) ==> UntoldSum(s0, calls, a) == 0
    decreases |calls|
  {
    if calls == [] {
    } else {
      var n := |calls| - 1;
      SettlementHistory(s0, calls[..n], a);
      Always(s0, calls[..n]);
      HistoryStep(Run(s0, calls[..n]), calls[n], a);
    }
  }

  lemma HistoryStep(s: Chain, call: Call, a: AccountId)
    requires Inv(s)
    ensures var s' := Serve(s, call).chain;
            && s'.self == s.self
            && Total(s'.accounts, a) - Total(s.accounts, a) ==
               Gains(s.self, s'.log, a) - Gains(s.self, s.log, a) + Untold(s, call, a)
  {
    CallSettles(s, call);
    SelfKept(s, call);
    if Torn(s, call) {
      ErrorsAreSilent(s, call);
      TornTotals(s, call, a);
    } else {
      LogKeepsAccount(s, call, a);
      TotalChange(BooksOf(s), StepOf(s, call), BooksOf(Serve(s, call).chain), a);
      assert !PaysUntold(s, call);
    }
  }

  lemma TornTotals(s: Chain, call: Call, a: AccountId)
    requires Inv(s) && Torn(s, call)
    ensures Total(Serve(s, call).chain.accounts, a) == Total(s.accounts, a) + Untold(s, call, a)
  {
    if !call.Done? {
      TornReceiptMoves(s, call);
    } else if call.who in LocalDeals(s) {
      TornCompletionMoves(s, call.who, call.onoff, call.reach);
    } else {
      UnsentCompletion(s, call);
    }
  }

  /** Account a has gained what the log has gained for it. */
  ghost predicate Told(s: Chain, s': Chain, a: AccountId) {
    Total(s'.accounts, a) - Total(s.accounts, a) == Gains(s.self, s'.log, a) - Gains(s.self, s.log, a)
  }

  /** From a state with the invariant, the log tells all that a call moves between accounts if and only if
      the call is not a completion that moves the fee and then fails. */
  lemma ToldIff(s: Chain, call: Call)
    requires Inv(s)
    ensures (forall a :: Told(s, Serve(s, call).chain, a)) <==> !PaysUntold(s, call)
  {
    var s' := Serve(s, call).chain;
    forall a ensures Told(s, s', a) <==> Untold(s, call, a) == 0 {
      HistoryStep(s, call, a);
    }
    if PaysUntold(s, call) {
      assert Untold(s, call, call.who) > 0;
    }
  }
}
