/** What holds of the service chain in every run, whatever its calls are and whether they fail or not. */
module ServiceTheorems {
  import opened Common
  import opened Ledger
  import opened Escrow
  import opened Accounting
  import opened Service
  import opened ServiceLog
  import opened ServiceLedger

  // ----- Invariants ----------------------------------------------------------------------------

  lemma {:induction false} Always(s0: Chain, calls: seq<Call>)
    requires Genesis(s0)
    ensures Inv(Run(s0, calls))
    decreases |calls|
  {
    if calls == [] {
      AtGenesis(s0);
    } else {
      var n := |calls| - 1;
      Always(s0, calls[..n]);
      InvKept(Run(s0, calls[..n]), calls[n]);
    }
  }

  /** No call makes or destroys money, so no credit can exceed what a balance can hold. */
  lemma {:induction false} Conservation(s0: Chain, calls: seq<Call>)
    requires Genesis(s0)
    ensures Issuance(Run(s0, calls).accounts) == Issuance(s0.accounts)
    ensures forall a :: Total(Run(s0, calls).accounts, a) < U128
    decreases |calls|
  {
    if calls == [] {
    } else {
      var n := |calls| - 1;
      Conservation(s0, calls[..n]);
      Always(s0, calls[..n]);
      CallSettles(Run(s0, calls[..n]), calls[n]);
    }
    forall a ensures Total(Run(s0, calls).accounts, a) < U128 {
      IssuanceBoundsOne(Run(s0, calls).accounts, a);
    }
  }

  /** An open order stands on a registered device that is busy with it. The log shows the placement of that
      very order at the penalty that the device still has, and no newer order; and if the device has
      accepted, its acceptance strictly before its deadline. */
  lemma OpenOrders(s0: Chain, calls: seq<Call>, d: AccountId) returns (p: nat, i: nat)
    requires Genesis(s0)
    requires d in Run(s0, calls).orders
    ensures var s := Run(s0, calls);
            && d in s.devices
            && (s.devices[d].state == Busy || s.devices[d].state == Busy2)
            && PlacedHere(s.log, p, d, s.orders[d], s.devices[d].penalty)
            && NoneNew(s.log, p + 1, |s.log|, d)
            && (s.devices[d].state == Busy2 ==> p < i && AcceptedHere(s.log, i, d, s.orders[d]))
  {
    Always(s0, calls);
    var s := Run(s0, calls);
    assert Fits(s, d);
    if s.devices[d].state == Busy2 {
      p, i := WorkingWasAccepted(s.log, d);
    } else {
      p := WaitingWasPlaced(s.log, d);
      i := 0;
    }
  }

  /** The order for d is open after each of the calls from the n-th on. */
  predicate OpenThroughout(s0: Chain, calls: seq<Call>, n: nat, d: AccountId)
    decreases |calls|
  {
    && n <= |calls|
    && d in Run(s0, calls).orders
    && (n < |calls| ==> OpenThroughout(s0, calls[..|calls| - 1], n, d))
  }

  /** From placement to closing neither an order nor its device's penalty and work cycle change. */
  lemma {:induction false} TermsFrozen(s0: Chain, calls: seq<Call>, n: nat, d: AccountId)
    requires Genesis(s0) && OpenThroughout(s0, calls, n, d)
    ensures TermsOf(Run(s0, calls), d).Some?
    ensures TermsOf(Run(s0, calls), d) == TermsOf(Run(s0, calls[..n]), d)
    decreases |calls|
  {
    Always(s0, calls);
    assert Fits(Run(s0, calls), d);
    if n == |calls| {
      assert calls[..n] == calls;
    } else {
      var m := |calls| - 1;
      TermsFrozen(s0, calls[..m], n, d);
      assert calls[..m][..n] == calls[..n];
      TermsKept(Run(s0, calls[..m]), calls[m], d);
    }
  }

  lemma TermsKept(s: Chain, call: Call, d: AccountId)
    requires d in s.orders && d in s.devices
    requires d in Serve(s, call).chain.orders
    ensures TermsOf(Serve(s, call).chain, d) == TermsOf(s, d)
  {
    match call
    case PlaceOrder(who, base, answer, reach) =>
      ReceiptKeepsTerms(s, LocalOrder(s, who, base), base.device, answer, reach, d);
    case Receive(sender, m, answer, reach) =>
      if m.NewOrder? {
        var b := m.order;
        ReceiptKeepsTerms(s, Order(b.until, b.data, b.fee, m.client, sender), b.device, answer, reach, d);
      }
    case Cancel(who, x, reach) =>
      if x in s.orders && x in s.devices {
        RejectionKeepsTerms(s, OrderOf(s, x), x, s.devices[x], false, true, reach, d);
      }
    case Accept(who, reject, onoff, reach) =>
      if who in s.devices && reject {
        RejectionKeepsTerms(s, OrderOf(s, who), who, s.devices[who].(state := OnOff(onoff)), onoff, false, reach, d);
      }
    case Done(who, onoff, reach) => CompletionKeepsTerms(s, who, onoff, reach, d);
    case _ =>
  }

  lemma ReceiptKeepsTerms(s: Chain, order: Order, x: AccountId, answer: Answer, reach: bool, d: AccountId)
    requires d in s.orders && d in s.devices
    ensures TermsOf(OrderReceived(s, order, x, answer, reach).chain, d) == TermsOf(s, d)
  {
  }

  lemma RejectionKeepsTerms(s: Chain, order: Option<Order>, x: AccountId, dev: Device,
                            onoff: bool, byClient: bool, reach: bool, d: AccountId)
    requires d in s.orders && d in s.devices
    ensures var s' := OrderRejected(s, order, x, dev, onoff, byClient, reach).chain;
            d in s'.orders ==> TermsOf(s', d) == TermsOf(s, d)
  {
  }

  lemma CompletionKeepsTerms(s: Chain, x: AccountId, onoff: bool, reach: bool, d: AccountId)
    requires d in s.orders && d in s.devices
    ensures var s' := DoneCall(s, x, onoff, reach).chain;
            d in s'.orders ==> TermsOf(s', d) == TermsOf(s, d)
  {
  }

  /** The deadline of every open order lies after its placement. It leaves the device its whole work cycle
      if and only if the sum of the placement time and the cycle does not wrap around. */
  lemma FullWorkCycle(s0: Chain, calls: seq<Call>, d: AccountId) returns (p: nat)
    requires Genesis(s0)
    requires d in Run(s0, calls).orders
    ensures var s := Run(s0, calls);
            && d in s.devices
            && Is(s.log, p, d, Placed) && s.log[p].order == Some(s.orders[d])
            && NoneNew(s.log, p + 1, |s.log|, d)
            && s.log[p].at < s.orders[d].until
            && (s.orders[d].until >= s.log[p].at + s.devices[d].wcd <==> s.log[p].at + s.devices[d].wcd < U64)
  {
    Always(s0, calls);
    var s := Run(s0, calls);
    assert Fits(s, d);
    if s.devices[d].state == Busy2 {
      var i;
      p, i := WorkingWasAccepted(s.log, d);
    } else {
      p := WaitingWasPlaced(s.log, d);
    }
    WrapChecks(s.log[p].at, s.devices[d].wcd, s.orders[d].until);
  }

  // ----- Events --------------------------------------------------------------------------------

  lemma NeverBroken(s0: Chain, calls: seq<Call>, d: AccountId)
    requires Genesis(s0)
    ensures StoryOf(Run(s0, calls).log, d) != Broken
  {
    Always(s0, calls);
    assert Fits(Run(s0, calls), d);
  }

  /** The completion at j follows the placement of its order, at its penalty, and its timely acceptance. */
  ghost predicate Earned(log: seq<Record>, j: nat, d: AccountId) {
    && j < |log| && log[j].order.Some?
    && exists p, k :: p < k < j
                      && PlacedHere(log, p, d, log[j].order.value, log[j].penalty)
                      && AcceptedHere(log, k, d, log[j].order.value)
                      && NoneNew(log, p + 1, j, d)
  }

  /** Two events of a device with no new order between them: not two acceptances, nothing but a new start
      after a completion, no completion or acceptance after a rejection, and a second rejection only when
      the first was the client's cancel. A completion always follows a timely acceptance. */
  lemma EventOrder(s0: Chain, calls: seq<Call>, d: AccountId, i: nat, j: nat)
    requires Genesis(s0)
    requires i < j < |Run(s0, calls).log|
    requires var log := Run(s0, calls).log;
             log[i].device == d && log[j].device == d && NoneNew(log, i + 1, j, d)
    ensures var log := Run(s0, calls).log;
            && !(log[i].fact == Accepted && log[j].fact == Accepted)
            && (log[i].fact == Completed ==> log[j].fact == Registered || log[j].fact == Placed)
            && (log[i].fact == Rejected ==> log[j].fact != Completed && log[j].fact != Accepted)
            && (log[i].fact == Rejected && log[j].fact == Rejected ==>
                  log[i].byClient && log[j].order == None)
            && (log[j].fact == Completed ==> Earned(log, j, d))
  {
    NeverBroken(s0, calls, d);
    var log := Run(s0, calls).log;
    AtMostOnce(log, d, i, j);
    if log[j].fact == Completed {
      var p, k := CompletedWasAccepted(log, d, j);
    }
  }

  // ----- Errors --------------------------------------------------------------------------------

  /** Without transactions a call is still all or nothing, except exactly for the torn calls. */
  lemma AllOrNothing(s0: Chain, calls: seq<Call>, call: Call)
    requires Genesis(s0)
    ensures var s := Run(s0, calls);
            var reply := Serve(s, call);
            && (reply.out.Err? && reply.chain != s <==> Torn(s, call))
            && (reply.out.Err? ==> reply.sent == None && reply.chain.log == s.log)
  {
    Always(s0, calls);
    CallSettles(Run(s0, calls), call);
    ErrorsAreSilent(Run(s0, calls), call);
  }

  /** No torn call if the client is not the device, the destination can be reached, and the accounts that
      the order names have some free balance. */
  lemma WhenNothingTears(s0: Chain, calls: seq<Call>, call: Call)
    requires Genesis(s0)
    requires call.PlaceOrder? ==> call.who != call.base.device
    requires call.Receive? && call.message.NewOrder? ==> call.message.client != call.message.order.device
    requires var s := Run(s0, calls);
             call.Done? && call.who in s.orders ==>
               if s.orders[call.who].paraid == s.self
               then Free(s.accounts, call.who) > 0 && Free(s.accounts, s.orders[call.who].client) > 0
               else call.reach
    ensures !Torn(Run(s0, calls), call)
  {
    Always(s0, calls);
    var s := Run(s0, calls);
    if call.Done? && call.who in LocalDeals(s) {
      var deal := LocalDeals(s)[call.who];
      DealHolds(BooksOf(s), call.who);
      assert Reserved(s.accounts, deal.client) >= Share(call.who, deal, deal.client);
    }
  }

  // ----- Money ---------------------------------------------------------------------------------

  /** A torn call that leaves money on reserve with no order for it. */
  predicate Strands(s: Chain, call: Call) {
    Torn(s, call) && (call.Done? ==> call.who in s.orders && s.orders[call.who].paraid == s.self)
  }

  /** No call of the run strands money. */
  predicate NeverStrands(s0: Chain, calls: seq<Call>)
    decreases |calls|
  {
    calls != [] ==>
      var n := |calls| - 1;
      NeverStrands(s0, calls[..n]) && !Strands(Run(s0, calls[..n]), calls[n])
  }

  /** The order that a call brings in, and its device. */
  function Incoming(s: Chain, call: Call): (Order, AccountId)
    requires call.PlaceOrder? || (call.Receive? && call.message.NewOrder?)
  {
    if call.PlaceOrder? then (LocalOrder(s, call.who, call.base), call.base.device)
    else
      var b := call.message.order;
      (Order(b.until, b.data, b.fee, call.message.client, call.sender), b.device)
  }

  /** A torn receipt moves the device's penalty to its reserve, and nothing else. */
  lemma TornReceiptMoves(s: Chain, call: Call)
    requires Inv(s) && Torn(s, call) && !call.Done?
    ensures var s' := Serve(s, call).chain;
            var d := Incoming(s, call).1;
            && LocalDeals(s') == LocalDeals(s)
            && Free(s'.accounts, d) < Free(s.accounts, d)
            && Reserved(s'.accounts, d) > Reserved(s.accounts, d)
            && forall a :: Total(s'.accounts, a) == Total(s.accounts, a)
  {
    var (order, d) := Incoming(s, call);
    HoldMoves(s.accounts, d, DealOf(order, s.devices[d].penalty));
    ReserveConserves(s.accounts, d, s.devices[d].penalty);
    assert LocalDeals(Serve(s, call).chain) == LocalDeals(s);
  }

  /** A torn local completion takes the deal away; it moves nothing, or the fee alone. */
  lemma TornCompletionMoves(s: Chain, d: AccountId, onoff: bool, reach: bool)
    requires Inv(s) && TornCompletion(s, d, reach) && d in LocalDeals(s)
    ensures var s' := DoneCall(s, d, onoff, reach).chain;
            var deal := LocalDeals(s)[d];
            && LocalDeals(s') == LocalDeals(s) - {d}
            && (PaysUntold(s, Done(d, onoff, reach)) ==>
                  forall a :: Free(s'.accounts, a) == Free(s.accounts, a) + (if a == d then deal.fee else 0)
                           && Reserved(s'.accounts, a) ==
                              Reserved(s.accounts, a) - (if a == deal.client then deal.fee else 0))
            && (!PaysUntold(s, Done(d, onoff, reach)) ==> s'.accounts == s.accounts)
  {
    var deal := LocalDeals(s)[d];
    DealHolds(BooksOf(s), d);
    HalfPaidWhenHeld(s.accounts, d, deal, s.now >= deal.until);
    PayTears(s.accounts, d, deal.client, deal.fee, deal.penalty, s.now >= deal.until);
    assert Reserved(s.accounts, deal.client) >= Share(d, deal, deal.client);
    assert LocalDeals(DoneCall(s, d, onoff, reach).chain) == LocalDeals(s) - {d};
  }

  /** A completion that moves the fee and then fails, so that no event tells of the fee. */
  predicate PaysUntold(s: Chain, call: Call) {
    && call.Done?
    && call.who in LocalDeals(s) && s.devices[call.who].state == Busy2
    && var d := call.who;
       var deal := LocalDeals(s)[d];
       HalfPaid(s.accounts, d, deal.client, deal.fee, deal.penalty, s.now >= deal.until)
  }

  /** Stranded money shows: someone's slack has grown, and no step of the escrow machine does what was done. */
  lemma StrandedCompletion(s: Chain, d: AccountId, onoff: bool, reach: bool) returns (a: AccountId)
    requires Inv(s) && TornCompletion(s, d, reach) && d in LocalDeals(s)
    ensures var b, b' := BooksOf(s), BooksOf(DoneCall(s, d, onoff, reach).chain);
            Slack(b', a) > Slack(b, a) && !IsStep(b, b')
  {
    var b, b' := BooksOf(s), BooksOf(DoneCall(s, d, onoff, reach).chain);
    var deal := LocalDeals(s)[d];
    TornCompletionMoves(s, d, onoff, reach);
    a := if DeviceGone(s.accounts, d, deal) then deal.client else d;
    DueClose(LocalDeals(s), d, a);
    ClosedForLess(b, b', d, PaysUntold(s, Done(d, onoff, reach)));
  }

  /** A call is a step of the escrow machine, the one its name suggests, if and only if it strands no money;
      and if it does, some slack has grown. */
  lemma StrandsIff(s: Chain, call: Call)
    requires Inv(s)
    ensures var b, b' := BooksOf(s), BooksOf(Serve(s, call).chain);
            && (!Strands(s, call) ==> Clean(b, StepOf(s, call), b'))
            && (Strands(s, call) ==> !IsStep(b, b') && Grown(b, b'))
  {
    var s' := Serve(s, call).chain;
    CallSettles(s, call);
    if Strands(s, call) {
      if call.Done? {
        var a := StrandedCompletion(s, call.who, call.onoff, call.reach);
      } else {
        var d := Incoming(s, call).1;
        TornReceiptMoves(s, call);
        MovedForNothing(BooksOf(s), BooksOf(s'), d);
        assert Slack(BooksOf(s'), d) > Slack(BooksOf(s), d);
      }
    } else if Torn(s, call) {
      UnsentCompletion(s, call);
      Quiet(BooksOf(s));
    }
  }

  /** A torn call that strands nothing is a completion whose message cannot be sent. */
  lemma UnsentCompletion(s: Chain, call: Call)
    requires Torn(s, call) && !Strands(s, call)
    ensures BooksOf(Serve(s, call).chain) == BooksOf(s)
    ensures StepOf(s, call) == Stutter
  {
    assert LocalDeals(Serve(s, call).chain) == LocalDeals(s);
  }

  /** Backing. In every reachable state an account has at least on reserve what it had at first plus what
      the open local orders require; it is exactly that for all accounts if and only if no call of the run
      has stranded money. */
  lemma {:induction false} Backing(s0: Chain, calls: seq<Call>)
    requires Genesis(s0)
    ensures forall a :: Slack(BooksOf(Run(s0, calls)), a) >= Reserved(s0.accounts, a)
    ensures (forall a :: Slack(BooksOf(Run(s0, calls)), a) == Reserved(s0.accounts, a)) <==> NeverStrands(s0, calls)
    decreases |calls|
  {
    if calls == [] {
      assert LocalDeals(s0) == map[];
      NothingOpen(BooksOf(s0));
    } else {
      var n := |calls| - 1;
      var before := Run(s0, calls[..n]);
      Backing(s0, calls[..n]);
      Always(s0, calls[..n]);
      StrandsIff(before, calls[n]);
      MoreSlack(BooksOf(before), BooksOf(Run(s0, calls)), s0.accounts);
    }
  }

  /** In every reachable state a call is a step of the escrow machine, the one its name suggests, if and only
      if it strands no money. */
  lemma RefinesEscrow(s0: Chain, calls: seq<Call>, call: Call)
    requires Genesis(s0)
    ensures var s := Run(s0, calls);
            var b, b' := BooksOf(s), BooksOf(Serve(s, call).chain);
            && (IsStep(b, b') <==> !Strands(s, call))
            && (IsStep(b, b') ==> Next(VaultOf(b), StepOf(s, call), VaultOf(b')))
  {
    Always(s0, calls);
    StrandsIff(Run(s0, calls), call);
  }

  // ----- Auto-accept ---------------------------------------------------------------------------

  /** A callback that answers Busy2 does in one call exactly what one that answers Busy leaves for the
      device to do in a second: same storage, balances, events and messages. */
  lemma AutoAccept(s: Chain, order: Order, d: AccountId, onoff: bool, reach: bool)
    ensures var auto := OrderReceived(s, order, d, Some(Busy2), reach);
            var first := OrderReceived(s, order, d, Some(Busy), reach);
            var second := AcceptCall(first.chain, d, false, onoff, reach);
            && auto.out == first.out
            && (first.out.Err? ==> auto == first)
            && (first.out == Ok ==>
                  && second.out == Ok
                  && auto.chain == second.chain
                  && Posted(auto.sent) == Posted(first.sent) + Posted(second.sent))
  {
    var auto := OrderReceived(s, order, d, Some(Busy2), reach);
    var first := OrderReceived(s, order, d, Some(Busy), reach);
    if first.out == Ok {
      var second := AcceptCall(first.chain, d, false, onoff, reach);
      assert first.chain.devices == s.devices[d := s.devices[d].(state := Busy)];
      assert second.chain.devices == s.devices[d := s.devices[d].(state := Busy2)];
      assert auto.chain == second.chain;
    }
  }
}
