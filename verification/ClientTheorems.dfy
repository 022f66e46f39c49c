/** What single calls keep on the client chain. */
module ClientTheorems {
  import opened Common
  import opened Ledger
  import opened Escrow
  import opened Accounting
  import opened Client
  import opened ClientLedger

  /** A call whose message names the order's client keeps every open order backed if and only if it is not
      a completion that pays only half. */
  lemma InvKeptIff(s: Chain, call: Call)
    requires Inv(s) && Faithful(s, call)
    ensures Inv(Serve(s, call).chain) <==> !HalfPays(s, call)
  {
    var s' := Serve(s, call).chain;
    ShapeKept(s, call);
    Conserves(s, call);
    SlackKept(s, call);
    if HalfPays(s, call) {
      var d := call.message.device;
      HalfPayMoves(s, call);
      DueClose(Deals(s), d, Deals(s)[d].client);
      assert Slack(BooksOf(s'), Deals(s)[d].client) < 0;
    } else {
      forall a ensures Slack(BooksOf(s'), a) >= 0 {
        assert Slack(BooksOf(s), a) >= 0;
      }
    }
  }

  /** A call whose message names the order's client is a step of the escrow machine, the one its name suggests,
      if and only if it is neither a placement that overcommits nor a completion that pays only half. */
  lemma RefinesEscrow(s: Chain, call: Call)
    requires Inv(s) && Faithful(s, call)
    ensures var b, b' := BooksOf(s), BooksOf(Serve(s, call).chain);
            && (IsStep(b, b') <==> !Overcommits(s, call) && !HalfPays(s, call))
            && (IsStep(b, b') ==> Clean(b, StepOf(s, call), b'))
  {
    if Overcommits(s, call) {
      OvercommitMoves(s, call);
    } else if HalfPays(s, call) {
      HalfPayMoves(s, call);
    } else {
      InvHolds(s, call);
      CallSettles(s, call);
    }
  }

  /** A completion that names a third account closes the order at that account's expense, and the client's
      fee stays on reserve with no order for it: that the protocol makes messages faithful is needed. */
  lemma MisnamedStrands(s: Chain, who: AccountId, d: AccountId, onoff: bool)
    requires Shape(s) && d in s.orders
    requires s.orders[d].client != who && s.orders[d].client != d
    requires Serve(s, Receive(OrderDone(who, d, onoff))).out == Ok
    ensures var s' := Serve(s, Receive(OrderDone(who, d, onoff))).chain;
            var client := s.orders[d].client;
            && d !in s'.orders
            && Reserved(s'.accounts, client) == Reserved(s.accounts, client)
            && Slack(BooksOf(s'), client) == Slack(BooksOf(s), client) + s.orders[d].fee
  {
    var o := s.orders[d];
    PayOthers(s.accounts, d, who, o.fee, s.devices[d].penalty, s.now >= o.until, o.client);
    CompletionFiled(s, who, d, onoff);
    DueClose(Deals(s), d, o.client);
  }

  // ----- Terms ---------------------------------------------------------------------------------

  /** An order that a placement files, sent or not, has its deadline after the placement, stands on the
      penalty that the device had then, and leaves the device its whole work cycle if and only if placement
      time and cycle do not wrap around. */
  lemma PlacedOnTerms(s: Chain, who: AccountId, base: OrderBase, reach: bool)
    requires base.device !in s.orders
    requires base.device in Serve(s, PlaceOrder(who, base, reach)).chain.orders
    ensures base.device in s.devices
    ensures var dev := s.devices[base.device];
            && TermsOf(Serve(s, PlaceOrder(who, base, reach)).chain, base.device) ==
               Some(Terms(base.Convert(who), dev.penalty, dev.wcd))
            && s.now < base.until
            && (base.until >= s.now + dev.wcd <==> s.now + dev.wcd < U64)
  {
    WrapChecks(s.now, s.devices[base.device].wcd, base.until);
  }

  /** A call that leaves an order open leaves its terms as they are. */
  lemma TermsKept(s: Chain, call: Call, d: AccountId)
    requires d in s.orders && d in s.devices
    requires d in Serve(s, call).chain.orders
    ensures TermsOf(Serve(s, call).chain, d) == TermsOf(s, d)
  {
  }

  lemma OnlyPlacementFiles(s: Chain, call: Call, d: AccountId)
    requires d !in s.orders && d in Serve(s, call).chain.orders
    ensures call.PlaceOrder? && call.base.device == d
  {
  }

  // ----- Gain and loss -------------------------------------------------------------------------

  predicate Overdue(s: Chain, d: AccountId) {
    d in s.orders && s.orders[d].until <= s.now
  }

  /** Money has moved only between device d and its order's client: to the device at most `fee`, and to the
      client at most the penalty, and that only past the deadline. */
  ghost predicate ShiftedAt(s: Chain, l': Accounts, d: AccountId, fee: Balance)
    requires d in s.orders && d in s.devices
  {
    var client := s.orders[d].client;
    && (forall a :: a != d && a != client ==> Total(l', a) == Total(s.accounts, a))
    && Total(l', d) + Total(l', client) == Total(s.accounts, d) + Total(s.accounts, client)
    && Total(l', d) <= Total(s.accounts, d) + fee
    && Total(l', d) >= Total(s.accounts, d) - (if Overdue(s, d) then s.devices[d].penalty else 0)
  }

  /** From any state a faithful call moves money only between the device that it is about and the client of
      that device's order: to the device only if it is a completion, and no more than the fee; to the client
      only past the order's deadline, and no more than the penalty. */
  lemma MoneyShifts(s: Chain, call: Call)
    requires Issuance(s.accounts) < U128 && Faithful(s, call)
    ensures var l' := Serve(s, call).chain.accounts;
            var subject := Subject(call);
            if subject.Some? && subject.value in Deals(s)
            then ShiftedAt(s, l', subject.value,
                           if call.Receive? && call.message.OrderDone? then s.orders[subject.value].fee else 0)
            else forall a :: Total(l', a) == Total(s.accounts, a)
  {
    match call
    case PlaceOrder(who, base, _) =>
      if Refusal(s, base) == None {
        HoldMoves(s.accounts, base.device, Deal(who, base.fee, s.devices[base.device].penalty, base.until));
      }
    case Cancel(_, d) =>
      if d in Deals(s) {
        RejectionShifts(s, d, s.devices[d]);
      }
    case Receive(OrderReject(_, d, onoff)) =>
      if d in Deals(s) {
        RejectionShifts(s, d, s.devices[d].(state := OnOff(onoff)));
      }
    case Receive(OrderDone(who, d, onoff)) =>
      if d in Deals(s) {
        CompletionShifts(s, d, onoff);
      }
    case _ =>
  }

  lemma RejectionShifts(s: Chain, d: AccountId, dev: Device)
    requires Issuance(s.accounts) < U128
    requires d in s.orders && d in s.devices && dev.penalty == s.devices[d].penalty
    ensures ShiftedAt(s, OrderRejected(s, s.orders[d].client, s.orders[d], d, dev).chain.accounts, d, 0)
  {
    var o := s.orders[d];
    RefundShifts(s.accounts, d, o.client, o.client, o.fee, dev.penalty, s.now >= o.until);
  }

  lemma CompletionShifts(s: Chain, d: AccountId, onoff: bool)
    requires Issuance(s.accounts) < U128
    requires d in s.orders && d in s.devices
    ensures ShiftedAt(s, OnDone(s, s.orders[d].client, d, onoff).chain.accounts, d, s.orders[d].fee)
  {
    var o := s.orders[d];
    PayShifts(s.accounts, d, o.client, o.fee, s.devices[d].penalty, s.now >= o.until);
  }
}
