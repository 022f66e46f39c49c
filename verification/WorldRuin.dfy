/** What a completion that pays only half leaves behind: an order that can never be closed, and reserves that
    fall short for that order alone. Everything else on the client chain stays backed. */
module WorldRuin {
  import opened Common
  import opened Ledger
  import opened Escrow
  import opened Accounting
  import C = Client
  import CL = ClientLedger
  import CT = ClientTheorems
  import opened World
  import opened WorldProtocol
  import opened WorldTheorems
  import opened WorldOutcome

  /** The order for d is overdue, and its client, who is owed the penalty, does not exist. */
  predicate Unclosable(s: C.Chain, d: AccountId) {
    && d in s.orders && d in s.devices
    && s.orders[d].until <= s.now
    && s.orders[d].client != d && s.devices[d].penalty > 0
    && !Exists(s.accounts, s.orders[d].client)
  }

  /** Besides, nothing is outstanding for d, so that no final word will come. */
  ghost predicate Ruined(w: World, d: AccountId) {
    Unclosable(w.client, d) && Clear(w, d)
  }

  /** If somebody's reserve falls short, that account does not exist, and all that it falls short for are
      ruined orders of its own. */
  ghost predicate Confined(w: World) {
    forall a :: Slack(BooksAt(w), a) < 0 ==> ShortFor(w, a)
  }

  ghost predicate ShortFor(w: World, a: AccountId) {
    var open := BooksAt(w).open;
    && !Exists(w.client.accounts, a)
    && forall d :: d in open && Share(d, open[d], a) > 0 ==> Ruined(w, d) && open[d].client == a
  }

  // ----- Ruined orders stay ruined -----------------------------------------------------------------

  lemma ClientKeepsGone(s: C.Chain, call: C.Call, c: AccountId)
    requires !Exists(s.accounts, c)
    ensures !Exists(C.Serve(s, call).chain.accounts, c)
  {
    match call
    case PlaceOrder(who, base, _) =>
      if base.device in s.devices {
        HoldKeepsGone(s.accounts, c, base.device, who, base.fee, s.devices[base.device].penalty);
      }
    case Cancel(who, d) => ClosingKeepsGone(s, d, who, c);
    case Receive(OrderReject(who, d, _)) => ClosingKeepsGone(s, d, who, c);
    case Receive(OrderDone(who, d, _)) => ClosingKeepsGone(s, d, who, c);
    case _ =>
  }

  lemma ClosingKeepsGone(s: C.Chain, d: AccountId, who: AccountId, c: AccountId)
    requires !Exists(s.accounts, c)
    ensures d in s.orders && d in s.devices ==>
              var o := s.orders[d];
              var late := s.now >= o.until;
              && !Exists(Pay(s.accounts, d, who, o.fee, s.devices[d].penalty, late).accounts, c)
              && !Exists(Refund(s.accounts, d, who, o.client, o.fee, s.devices[d].penalty, late).accounts, c)
  {
    if d in s.orders && d in s.devices {
      var o := s.orders[d];
      PayKeepsGone(s.accounts, c, d, who, o.fee, s.devices[d].penalty, s.now >= o.until);
      RefundKeepsGone(s.accounts, c, d, who, o.client, o.fee, s.devices[d].penalty, s.now >= o.until);
    }
  }

  /** Nobody can cancel an unclosable order, and the attempt changes nothing. */
  lemma CancelIsVain(s: C.Chain, who: AccountId, d: AccountId)
    requires Issuance(s.accounts) < U128 && Unclosable(s, d)
    ensures C.CancelCall(s, who, d).out.Err? && C.CancelCall(s, who, d).chain == s
  {
    if s.orders[d].client == who {
      LateRefunds(s.accounts, d, CL.Deals(s)[d]);
      CL.TornIff(s, C.Cancel(who, d));
    }
  }

  /** A call without a final word for d. */
  lemma UnclosableStays(s: C.Chain, call: C.Call, d: AccountId)
    requires Issuance(s.accounts) < U128 && Unclosable(s, d)
    requires call.Cancel? || CL.Subject(call) != Some(d)
    ensures Unclosable(C.Serve(s, call).chain, d)
  {
    if call.Cancel? && call.device == d {
      CancelIsVain(s, call.who, d);
    } else {
      OthersLeaveOpen(s, call, d);
      CT.TermsKept(s, call, d);
      ClientKeepsGone(s, call, s.orders[d].client);
    }
  }

  lemma OthersLeaveOpen(s: C.Chain, call: C.Call, d: AccountId)
    requires d in s.orders && CL.Subject(call) != Some(d)
    ensures d in C.Serve(s, call).chain.orders
    ensures C.Serve(s, call).chain.now >= s.now
  {
  }

  /** Whatever happens, a ruined order stays ruined. */
  lemma RuinedStays(w: World, step: Step, d: AccountId)
    requires Issuance(w.client.accounts) < U128 && Protocol(w) && Possible(w, step)
    requires Ruined(w, d)
    ensures Ruined(Apply(w, step), d)
    ensures CallOf(w, step).Some? && CL.Subject(CallOf(w, step).value) == Some(d) ==> CallOf(w, step).value.Cancel?
  {
    ClientAfter(w, step);
    if CallOf(w, step).Some? {
      var call := CallOf(w, step).value;
      assert step.Deliver? ==> !Flying(w, step.ticket, d);
      UnclosableStays(w.client, call, d);
    }
    if Outstanding(Apply(w, step), d) {
      OutstandingBefore(w, step, d);
    }
  }

  // ----- All other deals are on reserve --------------------------------------------------------------

  lemma SoundDealHolds(w: World, d: AccountId)
    requires Confined(w) && d in BooksAt(w).open && !Ruined(w, d)
    ensures Holds(w.client.accounts, d, BooksAt(w).open[d])
  {
    var b := BooksAt(w);
    forall a ensures Reserved(b.accounts, a) >= Share(d, b.open[d], a) {
      DueClose(b.open, d, a);
      if Slack(b, a) < 0 {
        assert ShortFor(w, a);
      }
    }
  }

  /** Every step is clean, even if somebody's reserve falls short, unless it overcommits or pays only half. */
  lemma StepSettles(w: World, step: Step)
    requires Confined(w) && CL.Sound(w.client) && Protocol(w) && Possible(w, step)
    requires !Overcommits(w, step) && !HalfPays(w, step)
    ensures Clean(BooksAt(w), MoneyStep(w, step), BooksAt(Apply(w, step)))
  {
    FaithfulStep(w, step);
    ClientAfter(w, step);
    Quiet(BooksAt(w));
    if CallOf(w, step).Some? {
      var call := CallOf(w, step).value;
      var subject := CL.Subject(call);
      if subject.Some? && subject.value in w.client.orders && Ruined(w, subject.value) {
        RuinedStays(w, step, subject.value);
        CancelIsVain(w.client, call.who, subject.value);
      } else {
        if subject.Some? && subject.value in BooksAt(w).open {
          SoundDealHolds(w, subject.value);
        }
        CL.CallSettles(w.client, call);
      }
    }
  }

  /** A completion that pays only half ruins its order, and its client falls short for that order alone. */
  lemma HalfPayRuins(w: World, step: Step)
    requires Confined(w) && CL.Sound(w.client) && Protocol(w) && Possible(w, step)
    requires HalfPays(w, step)
    ensures var m := CallOf(w, step).value.message;
            Ruined(Apply(w, step), m.device) && ShortFor(Apply(w, step), m.client)
  {
    var call := CallOf(w, step).value;
    var d, who := call.message.device, call.message.client;
    var w' := Apply(w, step);
    var b := BooksAt(w);
    FaithfulStep(w, step);
    ClientAfter(w, step);
    CL.HalfPayMoves(w.client, call);
    CL.TornIff(w.client, call);
    HalfPayLeaves(w.client, call);
    TakenOff(w, step.ticket);
    assert Concerns(w.net[step.ticket], d);
    if Outstanding(w', d) {
      ClientOutstanding(w.(net := w.net - {step.ticket}), call, d);
    }
    assert Slack(b, who) < 0 ==> ShortFor(w, who);
    forall x | x in b.open && Share(x, b.open[x], who) > 0 ensures x == d {
      if x != d {
        DueOfTwo(b.open, d, x, who);
      }
    }
  }

  lemma HalfPayLeaves(s: C.Chain, call: C.Call)
    requires Issuance(s.accounts) < U128 && CL.HalfPays(s, call)
    ensures var s' := C.Serve(s, call).chain;
            s'.orders == s.orders && s'.devices == s.devices && s'.now == s.now
  {
    var d := call.message.device;
    var deal := CL.Deals(s)[d];
    PayTears(s.accounts, d, call.message.client, deal.fee, deal.penalty, s.now >= deal.until);
  }

  lemma DueOfTwo(open: map<AccountId, Deal>, d: AccountId, x: AccountId, a: AccountId)
    requires d in open && x in open && x != d
    ensures Due(open, a) >= Share(d, open[d], a) + Share(x, open[x], a)
  {
    DueClose(open, d, a);
    DueClose(open - {d}, x, a);
  }

  // ----- Shortfalls stay confined ----------------------------------------------------------------------

  lemma StepKeepsGone(w: World, step: Step, a: AccountId)
    requires !Exists(w.client.accounts, a)
    ensures !Exists(Apply(w, step).client.accounts, a)
  {
    ClientAfter(w, step);
    if CallOf(w, step).Some? {
      ClientKeepsGone(w.client, CallOf(w, step).value, a);
    }
  }

  /** An account that falls short still does so only for its ruined orders, if no deal is opened that has a
      share of it. */
  lemma ShortStays(w: World, step: Step, a: AccountId)
    requires Issuance(w.client.accounts) < U128 && Protocol(w) && Possible(w, step)
    requires ShortFor(w, a)
    requires var open, open' := BooksAt(w).open, BooksAt(Apply(w, step)).open;
             forall x :: x in open' && Share(x, open'[x], a) > 0 ==> x in open && open[x] == open'[x]
    ensures ShortFor(Apply(w, step), a)
  {
    StepKeepsGone(w, step, a);
    var open' := BooksAt(Apply(w, step)).open;
    forall x | x in open' && Share(x, open'[x], a) > 0 ensures Ruined(Apply(w, step), x) && open'[x].client == a {
      RuinedStays(w, step, x);
    }
  }

  /** Nobody can open a deal with a share of an account that has nothing. */
  lemma NoShareOfGone(b: Books, step: Move, b': Books, a: AccountId)
    requires Clean(b, step, b') && !Exists(b.accounts, a)
    ensures forall x :: x in b'.open && Share(x, b'.open[x], a) > 0 ==> x in b.open && b.open[x] == b'.open[x]
  {
    PurseIsFree(b);
    PurseIsFree(b');
    if step.Open? {
      assert Purse(VaultOf(b'), a) == Purse(VaultOf(b), a) - Share(step.device, step.deal, a);
    }
  }

  lemma ConfinedStays(w: World, step: Step)
    requires Confined(w) && CL.Sound(w.client) && Protocol(w) && Possible(w, step)
    ensures Confined(Apply(w, step))
  {
    var w' := Apply(w, step);
    forall a | Slack(BooksAt(w'), a) < 0 ensures ShortFor(w', a) {
      if HalfPays(w, step) {
        HalfPayRuins(w, step);
        ClientAfter(w, step);
        CL.HalfPayMoves(w.client, CallOf(w, step).value);
      } else if Overcommits(w, step) {
        ClientAfter(w, step);
        CL.OvercommitMoves(w.client, CallOf(w, step).value);
      } else {
        StepSettles(w, step);
        assert Slack(BooksAt(w), a) < 0;
        NoShareOfGone(BooksAt(w), MoneyStep(w, step), BooksAt(w'), a);
      }
      if !(HalfPays(w, step) && a == CallOf(w, step).value.message.client) {
        ShortStays(w, step, a);
      }
    }
  }

  /** In every run under H the client chain is sound, and shortfalls are confined to ruined orders. */
  lemma {:induction false} ConfinedAlways(w0: World, steps: seq<Step>)
    requires Genesis(w0) && Lawful(w0, steps)
    ensures CL.Sound(Exec(w0, steps).client) && Confined(Exec(w0, steps))
    decreases |steps|
  {
    ClientShape(w0, steps);
    ClientConservation(w0, steps);
    if steps == [] {
      NothingOpen(BooksAt(w0));
    } else {
      var n := |steps| - 1;
      ConfinedAlways(w0, steps[..n]);
      Always(w0, steps[..n]);
      ConfinedStays(Exec(w0, steps[..n]), steps[n]);
    }
  }

  /** A ruined order is never closed, whatever the rest of the run, under H, may bring. */
  lemma {:induction false} RuinedForGood(w: World, steps: seq<Step>, d: AccountId)
    requires Issuance(w.client.accounts) < U128 && Protocol(w) && Lawful(w, steps) && Ruined(w, d)
    ensures Ruined(Exec(w, steps), d) && Protocol(Exec(w, steps))
    ensures Issuance(Exec(w, steps).client.accounts) < U128
    decreases |steps|
  {
    if steps == [] {
    } else {
      var n := |steps| - 1;
      var before := Exec(w, steps[..n]);
      RuinedForGood(w, steps[..n], d);
      RuinedStays(before, steps[n], d);
      ProtocolKept(before, steps[n]);
      ClientAfter(before, steps[n]);
      if CallOf(before, steps[n]).Some? {
        CL.Conserves(before.client, CallOf(before, steps[n]).value);
      }
    }
  }
}
