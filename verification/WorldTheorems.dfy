/** What holds of the two chains in every run under hypothesis H. */
module WorldTheorems {
  import opened Common
  import opened Ledger
  import opened Escrow
  import opened Accounting
  import C = Client
  import CL = ClientLedger
  import CT = ClientTheorems
  import S = Service
  import SL = ServiceLedger
  import opened ServiceLog
  import opened World
  import opened WorldProtocol

  lemma {:induction false} Always(w0: World, steps: seq<Step>)
    requires Genesis(w0) && Lawful(w0, steps)
    ensures Inv(Exec(w0, steps))
    decreases |steps|
  {
    if steps == [] {
      SL.AtGenesis(w0.service);
      forall d ensures Kept(w0, d) {
        assert forall t :: !Flying(w0, t, d);
      }
    } else {
      var n := |steps| - 1;
      Always(w0, steps[..n]);
      var w := Exec(w0, steps[..n]);
      ProtocolKept(w, steps[n]);
      ServiceInvKept(w, steps[n]);
    }
  }

  /** What a step asks of the service chain's pallet. */
  function ServiceCallOf(w: World, step: Step): Option<S.Call> {
    match step
    case AtService(call) => Some(call)
    case Deliver(t, answer, reach) =>
      if t in w.net && w.net[t].NewOrder? then Some(S.Receive(w.home, w.net[t], answer, reach)) else None
    case _ => None
  }

  lemma ServiceAfter(w: World, step: Step)
    ensures Apply(w, step).service ==
            match ServiceCallOf(w, step)
            case Some(call) => S.Serve(w.service, call).chain
            case None => w.service
  {
  }

  lemma ServiceInvKept(w: World, step: Step)
    requires SL.Inv(w.service)
    ensures SL.Inv(Apply(w, step).service)
  {
    ServiceAfter(w, step);
    if ServiceCallOf(w, step).Some? {
      SL.InvKept(w.service, ServiceCallOf(w, step).value);
    }
  }

  /** Whatever the two chains do, the service chain sees a run of calls: all that is proved of its runs
      holds of it. */
  lemma {:induction false} ServiceRuns(w0: World, steps: seq<Step>) returns (calls: seq<S.Call>)
    ensures Exec(w0, steps).service == S.Run(w0.service, calls)
    decreases |steps|
  {
    if steps == [] {
      calls := [];
    } else {
      var n := |steps| - 1;
      var w := Exec(w0, steps[..n]);
      calls := ServiceRuns(w0, steps[..n]);
      var call := ServiceCallOf(w, steps[n]);
      ServiceAfter(w, steps[n]);
      if call.Some? {
        assert (calls + [call.value])[..|calls|] == calls;
        calls := calls + [call.value];
      }
    }
  }

  // ----- The protocol ----------------------------------------------------------------------------

  /** A rejection or completion that can be delivered while an order for its device is open names exactly
      that order's client. */
  lemma NamesTheClient(w0: World, steps: seq<Step>, t: nat)
    requires Genesis(w0) && Lawful(w0, steps)
    requires var w := Exec(w0, steps);
             && t in w.net && (w.net[t].OrderReject? || w.net[t].OrderDone?)
             && w.net[t].device in w.client.orders
    ensures var w := Exec(w0, steps);
            w.net[t].client == w.client.orders[w.net[t].device].client
  {
    Always(w0, steps);
    var w := Exec(w0, steps);
    assert Kept(w, w.net[t].device) && Flying(w, t, w.net[t].device);
  }

  /** For each device at most one item is outstanding among a new order in transit, an order from the client
      chain stored on the service chain, and a final word in transit; and none unless the client chain has
      the device busy. */
  lemma OneOutstanding(w0: World, steps: seq<Step>, d: AccountId)
    requires Genesis(w0) && Lawful(w0, steps)
    ensures var w := Exec(w0, steps);
            && (forall t, u :: Flying(w, t, d) && Flying(w, u, d) ==> t == u)
            && (forall t :: Flying(w, t, d) ==> !Stored(w, d))
            && (!BusyThere(w, d) ==> Clear(w, d))
  {
    Always(w0, steps);
    assert Kept(Exec(w0, steps), d);
  }

  /** When both chains hold an order for a device and the service chain has its order from the client
      chain, the two orders are the same agreement. */
  lemma RecordsAgree(w0: World, steps: seq<Step>, d: AccountId)
    requires Genesis(w0) && Lawful(w0, steps)
    requires d in Exec(w0, steps).client.orders && Stored(Exec(w0, steps), d)
    ensures SameTerms(Exec(w0, steps).service.orders[d], Exec(w0, steps).client.orders[d])
  {
    Always(w0, steps);
    assert Kept(Exec(w0, steps), d);
  }

  // ----- Payments --------------------------------------------------------------------------------

  /** What a step asks of the client chain's pallet. */
  function CallOf(w: World, step: Step): Option<C.Call> {
    match step
    case AtClient(call) => Some(call)
    case Deliver(t, _, _) => if t in w.net && !w.net[t].NewOrder? then Some(C.Receive(w.net[t])) else None
    case _ => None
  }

  lemma ClientAfter(w: World, step: Step)
    ensures Apply(w, step).client ==
            match CallOf(w, step)
            case Some(call) => C.Serve(w.client, call).chain
            case None => w.client
  {
  }

  /** Under H whatever reaches the client chain's pallet is faithful. */
  lemma FaithfulStep(w: World, step: Step)
    requires Protocol(w) && Possible(w, step)
    ensures CallOf(w, step).Some? ==> CL.Faithful(w.client, CallOf(w, step).value)
  {
    if step.Deliver? {
      var m := w.net[step.ticket];
      if m.OrderReject? || m.OrderDone? {
        assert Kept(w, m.device) && Flying(w, step.ticket, m.device);
      }
    }
  }

  predicate HalfPays(w: World, step: Step) {
    CallOf(w, step).Some? && CL.HalfPays(w.client, CallOf(w, step).value)
  }

  predicate Overcommits(w: World, step: Step) {
    CallOf(w, step).Some? && CL.Overcommits(w.client, CallOf(w, step).value)
  }

  function BooksAt(w: World): Books {
    CL.BooksOf(w.client)
  }

  /** What a step does to the money on the client chain. */
  function MoneyStep(w: World, step: Step): Move {
    if CallOf(w, step).Some? then CL.StepOf(w.client, CallOf(w, step).value) else Stutter
  }

  /** The step delivers a completion by device d, and this has an effect on the client chain. */
  predicate Pays(w: World, step: Step, d: AccountId) {
    && step.Deliver? && step.ticket in w.net
    && w.net[step.ticket].OrderDone? && w.net[step.ticket].device == d
    && Apply(w, step).client != w.client
  }

  /** A step pays device d if and only if it closes the order by payment, or moves money and then fails. */
  lemma PaysIff(w: World, step: Step, d: AccountId)
    requires Issuance(w.client.accounts) < U128 && Possible(w, step)
    ensures Pays(w, step, d) <==>
            || (MoneyStep(w, step).ClosePaid? && MoneyStep(w, step).device == d)
            || (HalfPays(w, step) && w.net[step.ticket].device == d)
  {
    ClientAfter(w, step);
    if step.Deliver? && w.net[step.ticket].OrderDone? {
      CL.TornIff(w.client, C.Receive(w.net[step.ticket]));
    }
  }

  ghost predicate WorkShown(log: seq<S.Record>, i: int, j: int, d: AccountId, order: Order, home: ParaId) {
    && 0 <= i < j < |log|
    && Is(log, j, d, S.Completed)
    && log[j].order.Some? && log[j].order.value.paraid == home && SameTerms(log[j].order.value, order)
    && AcceptedHere(log, i, d, log[j].order.value)
    && NoneNew(log, i, j, d)
  }

  /** The step pays device d for its open order, on whose terms the service chain has completed an order that
      the device accepted there strictly before its deadline by the clock of that chain, with no other order
      in between. */
  ghost predicate PaysForWork(w: World, step: Step, d: AccountId, i: int, j: int) {
    && Pays(w, step, d)
    && d in w.client.orders
    && WorkShown(w.service.log, i, j, d, w.client.orders[d], w.home)
  }

  /** A completion in transit whose device has an order open stands for work on that order. */
  lemma WorkOf(w: World, t: nat) returns (i: nat, j: nat)
    requires Inv(w) && t in w.net && w.net[t].OrderDone? && w.net[t].device in w.client.orders
    ensures var d := w.net[t].device;
            && w.net[t].client == w.client.orders[d].client
            && WorkShown(w.service.log, i, j, d, w.client.orders[d], w.home)
  {
    var d := w.net[t].device;
    assert Kept(w, d) && Flying(w, t, d);
    j :| Is(w.service.log, j, d, S.Completed) && CompletedOn(w, j, w.client.orders[d]);
    assert Fits(w.service, d);
    var p;
    p, i := CompletedWasAccepted(w.service.log, d, j);
  }

  /** Payment implies work: no completion has an effect on the client chain, be it in full or before it fails,
      that does not stand for work that the service chain can show. */
  lemma PaymentImpliesWork(w0: World, steps: seq<Step>, step: Step, d: AccountId) returns (i: nat, j: nat)
    requires Genesis(w0) && Lawful(w0, steps) && Possible(Exec(w0, steps), step)
    requires Pays(Exec(w0, steps), step, d)
    ensures PaysForWork(Exec(w0, steps), step, d, i, j)
  {
    Always(w0, steps);
    ClientAfter(Exec(w0, steps), step);
    i, j := WorkOf(Exec(w0, steps), step.ticket);
  }

  /** The step does to the client chain something about the order open for d. */
  predicate IsAbout(w: World, step: Step, d: AccountId) {
    && CallOf(w, step).Some? && CL.Subject(CallOf(w, step).value) == Some(d)
    && d in w.client.orders && d in w.client.devices
  }

  /** Under H a step moves money on the client chain only between one device, whose order it is about, and that
      order's client: to the device at most the fee, and only for work that the service chain can show; to
      the client at most the penalty, and only past the order's deadline. */
  lemma MoneyIsEarned(w0: World, steps: seq<Step>, step: Step) returns (d: AccountId, i: nat, j: nat)
    requires Genesis(w0) && Lawful(w0, steps) && Possible(Exec(w0, steps), step)
    ensures var w := Exec(w0, steps);
            var l, l' := w.client.accounts, Apply(w, step).client.accounts;
            || (forall a :: Total(l', a) == Total(l, a))
            || (&& IsAbout(w, step, d) && CT.ShiftedAt(w.client, l', d, w.client.orders[d].fee)
                && (Total(l', d) > Total(l, d) ==> PaysForWork(w, step, d, i, j))
                && (Total(l', d) < Total(l, d) ==> CT.Overdue(w.client, d)))
  {
    d, i, j := 0, 0, 0;
    var w := Exec(w0, steps);
    Always(w0, steps);
    ClientConservation(w0, steps);
    FaithfulStep(w, step);
    ClientAfter(w, step);
    if CallOf(w, step).Some? {
      var call := CallOf(w, step).value;
      CT.MoneyShifts(w.client, call);
      if CL.Subject(call).Some? {
        d := CL.Subject(call).value;
        if Pays(w, step, d) {
          i, j := PaymentImpliesWork(w0, steps, step, d);
        }
      }
    }
  }

  /** Conservation on the client chain needs neither H nor any other assumption. */
  lemma {:induction false} ClientConservation(w0: World, steps: seq<Step>)
    requires Genesis(w0)
    ensures Issuance(Exec(w0, steps).client.accounts) == Issuance(w0.client.accounts)
    ensures forall a :: Total(Exec(w0, steps).client.accounts, a) < U128
    decreases |steps|
  {
    if steps == [] {
    } else {
      var n := |steps| - 1;
      var w := Exec(w0, steps[..n]);
      ClientConservation(w0, steps[..n]);
      ClientAfter(w, steps[n]);
      if CallOf(w, steps[n]).Some? {
        CL.Conserves(w.client, CallOf(w, steps[n]).value);
      }
    }
    forall a ensures Total(Exec(w0, steps).client.accounts, a) < U128 {
      IssuanceBoundsOne(Exec(w0, steps).client.accounts, a);
    }
  }

  // ----- Orders on the client chain ----------------------------------------------------------------

  /** In every run, with or without H, an open order on the client chain stands on a device that is Ready or
      Busy there, and no device is recorded there as having accepted. */
  lemma {:induction false} ClientShape(w0: World, steps: seq<Step>)
    requires Genesis(w0)
    ensures CL.Shape(Exec(w0, steps).client)
    decreases |steps|
  {
    if steps == [] {
    } else {
      var n := |steps| - 1;
      var w := Exec(w0, steps[..n]);
      ClientShape(w0, steps[..n]);
      ClientAfter(w, steps[n]);
      if CallOf(w, steps[n]).Some? {
        CL.ShapeKept(w.client, CallOf(w, steps[n]).value);
      }
    }
  }

  /** Without transactions a step is still all or nothing on the client chain, except exactly for the torn
      calls, in every run, with or without H; and an error sends no message and deposits no event. Under H
      no rejection tears. */
  lemma ClientAllOrNothing(w0: World, steps: seq<Step>, step: Step)
    requires Genesis(w0)
    requires CallOf(Exec(w0, steps), step).Some?
    ensures var w := Exec(w0, steps);
            var call := CallOf(w, step).value;
            var reply := C.Serve(w.client, call);
            && Apply(w, step).client == reply.chain
            && (reply.out.Err? && reply.chain != w.client <==> CL.Torn(w.client, call))
            && (reply.out.Err? ==> reply.sent == None && reply.chain.events == w.client.events)
            && (Lawful(w0, steps) && Possible(w, step) ==> !CL.Misrefunds(w.client, call))
  {
    var w := Exec(w0, steps);
    ClientConservation(w0, steps);
    ClientAfter(w, step);
    CL.TornIff(w.client, CallOf(w, step).value);
    if Lawful(w0, steps) && Possible(w, step) {
      Always(w0, steps);
      FaithfulStep(w, step);
    }
  }

  /** The order for d is open on the client chain after each of the steps from the n-th on. */
  predicate OpenThroughout(w0: World, steps: seq<Step>, n: nat, d: AccountId)
    decreases |steps|
  {
    && n <= |steps|
    && d in Exec(w0, steps).client.orders
    && (n < |steps| ==> OpenThroughout(w0, steps[..|steps| - 1], n, d))
  }

  function TermsAfter(w0: World, steps: seq<Step>, d: AccountId): Option<Terms> {
    C.TermsOf(Exec(w0, steps).client, d)
  }

  /** From placement to closing neither an order nor its device's penalty and work cycle change on the client
      chain, with or without H. */
  lemma {:induction false} ClientTermsFrozen(w0: World, steps: seq<Step>, n: nat, d: AccountId)
    requires Genesis(w0) && OpenThroughout(w0, steps, n, d)
    ensures TermsAfter(w0, steps, d).Some?
    ensures TermsAfter(w0, steps, d) == TermsAfter(w0, steps[..n], d)
    decreases |steps|
  {
    if n == |steps| {
      ClientShape(w0, steps);
      assert steps[..n] == steps;
    } else {
      var before, step := steps[..|steps| - 1], steps[|steps| - 1];
      ClientTermsFrozen(w0, before, n, d);
      assert before[..n] == steps[..n];
      ClientTermsStep(Exec(w0, before), step, d);
    }
  }

  lemma ClientTermsStep(w: World, step: Step, d: AccountId)
    requires d in w.client.orders && d in w.client.devices
    requires d in Apply(w, step).client.orders
    ensures C.TermsOf(Apply(w, step).client, d) == C.TermsOf(w.client, d)
  {
    ClientAfter(w, step);
    if CallOf(w, step).Some? {
      CT.TermsKept(w.client, CallOf(w, step).value, d);
    }
  }

  /** Step n of the run has placed an order for d on these terms, sent or not: they are what the client has
      written and what the device asked then, and the deadline was still to come. The order leaves the
      device its whole work cycle if and only if placement time and cycle do not wrap around. */
  ghost predicate PlacedAt(w0: World, steps: seq<Step>, n: nat, d: AccountId, terms: Terms) {
    && n < |steps|
    && steps[n].AtClient? && steps[n].ccall.PlaceOrder?
    && var c := Exec(w0, steps[..n]).client;
       var call := steps[n].ccall;
       && call.base.device == d && d !in c.orders && d in c.devices
       && terms == Terms(call.base.Convert(call.who), c.devices[d].penalty, c.devices[d].wcd)
       && c.now < terms.order.until
       && (terms.order.until >= c.now + terms.wcd <==> c.now + terms.wcd < U64)
  }

  /** Every open order on the client chain was placed at a step of the run on the very terms that it has now,
      and has been open ever since; with or without H. */
  lemma {:induction false} ClientTerms(w0: World, steps: seq<Step>, d: AccountId) returns (n: nat)
    requires Genesis(w0)
    requires d in Exec(w0, steps).client.orders
    ensures TermsAfter(w0, steps, d).Some?
    ensures PlacedAt(w0, steps, n, d, TermsAfter(w0, steps, d).value)
    ensures OpenThroughout(w0, steps, n + 1, d)
    decreases |steps|
  {
    var m := |steps| - 1;
    var w, step := Exec(w0, steps[..m]), steps[m];
    ClientAfter(w, step);
    ClientShape(w0, steps[..m]);
    if d in w.client.orders {
      n := ClientTerms(w0, steps[..m], d);
      assert steps[..m][..n] == steps[..n];
      ClientTermsStep(w, step, d);
    } else {
      n := m;
      CT.OnlyPlacementFiles(w.client, CallOf(w, step).value, d);
      CT.PlacedOnTerms(w.client, step.ccall.who, step.ccall.base, step.ccall.reach);
    }
  }
}
