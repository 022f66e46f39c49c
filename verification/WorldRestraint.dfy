/** What hypothesis H is for: exactly when a registration against it can do harm, even if H holds from then on. */
module WorldRestraint {
  import opened Common
  import opened Ledger
  import opened Escrow
  import C = Client
  import S = Service
  import SL = ServiceLedger
  import opened ServiceLog
  import opened World
  import opened WorldProtocol
  import opened WorldTheorems
  import opened WorldPayments
  import opened Drain

  predicate Misnames(w: World, t: nat, d: AccountId) {
    && t in w.net && (w.net[t].OrderReject? || w.net[t].OrderDone?) && w.net[t].device == d
    && d in w.client.orders && w.net[t].client != w.client.orders[d].client
  }

  /** A rejection or completion can be delivered that names another client than that of the order open for d. */
  predicate Misnamed(w: World, d: AccountId) {
    exists t :: t in w.net && Misnames(w, t, d)
  }

  /** Device d has a local order that nobody can close: the device never accepted it, it is overdue, and the
      client that is owed the penalty does not exist. */
  predicate Stuck(s: S.Chain, d: AccountId) {
    && d in s.orders && s.orders[d].paraid == s.self && s.orders[d].until <= s.now
    && d in s.devices && s.devices[d].state == Busy && s.devices[d].penalty > 0
    && s.orders[d].client != d && !Exists(s.accounts, s.orders[d].client)
  }

  /** A new order in transit that the service chain will never take. */
  predicate Hopeless(w: World, t: nat) {
    && t in w.net && w.net[t].NewOrder?
    && (w.net[t].order.until <= w.service.now || Stuck(w.service, w.net[t].order.device))
  }

  /** Something is outstanding for d that can still lead to a final word. */
  predicate Alive(w: World, d: AccountId) {
    Stored(w, d) || exists t :: t in w.net && Flying(w, t, d) && !Hopeless(w, t)
  }

  /** The clock of the client chain still admits an order with a deadline to come. */
  predicate Menaced(w: World, d: AccountId) {
    w.client.now < U64 - 1 && Alive(w, d)
  }

  /** The run continues lawfully from the registration to a final word that names another client. */
  ghost predicate Harms(w: World, d: AccountId, call: C.Call, more: seq<Step>) {
    && call.Register? && call.who == d
    && var w1 := Apply(w, AtClient(call));
       Lawful(w1, more) && Misnamed(Exec(w1, more), d)
  }

  // ----- No harm ---------------------------------------------------------------------------------

  lemma EndOfTime(s: C.Chain, call: C.Call, d: AccountId)
    requires s.now == U64 - 1 && d !in s.orders
    ensures C.Serve(s, call).chain.now == U64 - 1 && d !in C.Serve(s, call).chain.orders
  {
    if call.PlaceOrder? {
      assert C.Refusal(s, call.base).Some?;
    }
  }

  lemma {:induction false} ClockAtItsEnd(w: World, steps: seq<Step>, d: AccountId)
    requires w.client.now == U64 - 1 && d !in w.client.orders
    ensures Exec(w, steps).client.now == U64 - 1 && d !in Exec(w, steps).client.orders
    decreases |steps|
  {
    if steps == [] {
    } else {
      var n := |steps| - 1;
      var before := Exec(w, steps[..n]);
      ClockAtItsEnd(w, steps[..n], d);
      ClientAfter(before, steps[n]);
      if CallOf(before, steps[n]).Some? {
        EndOfTime(before.client, CallOf(before, steps[n]).value, d);
      }
    }
  }

  lemma NotMisnamed(w: World, d: AccountId)
    requires Protocol(w)
    ensures !Misnamed(w, d)
  {
    forall t | t in w.net && Misnames(w, t, d) ensures false {
      assert Kept(w, d) && Flying(w, t, d);
    }
  }

  lemma {:induction false} LawfulKeeps(w: World, steps: seq<Step>)
    requires Protocol(w) && Lawful(w, steps)
    ensures Protocol(Exec(w, steps))
    decreases |steps|
  {
    if steps == [] {
    } else {
      var n := |steps| - 1;
      LawfulKeeps(w, steps[..n]);
      ProtocolKept(Exec(w, steps[..n]), steps[n]);
    }
  }

  lemma ServiceKeepsGone(s: S.Chain, call: S.Call, c: AccountId)
    requires !Exists(s.accounts, c)
    ensures !Exists(S.Serve(s, call).chain.accounts, c)
  {
    match call
    case PlaceOrder(who, base, _, _) =>
      if base.device in s.devices {
        HoldKeepsGone(s.accounts, c, base.device, who, base.fee, s.devices[base.device].penalty);
      }
    case Receive(_, NewOrder(client, b), _, _) =>
      if b.device in s.devices {
        HoldKeepsGone(s.accounts, c, b.device, client, b.fee, s.devices[b.device].penalty);
      }
    case Cancel(_, d, _) => ClosingKeepsGone(s, d, c);
    case Accept(d, _, _, _) => ClosingKeepsGone(s, d, c);
    case Done(d, _, _) => ClosingKeepsGone(s, d, c);
    case _ =>
  }

  lemma ClosingKeepsGone(s: S.Chain, d: AccountId, c: AccountId)
    requires !Exists(s.accounts, c)
    ensures d in s.orders && d in s.devices ==>
              var o := s.orders[d];
              var late := s.now >= o.until;
              && !Exists(Pay(s.accounts, d, o.client, o.fee, s.devices[d].penalty, late).accounts, c)
              && !Exists(Refund(s.accounts, d, o.client, o.client, o.fee, s.devices[d].penalty, late).accounts, c)
  {
    if d in s.orders && d in s.devices {
      var o := s.orders[d];
      PayKeepsGone(s.accounts, c, d, o.client, o.fee, s.devices[d].penalty, s.now >= o.until);
      RefundKeepsGone(s.accounts, c, d, o.client, o.client, o.fee, s.devices[d].penalty, s.now >= o.until);
    }
  }

  lemma StuckStays(s: S.Chain, call: S.Call, d: AccountId)
    requires Stuck(s, d)
    ensures Stuck(S.Serve(s, call).chain, d)
  {
    var s' := S.Serve(s, call).chain;
    ServiceKeepsGone(s, call, s.orders[d].client);
    ServiceTime(s, call);
    SL.SelfKept(s, call);
    match call
    case PlaceOrder(who, base, answer, reach) =>
      ReceiptElsewhere(s, S.LocalOrder(s, who, base), base.device, answer, reach, d);
    case Receive(sender, NewOrder(client, b), answer, reach) =>
      ReceiptElsewhere(s, Order(b.until, b.data, b.fee, client, sender), b.device, answer, reach, d);
    case Cancel(_, x, reach) =>
      if x in s.orders && x in s.devices {
        RejectionElsewhere(s, x, s.devices[x], false, true, reach, d);
      }
    case Accept(x, reject, onoff, reach) =>
      if reject && x in s.devices {
        RejectionElsewhere(s, x, s.devices[x].(state := OnOff(onoff)), onoff, false, reach, d);
      }
    case Done(_, _, _) =>
    case _ =>
  }

  /** The order on d and its device are as they were. */
  predicate SameAt(s: S.Chain, s': S.Chain, d: AccountId)
    requires d in s.orders && d in s.devices
  {
    d in s'.orders && s'.orders[d] == s.orders[d] && d in s'.devices && s'.devices[d] == s.devices[d]
  }

  lemma ReceiptElsewhere(s: S.Chain, order: Order, x: AccountId, answer: Answer, reach: bool, d: AccountId)
    requires d in s.orders && d in s.devices
    ensures SameAt(s, S.OrderReceived(s, order, x, answer, reach).chain, d)
  {
  }

  lemma RejectionElsewhere(s: S.Chain, x: AccountId, dev: S.Device, onoff: bool, byClient: bool, reach: bool,
                           d: AccountId)
    requires Stuck(s, d)
    requires x in s.devices && dev.penalty == s.devices[x].penalty
    ensures SameAt(s, S.OrderRejected(s, S.OrderOf(s, x), x, dev, onoff, byClient, reach).chain, d)
  {
    if x == d {
      var o := s.orders[d];
      assert Refund(s.accounts, d, o.client, o.client, o.fee, dev.penalty, true).out.Err?;
    }
  }

  lemma HopelessStays(w: World, step: Step, t: nat)
    requires Hopeless(w, t) && t < w.next && t in Apply(w, step).net
    ensures Hopeless(Apply(w, step), t)
  {
    var call := ServiceCallOf(w, step);
    ServiceAfter(w, step);
    if call.Some? && Stuck(w.service, w.net[t].order.device) {
      StuckStays(w.service, call.value, w.net[t].order.device);
    }
    TimePasses(w, step);
  }

  lemma ServiceTime(s: S.Chain, call: S.Call)
    ensures S.Serve(s, call).chain.now >= s.now
  {
  }

  lemma RouteAdds(w: World, sent: Option<Envelope>, across: ParaId)
    ensures var w' := Route(w, sent, across);
            && w.next <= w'.next
            && forall t :: t in w.net && t < w.next ==> t in w'.net && w'.net[t] == w.net[t]
  {
  }

  lemma TimePasses(w: World, step: Step)
    ensures w.service.now <= Apply(w, step).service.now
    ensures forall t :: t in w.net && t < w.next && t in Apply(w, step).net ==> Apply(w, step).net[t] == w.net[t]
    ensures w.next <= Apply(w, step).next
  {
    var call := ServiceCallOf(w, step);
    ServiceAfter(w, step);
    if call.Some? {
      ServiceTime(w.service, call.value);
    }
    MessagesStay(w, step);
  }

  lemma MessagesStay(w: World, step: Step)
    ensures w.next <= Apply(w, step).next
    ensures forall t :: t in w.net && t < w.next && t in Apply(w, step).net ==> Apply(w, step).net[t] == w.net[t]
  {
    match step
    case AtClient(call) =>
      var reply := C.Serve(w.client, call);
      RouteAdds(w.(client := reply.chain), reply.sent, w.service.self);
    case AtService(call) =>
      var reply := S.Serve(w.service, call);
      RouteAdds(w.(service := reply.chain), reply.sent, w.home);
    case Deliver(t, answer, reach) =>
      if t in w.net {
        var w1 := Less(w, t);
        if w.net[t].NewOrder? {
          var reply := S.Serve(w.service, S.Receive(w.home, w.net[t], answer, reach));
          RouteAdds(w1.(service := reply.chain), reply.sent, w.home);
        } else {
          var reply := C.Serve(w.client, C.Receive(w.net[t]));
          RouteAdds(w1.(client := reply.chain), reply.sent, w.service.self);
        }
      }
    case Lose(_) =>
  }

  function Less(w: World, t: nat): World {
    w.(net := w.net - {t})
  }

  /** A step with a hopeless new order in transit is a step without it, or does nothing but take it off. */
  lemma StepWithout(w: World, step: Step, t: nat)
    requires Protocol(Less(w, t)) && t < w.next && (t in w.net ==> Hopeless(w, t))
    requires Possible(w, step) && Restrained(w, step)
    ensures var w' := Apply(w, step);
            Protocol(Less(w', t)) && t < w'.next && (t in w'.net ==> Hopeless(w', t))
  {
    var w' := Apply(w, step);
    TimePasses(w, step);
    if t in w.net && t in w'.net {
      HopelessStays(w, step, t);
    }
    if (step.Deliver? || step.Lose?) && step.ticket == t {
      assert Less(w', t) == Less(w, t);
    } else {
      forall x | Clear(w, x) ensures Clear(Less(w, t), x) {
        assert forall u :: Flying(Less(w, t), u, x) ==> Flying(w, u, x);
      }
      StepCommutes(w, step, t);
      ProtocolKept(Less(w, t), step);
    }
  }

  lemma StepCommutes(w: World, step: Step, t: nat)
    requires t < w.next && Possible(w, step)
    requires (step.Deliver? || step.Lose?) ==> step.ticket != t
    ensures Apply(Less(w, t), step) == Less(Apply(w, step), t)
    ensures t !in w.net ==> t !in Apply(w, step).net
  {
    if step.Deliver? || step.Lose? {
      assert w.net - {t} - {step.ticket} == w.net - {step.ticket} - {t};
    }
    match step
    case AtClient(call) => RouteCommutes(w.(client := C.Serve(w.client, call).chain),
                                         C.Serve(w.client, call).sent, w.service.self, t);
    case AtService(call) => RouteCommutes(w.(service := S.Serve(w.service, call).chain),
                                          S.Serve(w.service, call).sent, w.home, t);
    case Deliver(u, answer, reach) =>
      var m := w.net[u];
      var w1 := Less(w, u);
      if m.NewOrder? {
        var reply := S.Serve(w.service, S.Receive(w.home, m, answer, reach));
        RouteCommutes(w1.(service := reply.chain), reply.sent, w.home, t);
      } else {
        var reply := C.Serve(w.client, C.Receive(m));
        RouteCommutes(w1.(client := reply.chain), reply.sent, w.service.self, t);
      }
    case Lose(_) =>
  }

  lemma RouteCommutes(w: World, sent: Option<Envelope>, across: ParaId, t: nat)
    requires t < w.next
    ensures Route(Less(w, t), sent, across) == Less(Route(w, sent, across), t)
    ensures t !in w.net ==> t !in Route(w, sent, across).net
  {
    if sent.Some? && sent.value.to == across {
      var m := sent.value.message;
      assert (w.net - {t})[w.next := m] == w.net[w.next := m] - {t};
    }
  }

  lemma {:induction false} RunWithout(w: World, steps: seq<Step>, t: nat)
    requires Protocol(Less(w, t)) && t < w.next && (t in w.net ==> Hopeless(w, t))
    requires Lawful(w, steps)
    ensures var w' := Exec(w, steps);
            Protocol(Less(w', t)) && t < w'.next && (t in w'.net ==> Hopeless(w', t))
    decreases |steps|
  {
    if steps == [] {
    } else {
      var n := |steps| - 1;
      RunWithout(w, steps[..n], t);
      StepWithout(Exec(w, steps[..n]), steps[n], t);
    }
  }

  /** With nothing alive for d no registration of it leads to harm. */
  lemma DeadIsHarmless(w: World, d: AccountId, call: C.Call, more: seq<Step>)
    requires Protocol(w) && d !in w.client.orders && !Alive(w, d)
    ensures !Harms(w, d, call, more)
  {
    if Harms(w, d, call, more) {
      var w1 := Apply(w, AtClient(call));
      if Clear(w, d) {
        ClientKeepsProtocol(w, call);
        LawfulKeeps(w1, more);
        NotMisnamed(Exec(w1, more), d);
      } else {
        var t :| Flying(w, t, d);
        TakenOff(w, t);
        ClientKeepsProtocol(Less(w, t), call);
        assert Less(w1, t) == ClientDoes(Less(w, t), call);
        RunWithout(w1, more, t);
        StillNamed(Exec(w1, more), t, d);
      }
    }
  }

  lemma StillNamed(w: World, t: nat, d: AccountId)
    requires Protocol(Less(w, t)) && (t in w.net ==> Hopeless(w, t))
    ensures !Misnamed(w, d)
  {
    NotMisnamed(Less(w, t), d);
    forall u | u in w.net && Misnames(w, u, d) ensures false {
      assert u != t;
      assert u in Less(w, t).net && Misnames(Less(w, t), u, d);
    }
  }

  // ----- Harm --------------------------------------------------------------------------------------

  ghost predicate Sound(w: World) {
    w.home != w.service.self && Numbered(w) && SL.Inv(w.service)
  }

  lemma SoundStays(w: World, step: Step)
    requires Sound(w) && Possible(w, step)
    ensures Sound(Apply(w, step)) && Apply(w, step).home == w.home
  {
    StepBalances(w, step, 0);
    ServiceInvKept(w, step);
  }

  /** A step on the service chain that the client chain does not notice, and that H allows. */
  ghost predicate Helps(w: World, step: Step) {
    && Possible(w, step) && Restrained(w, step)
    && Apply(w, step).client == w.client
  }

  /** The device can always reject an order from the client chain. */
  lemma Rejecting(w: World, d: AccountId) returns (step: Step)
    requires Sound(w) && Stored(w, d)
    ensures Helps(w, step)
    ensures var w' := Apply(w, step);
            w.next in w'.net && w'.net[w.next].OrderReject? && w'.net[w.next].device == d
  {
    assert Fits(w.service, d);
    var call := S.Accept(d, true, true, true);
    step := AtService(call);
    assert S.Serve(w.service, call).sent == Some(Envelope(w.home, OrderReject(w.service.orders[d].client, d, true)));
  }

  /** An order that is not stuck can be closed by the device itself. */
  function ClosingCall(s: S.Chain, d: AccountId): S.Call {
    if d in s.devices && d in s.orders && s.devices[d].state == Busy2 && s.orders[d].paraid == s.self
    then S.Done(d, true, true) else S.Accept(d, true, true, true)
  }

  lemma Closing(s: S.Chain, d: AccountId, home: ParaId)
    requires SL.Inv(s) && d in s.orders && s.orders[d].paraid != home && !Stuck(s, d)
    ensures var reply := S.Serve(s, ClosingCall(s, d));
            && d !in reply.chain.orders && reply.chain.now == s.now
            && (reply.sent.Some? ==> reply.sent.value.to != home)
  {
    assert Fits(s, d);
    if d in SL.LocalDeals(s) {
      CancelMoves(SL.BooksOf(s), d);
    }
  }

  lemma Freeing(w: World, d: AccountId) returns (step: Step)
    requires Sound(w) && d in w.service.orders && !Stored(w, d) && !Stuck(w.service, d)
    ensures Helps(w, step)
    ensures var w' := Apply(w, step);
            d !in w'.service.orders && w'.service.now == w.service.now && w'.net == w.net
  {
    Closing(w.service, d, w.home);
    step := AtService(ClosingCall(w.service, d));
  }

  predicate Willing(s: S.Chain, d: AccountId) {
    d !in s.orders && d in s.devices && s.devices[d].state == Ready && s.devices[d].wcd == 0
  }

  lemma Readying(w: World, d: AccountId) returns (step: Step)
    requires d !in w.service.orders
    ensures Helps(w, step)
    ensures var w' := Apply(w, step);
            Willing(w'.service, d) && w'.service.now == w.service.now && w'.net == w.net
  {
    step := AtService(S.Register(d, 0, 0, true));
  }

  lemma Taking(w: World, t: nat) returns (step: Step)
    requires w.home != w.service.self
    requires t in w.net && w.net[t].NewOrder?
    requires Willing(w.service, w.net[t].order.device) && w.service.now < w.net[t].order.until
    ensures Helps(w, step) && Stored(Apply(w, step), w.net[t].order.device)
  {
    step := Deliver(t, Some(Busy), true);
    var b := w.net[t].order;
    assert S.Refusal(w.service, Order(b.until, b.data, b.fee, w.net[t].client, w.home), b.device, Some(Busy)) == None;
  }

  /** The run has gone on from w, unnoticed by the client chain. */
  ghost predicate Aside(w: World, steps: seq<Step>) {
    Lawful(w, steps) && Sound(Exec(w, steps)) && Exec(w, steps).client == w.client
  }

  lemma AsideMore(w: World, steps: seq<Step>, step: Step)
    requires Aside(w, steps) && Helps(Exec(w, steps), step)
    ensures Aside(w, steps + [step]) && Exec(w, steps + [step]) == Apply(Exec(w, steps), step)
  {
    OneStepMore(w, steps, step);
    SoundStays(Exec(w, steps), step);
  }

  lemma ToWilling(w: World, d: AccountId) returns (steps: seq<Step>)
    requires Sound(w) && !Stored(w, d) && !Stuck(w.service, d)
    ensures Aside(w, steps)
    ensures var w' := Exec(w, steps);
            Willing(w'.service, d) && w'.service.now == w.service.now && w'.net == w.net
  {
    steps := [];
    if d in w.service.orders {
      var close := Freeing(w, d);
      AsideMore(w, steps, close);
      steps := steps + [close];
    }
    var ready := Readying(Exec(w, steps), d);
    AsideMore(w, steps, ready);
    steps := steps + [ready];
  }

  lemma ToStored(w: World, t: nat) returns (steps: seq<Step>)
    requires Sound(w) && t in w.net && w.net[t].NewOrder? && !Hopeless(w, t)
    ensures Aside(w, steps) && Stored(Exec(w, steps), w.net[t].order.device)
  {
    var d := w.net[t].order.device;
    if Stored(w, d) {
      steps := [];
    } else {
      steps := ToWilling(w, d);
      var take := Taking(Exec(w, steps), t);
      AsideMore(w, steps, take);
      steps := steps + [take];
    }
  }

  /** Whatever is alive for d can be brought to a final word, unnoticed by the client chain. */
  lemma ToFinalWord(w: World, d: AccountId) returns (steps: seq<Step>, t: nat)
    requires Sound(w) && Alive(w, d)
    ensures Aside(w, steps)
    ensures var net := Exec(w, steps).net;
            t in net && (net[t].OrderReject? || net[t].OrderDone?) && net[t].device == d
  {
    steps := [];
    if !Stored(w, d) {
      t :| t in w.net && Flying(w, t, d) && !Hopeless(w, t);
      if w.net[t].NewOrder? {
        steps := ToStored(w, t);
      }
    }
    if Stored(Exec(w, steps), d) {
      t := Exec(w, steps).next;
      var reject := Rejecting(Exec(w, steps), d);
      AsideMore(w, steps, reject);
      steps := steps + [reject];
    }
  }

  /** A device fresh from its registration takes an order from anybody, if the clock admits a deadline. */
  lemma Opening(w: World, d: AccountId, who: AccountId)
    requires d !in w.client.orders && d in w.client.devices && w.client.now < U64 - 1
    requires w.client.devices[d].state == Ready && w.client.devices[d].penalty == 0
    ensures var w' := Apply(w, AtClient(C.PlaceOrder(who, OrderBase(U64 - 1, 0, 0, d), false)));
            w'.net == w.net && d in w'.client.orders && w'.client.orders[d].client == who
  {
    var base := OrderBase(U64 - 1, 0, 0, d);
    assert C.Refusal(w.client, base) == None;
    assert Hold(w.client.accounts, d, who, 0, 0) == Booking(w.client.accounts, Ok);
  }

  lemma MenaceHarms(w: World, d: AccountId) returns (call: C.Call, more: seq<Step>)
    requires Sound(w) && d !in w.client.orders && Menaced(w, d)
    ensures Harms(w, d, call, more)
  {
    call := C.Register(d, 0, 0, 0, true);
    var w1 := Apply(w, AtClient(call));
    SoundStays(w, AtClient(call));
    assert Alive(w1, d) by {
      AliveStays(w, w1, d);
    }
    var steps, t := ToFinalWord(w1, d);
    var last := Exec(w1, steps);
    var place := AtClient(C.PlaceOrder(last.net[t].client + 1, OrderBase(U64 - 1, 0, 0, d), false));
    Opening(last, d, last.net[t].client + 1);
    OneStepMore(w1, steps, place);
    more := steps + [place];
    assert Misnames(Exec(w1, more), t, d);
  }

  lemma AliveStays(w: World, w1: World, d: AccountId)
    requires w1.net == w.net && w1.service == w.service && w1.home == w.home && Alive(w, d)
    ensures Alive(w1, d)
  {
    if !Stored(w, d) {
      var t :| t in w.net && Flying(w, t, d) && !Hopeless(w, t);
      assert Flying(w1, t, d) && !Hopeless(w1, t);
    }
  }

  /** What H is for. After a run under H, with no order open for d, some registration of d can be followed,
      although H holds from then on, by a final word that names another client than that of the order open for
      d, if and only if something outstanding for d can still lead to a final word and the client chain's
      clock is not at its end. */
  lemma HarmIff(w0: World, steps: seq<Step>, d: AccountId)
    requires Genesis(w0) && Lawful(w0, steps) && d !in Exec(w0, steps).client.orders
    ensures (exists call, more :: Harms(Exec(w0, steps), d, call, more)) <==> Menaced(Exec(w0, steps), d)
  {
    var w := Exec(w0, steps);
    Always(w0, steps);
    if Menaced(w, d) {
      var call, more := MenaceHarms(w, d);
    } else {
      forall call, more ensures !Harms(w, d, call, more) {
        if w.client.now == U64 - 1 {
          if call.Register? && call.who == d {
            ClockAtItsEnd(Apply(w, AtClient(call)), more, d);
          }
        } else {
          DeadIsHarmless(w, d, call, more);
        }
      }
    }
  }
}
