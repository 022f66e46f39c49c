/** The two chains and the messages between them. Messages may be lost and may overtake one another; they
    are neither forged nor doubled. Every chain has its own clock. */
module World {
  import opened Common
  import C = Client
  import S = Service
  import opened ServiceLog
  import SL = ServiceLedger

  /** `home` is the client chain's parachain id. Messages in transit carry a ticket to tell them apart. */
  datatype World = World(client: C.Chain, service: S.Chain, home: ParaId, net: map<nat, Message>, next: nat)

  datatype Step =
    | AtClient(ccall: C.Call)
    | AtService(scall: S.Call)
    | Deliver(ticket: nat, answer: Answer, reach: bool)
    | Lose(ticket: nat)

  /** Messages between the two chains come from the net; the service chain may also hear from others. */
  predicate Possible(w: World, step: Step) {
    match step
    case AtClient(call) => !call.Receive?
    case AtService(call) => call.Receive? ==> call.sender != w.home && call.sender != w.service.self
    case Deliver(t, _, _) => t in w.net
    case Lose(t) => t in w.net
  }

  /** A message to another chain than the one across leaves the two-chain system. */
  function Route(w: World, sent: Option<Envelope>, across: ParaId): World {
    if sent.Some? && sent.value.to == across
    then w.(net := w.net[w.next := sent.value.message], next := w.next + 1)
    else w
  }

  function ClientDoes(w: World, call: C.Call): World {
    var reply := C.Serve(w.client, call);
    Route(w.(client := reply.chain), reply.sent, w.service.self)
  }

  function ServiceDoes(w: World, call: S.Call): World {
    var reply := S.Serve(w.service, call);
    Route(w.(service := reply.chain), reply.sent, w.home)
  }

  function Apply(w: World, step: Step): World {
    match step
    case AtClient(call) => ClientDoes(w, call)
    case AtService(call) => ServiceDoes(w, call)
    case Deliver(t, answer, reach) =>
      if t !in w.net then w
      else
        var m := w.net[t];
        var w1 := w.(net := w.net - {t});
        if m.NewOrder? then ServiceDoes(w1, S.Receive(w.home, m, answer, reach)) else ClientDoes(w1, C.Receive(m))
    case Lose(t) => w.(net := w.net - {t})
  }

  function Exec(w: World, steps: seq<Step>): World
    decreases |steps|
  {
    if steps == [] then w
    else Apply(Exec(w, steps[..|steps| - 1]), steps[|steps| - 1])
  }

  ghost predicate Genesis(w: World) {
    C.Genesis(w.client) && S.Genesis(w.service) && w.home != w.service.self && w.net == map[]
  }

  // ----- What is outstanding for a device -------------------------------------------------------

  predicate Concerns(m: Message, d: AccountId) {
    match m
    case NewOrder(_, order) => order.device == d
    case OrderAccept(_, _) => false
    case OrderReject(_, device, _) => device == d
    case OrderDone(_, device, _) => device == d
  }

  predicate Flying(w: World, t: nat, d: AccountId) {
    t in w.net && Concerns(w.net[t], d)
  }

  /** The service chain holds an order for d from the client chain. */
  predicate Stored(w: World, d: AccountId) {
    d in w.service.orders && w.service.orders[d].paraid == w.home
  }

  ghost predicate Clear(w: World, d: AccountId) {
    !Stored(w, d) && forall t :: !Flying(w, t, d)
  }

  ghost predicate AllPossible(w: World, steps: seq<Step>)
    decreases |steps|
  {
    steps != [] ==>
      var n := |steps| - 1;
      AllPossible(w, steps[..n]) && Possible(Exec(w, steps[..n]), steps[n])
  }

  /** Hypothesis H: a registration that the client pallet admits comes only when nothing is outstanding for the
      device. The pallet's own guard is only that it holds no open order there. */
  ghost predicate Restrained(w: World, step: Step) {
    step.AtClient? && step.ccall.Register? && step.ccall.who !in w.client.orders ==> Clear(w, step.ccall.who)
  }

  ghost predicate Lawful(w: World, steps: seq<Step>)
    decreases |steps|
  {
    steps != [] ==>
      var n := |steps| - 1;
      var last := Exec(w, steps[..n]);
      Lawful(w, steps[..n]) && Possible(last, steps[n]) && Restrained(last, steps[n])
  }

  lemma OneStepMore(w: World, steps: seq<Step>, step: Step)
    ensures Exec(w, steps + [step]) == Apply(Exec(w, steps), step)
    ensures Lawful(w, steps + [step]) <==>
            Lawful(w, steps) && Possible(Exec(w, steps), step) && Restrained(Exec(w, steps), step)
  {
    assert (steps + [step])[..|steps|] == steps;
  }

  // ----- The invariant of the protocol ----------------------------------------------------------

  predicate BusyThere(w: World, d: AccountId) {
    d in w.client.devices && w.client.devices[d].state == Busy
  }

  /** The service chain has on its log the completion of an order from the client chain on these terms. */
  ghost predicate Worked(w: World, d: AccountId, order: Order) {
    exists j :: Is(w.service.log, j, d, S.Completed) && CompletedOn(w, j, order)
  }

  predicate CompletedOn(w: World, j: int, order: Order) {
    && 0 <= j < |w.service.log|
    && w.service.log[j].order.Some?
    && w.service.log[j].order.value.paraid == w.home
    && SameTerms(w.service.log[j].order.value, order)
  }

  /** The message says of the open order what is true. */
  ghost predicate Matches(w: World, m: Message, d: AccountId, order: Order) {
    match m
    case NewOrder(client, b) =>
      b.until == order.until && b.data == order.data && b.fee == order.fee && client == order.client
    case OrderAccept(_, _) => true
    case OrderReject(client, _, _) => client == order.client
    case OrderDone(client, _, _) => client == order.client && Worked(w, d, order)
  }

  /** At most one item is outstanding for d; while one is, the client chain has d busy; and the item agrees
      with the order that is open there. */
  ghost predicate Kept(w: World, d: AccountId) {
    && (forall t, u :: Flying(w, t, d) && Flying(w, u, d) ==> t == u)
    && (forall t :: Flying(w, t, d) ==>
          && !Stored(w, d)
          && BusyThere(w, d)
          && (d in w.client.orders ==> Matches(w, w.net[t], d, w.client.orders[d])))
    && (Stored(w, d) ==>
          && BusyThere(w, d)
          && (d in w.client.orders ==> SameTerms(w.service.orders[d], w.client.orders[d])))
  }

  ghost predicate Protocol(w: World) {
    && w.home != w.service.self
    && (forall t :: t in w.net ==> t < w.next)
    && (forall d :: Kept(w, d))
  }

  ghost predicate Inv(w: World) {
    Protocol(w) && SL.Inv(w.service)
  }

  // ----- What single calls do to the outstanding items ------------------------------------------

  ghost predicate LogGrows(s: S.Chain, s': S.Chain) {
    |s.log| <= |s'.log| && s'.log[..|s.log|] == s.log
  }

  /** A remote order in storage stays as it is or goes; what is sent about it matches it, and once a final
      word about it is sent it is gone. */
  ghost predicate ServiceKeeps(s: S.Chain, reply: S.Reply, home: ParaId) {
    var s' := reply.chain;
    && s'.self == s.self
    && LogGrows(s, s')
    && (forall d :: d in s'.orders && s'.orders[d].paraid == home ==> d in s.orders && s.orders[d] == s'.orders[d])
    && (reply.sent.Some? && reply.sent.value.to == home && !reply.sent.value.message.OrderAccept? ==>
          FinalWord(s, s', reply.sent.value.message, home))
  }

  ghost predicate FinalWord(s: S.Chain, s': S.Chain, m: Message, home: ParaId) {
    && (m.OrderReject? || m.OrderDone?)
    && m.device in s.orders && m.device !in s'.orders
    && s.orders[m.device].paraid == home
    && m.client == s.orders[m.device].client
    && (m.OrderDone? ==>
          && |s'.log| == |s.log| + 1
          && Is(s'.log, |s'.log| - 1, m.device, S.Completed)
          && s'.log[|s'.log| - 1].order == Some(s.orders[m.device]))
  }

  lemma ReceiptKeeps(s: S.Chain, order: Order, d: AccountId, answer: Answer, reach: bool)
    ensures var reply := S.OrderReceived(s, order, d, answer, reach);
            var s' := reply.chain;
            && s'.self == s.self
            && LogGrows(s, s')
            && (s'.orders == s.orders || (d !in s.orders && s'.orders == s.orders[d := order]))
            && (reply.sent.Some? ==> reply.sent.value.to == order.paraid && reply.sent.value.message.OrderAccept?)
  {
  }

  lemma RejectionKeeps(s: S.Chain, d: AccountId, dev: S.Device, onoff: bool, byClient: bool, reach: bool, home: ParaId)
    requires home != s.self
    ensures ServiceKeeps(s, S.OrderRejected(s, S.OrderOf(s, d), d, dev, onoff, byClient, reach), home)
  {
  }

  lemma AcceptKeeps(s: S.Chain, d: AccountId, reject: bool, onoff: bool, reach: bool, home: ParaId)
    requires home != s.self
    ensures ServiceKeeps(s, S.AcceptCall(s, d, reject, onoff, reach), home)
  {
    if reject && d in s.devices {
      RejectionKeeps(s, d, s.devices[d].(state := OnOff(onoff)), onoff, false, reach, home);
    }
  }

  lemma CompletionKeeps(s: S.Chain, d: AccountId, onoff: bool, reach: bool, home: ParaId)
    requires home != s.self
    ensures ServiceKeeps(s, S.DoneCall(s, d, onoff, reach), home)
  {
  }

  lemma ServiceCallKeeps(s: S.Chain, call: S.Call, home: ParaId)
    requires home != s.self
    requires call.Receive? ==> call.sender != home
    ensures ServiceKeeps(s, S.Serve(s, call), home)
  {
    match call
    case PlaceOrder(who, base, answer, reach) =>
      ReceiptKeeps(s, S.LocalOrder(s, who, base), base.device, answer, reach);
    case Receive(sender, m, answer, reach) =>
      if m.NewOrder? {
        var b := m.order;
        ReceiptKeeps(s, Order(b.until, b.data, b.fee, m.client, sender), b.device, answer, reach);
      }
    case Cancel(who, d, reach) =>
      if d in s.orders && d in s.devices {
        RejectionKeeps(s, d, s.devices[d], false, true, reach, home);
      }
    case Accept(who, reject, onoff, reach) => AcceptKeeps(s, who, reject, onoff, reach, home);
    case Done(who, onoff, reach) => CompletionKeeps(s, who, onoff, reach, home);
    case _ =>
  }
}
