/** Under hypothesis H payments and work agree not only in number but on each set of terms. */
module WorldTerms {
  import opened Common
  import C = Client
  import S = Service
  import opened World
  import opened WorldProtocol
  import opened WorldTheorems
  import opened WorldPayments
  import opened WorldOutcome

  predicate PaysOn(w: World, step: Step, d: AccountId, terms: Order) {
    Pays(w, step, d) && d in w.client.orders && SameTerms(w.client.orders[d], terms)
  }

  /** How often the run has paid device d on the client chain for an order on these terms. */
  function PaymentsOn(w0: World, steps: seq<Step>, d: AccountId, terms: Order): nat
    decreases |steps|
  {
    if steps == [] then 0
    else
      var n := |steps| - 1;
      PaymentsOn(w0, steps[..n], d, terms) + if PaysOn(Exec(w0, steps[..n]), steps[n], d, terms) then 1 else 0
  }

  predicate CountsOn(r: S.Record, home: ParaId, d: AccountId, terms: Order) {
    Counts(r, home, d) && SameTerms(r.order.value, terms)
  }

  /** How many orders on these terms from the client chain device d has completed, by the service chain's log. */
  function CompletionsOn(log: seq<S.Record>, home: ParaId, d: AccountId, terms: Order): nat
    decreases |log|
  {
    if log == [] then 0
    else
      CompletionsOn(log[..|log| - 1], home, d, terms) + if CountsOn(log[|log| - 1], home, d, terms) then 1 else 0
  }

  predicate LastOn(last: map<AccountId, Order>, d: AccountId, terms: Order) {
    d in last && SameTerms(last[d], terms)
  }

  /** The completions for d that are on their way, if the last order open for d was on these terms. */
  function UnpaidOn(w: World, last: map<AccountId, Order>, d: AccountId, terms: Order): nat {
    if LastOn(last, d, terms) then |Unpaid(w, d)| else 0
  }

  lemma {:induction false} CompletionsOnGrow(log: seq<S.Record>, more: seq<S.Record>, home: ParaId,
                                             d: AccountId, terms: Order)
    requires |log| <= |more| && more[..|log|] == log
    ensures CompletionsOn(log, home, d, terms) <= CompletionsOn(more, home, d, terms)
    decreases |more|
  {
    if |log| == |more| {
      assert more == log;
    } else {
      assert more[..|more| - 1][..|log|] == log;
      CompletionsOnGrow(log, more[..|more| - 1], home, d, terms);
    }
  }

  /** The protocol holds of the last orders, and whatever is outstanding is about one of them. */
  ghost predicate Recalls(w: World, last: map<AccountId, Order>) {
    && Protocol(w) && Protocol(Shadow(w, last)) && Remembers(last, w)
    && forall d :: Outstanding(w, d) ==> d in last
  }

  /** What the service chain completes for the client chain is the last order. */
  lemma StoredIsLast(w: World, last: map<AccountId, Order>, d: AccountId, terms: Order)
    requires Recalls(w, last) && Stored(w, d)
    ensures LastOn(last, d, terms) <==> SameTerms(w.service.orders[d], terms)
  {
    assert Kept(Shadow(w, last), d) && Outstanding(w, d);
  }

  lemma CompletionCountedOn(s: S.Chain, s': S.Chain, m: Message, home: ParaId, terms: Order)
    requires LogGrows(s, s') && m.OrderDone? && FinalWord(s, s', m, home)
    ensures CompletionsOn(s'.log, home, m.device, terms) ==
            CompletionsOn(s.log, home, m.device, terms) + (if SameTerms(s.orders[m.device], terms) then 1 else 0)
  {
    assert s'.log[..|s'.log| - 1] == s.log;
  }

  lemma ServiceBalancesOn(w: World, last: map<AccountId, Order>, call: S.Call, d: AccountId, terms: Order)
    requires Recalls(w, last)
    ensures var w' := ServiceDoes(w, call);
            UnpaidOn(w', last, d, terms) - UnpaidOn(w, last, d, terms) <=
            CompletionsOn(w'.service.log, w.home, d, terms) - CompletionsOn(w.service.log, w.home, d, terms)
  {
    var reply := S.Serve(w.service, call);
    var w1 := w.(service := reply.chain);
    SentWithLog(w.service, call, w.home);
    assert Unpaid(w1, d) == Unpaid(w, d);
    UnpaidAfter(w1, reply.sent, d);
    CompletionsOnGrow(w.service.log, reply.chain.log, w.home, d, terms);
    if SendsCompletion(reply.sent, w.home, d) {
      CompletionCountedOn(w.service, reply.chain, reply.sent.value.message, w.home, terms);
      StoredIsLast(w, last, d, terms);
    }
  }

  /** A call on the client chain that gives d a new last order finds no completion for d on its way. */
  lemma ClientBalancesOn(w: World, last: map<AccountId, Order>, call: C.Call, d: AccountId, terms: Order)
    requires Protocol(w) && Remembers(last, w)
    ensures var w' := ClientDoes(w, call);
            UnpaidOn(w', last + w'.client.orders, d, terms) <= UnpaidOn(w, last, d, terms)
  {
    var w' := ClientDoes(w, call);
    ClientBalances(w, call, d);
    if !call.PlaceOrder? {
      QuietCall(w.client, call);
      assert last + w'.client.orders == last;
    } else if C.Refusal(w.client, call.base) == None {
      PlacementLeft(w.client, call.who, call.base, call.reach);
      if call.base.device == d {
        ReadyIsClear(w, d);
        assert forall t :: t in Unpaid(w, d) ==> Flying(w, t, d);
        assert Unpaid(w, d) == {};
      }
    } else {
      assert last + w'.client.orders == last;
    }
  }

  /** The invariant but for the last orders of a world from whose net a message is taken. */
  lemma RecallsLess(w: World, last: map<AccountId, Order>, t: nat)
    requires Recalls(w, last) && t in w.net
    ensures Recalls(w.(net := w.net - {t}), last)
  {
    var w1 := w.(net := w.net - {t});
    TakenOff(w, t);
    TakenOff(Shadow(w, last), t);
    assert Shadow(w, last).(net := w.net - {t}) == Shadow(w1, last);
    forall d | Outstanding(w1, d) ensures d in last {
      assert forall u :: Flying(w1, u, d) ==> Flying(w, u, d);
    }
  }

  lemma DeliveryBalancesOn(w: World, last: map<AccountId, Order>, t: nat, answer: Answer, reach: bool,
                           d: AccountId, terms: Order)
    requires Recalls(w, last) && t in w.net
    ensures var step := Deliver(t, answer, reach);
            var w' := Apply(w, step);
            UnpaidOn(w', last + w'.client.orders, d, terms) - UnpaidOn(w, last, d, terms)
              + (if PaysOn(w, step, d, terms) then 1 else 0) <=
            CompletionsOn(w'.service.log, w.home, d, terms) - CompletionsOn(w.service.log, w.home, d, terms)
  {
    var m := w.net[t];
    var w1 := w.(net := w.net - {t});
    assert Unpaid(w1, d) == Unpaid(w, d) - {t};
    RecallsLess(w, last, t);
    if m.NewOrder? {
      assert last + w.client.orders == last;
      ServiceBalancesOn(w1, last, S.Receive(w.home, m, answer, reach), d, terms);
    } else {
      ClientBalancesOn(w1, last, C.Receive(m), d, terms);
      ClientBalances(w1, C.Receive(m), d);
      assert PaysOn(w, Deliver(t, answer, reach), d, terms) ==> t in Unpaid(w, d) && LastOn(last, d, terms);
    }
  }

  lemma StepBalancesOn(w: World, last: map<AccountId, Order>, step: Step, d: AccountId, terms: Order)
    requires Recalls(w, last) && Possible(w, step)
    ensures var w' := Apply(w, step);
            UnpaidOn(w', last + w'.client.orders, d, terms) - UnpaidOn(w, last, d, terms)
              + (if PaysOn(w, step, d, terms) then 1 else 0) <=
            CompletionsOn(w'.service.log, w.home, d, terms) - CompletionsOn(w.service.log, w.home, d, terms)
  {
    match step
    case AtClient(call) =>
      ClientBalances(w, call, d);
      ClientBalancesOn(w, last, call, d, terms);
    case AtService(call) =>
      assert last + w.client.orders == last;
      ServiceBalancesOn(w, last, call, d, terms);
    case Deliver(t, answer, reach) => DeliveryBalancesOn(w, last, t, answer, reach, d, terms);
    case Lose(t) =>
      assert last + w.client.orders == last;
      assert Unpaid(Apply(w, step), d) == Unpaid(w, d) - {t};
  }

  lemma RecallsAlways(w0: World, steps: seq<Step>)
    requires Genesis(w0) && Lawful(w0, steps)
    ensures Recalls(Exec(w0, steps), LastOrders(w0, steps)) && Exec(w0, steps).home == w0.home
  {
    Always(w0, steps);
    LastIsKept(w0, steps);
    forall d | Outstanding(Exec(w0, steps), d) ensures d in LastOrders(w0, steps) {
      assert Traced(w0, steps, d);
    }
    HomeStays(w0, steps);
  }

  lemma {:induction false} HomeStays(w0: World, steps: seq<Step>)
    ensures Exec(w0, steps).home == w0.home
    decreases |steps|
  {
    if steps == [] {
    } else {
      HomeStays(w0, steps[..|steps| - 1]);
    }
  }

  /** No order is paid for another's work. In every run under H the client chain has paid a device on given terms
      at most as often as the service chain has completed orders on these terms for it, less the completions
      on their way for a last order on these terms. */
  lemma {:induction false} PaidOnTerms(w0: World, steps: seq<Step>, d: AccountId, terms: Order)
    requires Genesis(w0) && Lawful(w0, steps)
    ensures var w := Exec(w0, steps);
            PaymentsOn(w0, steps, d, terms) + UnpaidOn(w, LastOrders(w0, steps), d, terms) <=
            CompletionsOn(w.service.log, w0.home, d, terms)
    decreases |steps|
  {
    if steps == [] {
      assert Unpaid(w0, d) == {};
    } else {
      var before := steps[..|steps| - 1];
      PaidOnTerms(w0, before, d, terms);
      RecallsAlways(w0, before);
      StepBalancesOn(Exec(w0, before), LastOrders(w0, before), steps[|steps| - 1], d, terms);
    }
  }
}
