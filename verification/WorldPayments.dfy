/** No work is paid twice on the client chain, with or without hypothesis H. */
module WorldPayments {
  import opened Common
  import C = Client
  import S = Service
  import opened World
  import opened WorldTheorems

  /** How often the run has paid device d on the client chain, completions that paid and then failed among
      them. */
  function Payments(w0: World, steps: seq<Step>, d: AccountId): nat
    decreases |steps|
  {
    if steps == [] then 0
    else
      var n := |steps| - 1;
      Payments(w0, steps[..n], d) + if Pays(Exec(w0, steps[..n]), steps[n], d) then 1 else 0
  }

  /** How many orders from the client chain device d has completed, by the service chain's log. */
  function Completions(log: seq<S.Record>, home: ParaId, d: AccountId): nat
    decreases |log|
  {
    if log == [] then 0
    else Completions(log[..|log| - 1], home, d) + if Counts(log[|log| - 1], home, d) then 1 else 0
  }

  predicate Counts(r: S.Record, home: ParaId, d: AccountId) {
    r.fact == S.Completed && r.device == d && r.order.Some? && r.order.value.paraid == home
  }

  /** The completions for d that are on their way. */
  function Unpaid(w: World, d: AccountId): set<nat> {
    set t | t in w.net && w.net[t].OrderDone? && w.net[t].device == d
  }

  predicate Numbered(w: World) {
    forall t :: t in w.net ==> t < w.next
  }

  lemma {:induction false} CompletionsGrow(log: seq<S.Record>, more: seq<S.Record>, home: ParaId, d: AccountId)
    requires |log| <= |more| && more[..|log|] == log
    ensures Completions(log, home, d) <= Completions(more, home, d)
    decreases |more|
  {
    if |log| == |more| {
      assert more == log;
    } else {
      assert more[..|more| - 1][..|log|] == log;
      CompletionsGrow(log, more[..|more| - 1], home, d);
    }
  }

  /** A call on the service chain sends a completion only with one more completion on the log. */
  lemma ServiceBalances(w: World, call: S.Call, d: AccountId)
    requires w.home != w.service.self && Numbered(w)
    ensures var w' := ServiceDoes(w, call);
            && Numbered(w') && w'.home == w.home && w'.service.self == w.service.self
            && |Unpaid(w', d)| - |Unpaid(w, d)| <=
               Completions(w'.service.log, w.home, d) - Completions(w.service.log, w.home, d)
  {
    SentWithLog(w.service, call, w.home);
    ReplyBalances(w, S.Serve(w.service, call), d);
  }

  /** The message is a completion by d for the client chain. */
  predicate SendsCompletion(sent: Option<Envelope>, home: ParaId, d: AccountId) {
    sent.Some? && sent.value.to == home && sent.value.message.OrderDone? && sent.value.message.device == d
  }

  lemma UnpaidAfter(w: World, sent: Option<Envelope>, d: AccountId)
    requires Numbered(w)
    ensures var w' := Route(w, sent, w.home);
            Numbered(w') && |Unpaid(w', d)| == |Unpaid(w, d)| + (if SendsCompletion(sent, w.home, d) then 1 else 0)
  {
    var w' := Route(w, sent, w.home);
    var more: set<nat> := if SendsCompletion(sent, w.home, d) then {w.next} else {};
    assert w.next !in Unpaid(w, d);
    forall t ensures t in Unpaid(w', d) <==> t in Unpaid(w, d) + more {
    }
    assert Unpaid(w', d) == Unpaid(w, d) + more;
  }

  lemma CompletionCounted(s: S.Chain, s': S.Chain, m: Message, home: ParaId)
    requires LogGrows(s, s') && m.OrderDone? && FinalWord(s, s', m, home)
    ensures Completions(s'.log, home, m.device) == Completions(s.log, home, m.device) + 1
  {
    assert s'.log[..|s'.log| - 1] == s.log;
  }

  lemma ReplyBalances(w: World, reply: S.Reply, d: AccountId)
    requires Numbered(w) && LogGrows(w.service, reply.chain)
    requires reply.sent.Some? && reply.sent.value.to == w.home && reply.sent.value.message.OrderDone? ==>
               FinalWord(w.service, reply.chain, reply.sent.value.message, w.home)
    ensures var w' := Route(w.(service := reply.chain), reply.sent, w.home);
            && Numbered(w')
            && |Unpaid(w', d)| - |Unpaid(w, d)| <=
               Completions(w'.service.log, w.home, d) - Completions(w.service.log, w.home, d)
  {
    var w1 := w.(service := reply.chain);
    assert Unpaid(w1, d) == Unpaid(w, d);
    UnpaidAfter(w1, reply.sent, d);
    CompletionsGrow(w.service.log, reply.chain.log, w.home, d);
    if SendsCompletion(reply.sent, w.home, d) {
      CompletionCounted(w.service, reply.chain, reply.sent.value.message, w.home);
    }
  }

  lemma SentWithLog(s: S.Chain, call: S.Call, home: ParaId)
    requires home != s.self
    ensures var reply := S.Serve(s, call);
            && reply.chain.self == s.self && LogGrows(s, reply.chain)
            && (reply.sent.Some? && reply.sent.value.to == home && reply.sent.value.message.OrderDone? ==>
                  FinalWord(s, reply.chain, reply.sent.value.message, home))
  {
    if call.Receive? && call.sender == home {
      if call.message.NewOrder? {
        var b := call.message.order;
        ReceiptKeeps(s, Order(b.until, b.data, b.fee, call.message.client, home), b.device, call.answer, call.reach);
      }
    } else {
      ServiceCallKeeps(s, call, home);
    }
  }

  /** A call on the client chain sends no completion. */
  lemma ClientBalances(w: World, call: C.Call, d: AccountId)
    requires Numbered(w)
    ensures var w' := ClientDoes(w, call);
            && Numbered(w') && w'.home == w.home && w'.service == w.service
            && Unpaid(w', d) == Unpaid(w, d)
  {
    var reply := C.Serve(w.client, call);
    assert reply.sent.Some? ==> reply.sent.value.message.NewOrder?;
  }

  lemma DeliveryBalances(w: World, t: nat, answer: Answer, reach: bool, d: AccountId)
    requires w.home != w.service.self && Numbered(w) && t in w.net
    ensures var step := Deliver(t, answer, reach);
            var w' := Apply(w, step);
            && Numbered(w') && w'.home == w.home && w'.service.self == w.service.self
            && |Unpaid(w', d)| - |Unpaid(w, d)| + (if Pays(w, step, d) then 1 else 0) <=
               Completions(w'.service.log, w.home, d) - Completions(w.service.log, w.home, d)
  {
    var m := w.net[t];
    var w1 := w.(net := w.net - {t});
    assert Unpaid(w1, d) == Unpaid(w, d) - {t};
    if m.NewOrder? {
      ServiceBalances(w1, S.Receive(w.home, m, answer, reach), d);
    } else {
      ClientBalances(w1, C.Receive(m), d);
      assert Pays(w, Deliver(t, answer, reach), d) ==> t in Unpaid(w, d);
    }
  }

  lemma StepBalances(w: World, step: Step, d: AccountId)
    requires w.home != w.service.self && Numbered(w) && Possible(w, step)
    ensures var w' := Apply(w, step);
            && Numbered(w') && w'.home == w.home && w'.service.self == w.service.self
            && |Unpaid(w', d)| - |Unpaid(w, d)| + (if Pays(w, step, d) then 1 else 0) <=
               Completions(w'.service.log, w.home, d) - Completions(w.service.log, w.home, d)
  {
    match step
    case AtClient(call) => ClientBalances(w, call, d);
    case AtService(call) => ServiceBalances(w, call, d);
    case Deliver(t, answer, reach) => DeliveryBalances(w, t, answer, reach, d);
    case Lose(t) =>
      assert Unpaid(Apply(w, step), d) == Unpaid(w, d) - {t};
  }

  /** No work is paid twice: in every run the client chain has paid a device at most as often as the service
      chain has completed orders from the client chain for it, less the completions still on their way. */
  lemma {:induction false} PaidAtMostOnce(w0: World, steps: seq<Step>, d: AccountId)
    requires Genesis(w0) && AllPossible(w0, steps)
    ensures var w := Exec(w0, steps);
            && Numbered(w) && w.home == w0.home && w.service.self == w0.service.self
            && Payments(w0, steps, d) + |Unpaid(w, d)| <= Completions(w.service.log, w.home, d)
    decreases |steps|
  {
    if steps == [] {
      assert Unpaid(w0, d) == {};
    } else {
      var n := |steps| - 1;
      PaidAtMostOnce(w0, steps[..n], d);
      StepBalances(Exec(w0, steps[..n]), steps[n], d);
    }
  }
}
