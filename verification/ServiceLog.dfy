/** The service chain's event log read as a story per device, and how the log and the storage keep together. */
module ServiceLog {
  import opened Common
  import opened Service

  /** What the log tells of one device. Broken: no run of the pallet tells it so. */
  datatype Story =
    | Idle
    | Waiting(order: Order, placedAt: Moment, penalty: Balance)
    | Working(order: Order, placedAt: Moment, penalty: Balance, acceptedAt: Moment)
    | Cancelled
    | Closed
    | Broken

  /** The record is about the order of the story, at the penalty it was placed with. */
  predicate Continues(st: Story, r: Record) {
    (st.Waiting? || st.Working?) && r.order == Some(st.order) && r.penalty == st.penalty
  }

  /** A completed or rejected order closes its story; the client's cancel leaves the device busy until
      it rejects once more or registers anew. A story may break off while working, because a completion
      that fails half-way leaves no event. */
  function Tell(st: Story, r: Record): Story {
    match r.fact
    case Registered =>
      if st.Waiting? || st.Broken? then Broken else Idle
    case Placed =>
      if (st.Idle? || st.Closed? || st.Working?) && r.order.Some? && r.at < r.order.value.until
      then Waiting(r.order.value, r.at, r.penalty) else Broken
    case Accepted =>
      if st.Waiting? && Continues(st, r) && st.placedAt <= r.at < st.order.until
      then Working(st.order, st.placedAt, st.penalty, r.at) else Broken
    case Rejected =>
      if Continues(st, r) && (r.byClient ==> r.at >= st.order.until)
      then if r.byClient then Cancelled else Closed
      else if st.Cancelled? && r.order == None && !r.byClient then Closed
      else Broken
    case Completed =>
      if st.Working? && Continues(st, r) then Closed else Broken
  }

  function StoryOf(log: seq<Record>, d: AccountId): Story
    decreases |log|
  {
    if log == [] then Idle
    else
      var before := StoryOf(log[..|log| - 1], d);
      var last := log[|log| - 1];
      if last.device == d then Tell(before, last) else before
  }

  lemma OneMore(log: seq<Record>, r: Record)
    ensures forall d :: StoryOf(log + [r], d) ==
                        if r.device == d then Tell(StoryOf(log, d), r) else StoryOf(log, d)
  {
    assert (log + [r])[..|log|] == log;
  }

  lemma {:induction false} BrokenStaysBroken(log: seq<Record>, d: AccountId, n: nat)
    requires n <= |log|
    requires StoryOf(log, d) != Broken
    ensures StoryOf(log[..n], d) != Broken
    decreases |log|
  {
    if n == |log| {
      assert log[..n] == log;
    } else {
      var shorter := log[..|log| - 1];
      assert shorter[..n] == log[..n];
      BrokenStaysBroken(shorter, d, n);
    }
  }

  // ----- What an unbroken story says about the order of events -----------------------------------

  predicate Is(log: seq<Record>, i: int, d: AccountId, fact: Fact) {
    0 <= i < |log| && log[i].device == d && log[i].fact == fact
  }

  /** Device d gets no new order in log[i..j]. */
  ghost predicate NoneNew(log: seq<Record>, i: int, j: int, d: AccountId) {
    forall k :: i <= k < j ==> !Is(log, k, d, Placed)
  }

  /** How far an order has come; only a new order sets it back. */
  function Progress(st: Story): nat {
    match st
    case Waiting(_, _, _) => 0
    case Working(_, _, _, _) => 1
    case Cancelled => 2
    case Closed => 3
    case Idle => 3
    case Broken => 4
  }

  lemma {:induction false} OnlyForward(log: seq<Record>, d: AccountId, m: nat, n: nat)
    requires m <= n <= |log|
    requires NoneNew(log, m, n, d)
    ensures Progress(StoryOf(log[..m], d)) <= Progress(StoryOf(log[..n], d))
    decreases n
  {
    if m == n {
    } else {
      OnlyForward(log, d, m, n - 1);
      assert log[..n][..n - 1] == log[..n - 1];
      assert !Is(log, n - 1, d, Placed);
    }
  }

  lemma StepAt(log: seq<Record>, i: nat)
    requires i < |log|
    ensures StoryOf(log[..i + 1], log[i].device) == Tell(StoryOf(log[..i], log[i].device), log[i])
  {
    assert log[..i + 1][..i] == log[..i];
  }

  /** Between one new order of a device and the next there is at most one acceptance, at most one
      completion, never a completion and a rejection, and nothing is accepted once it is over. A second
      rejection follows only a client's cancel, and then no order is left to reject. */
  lemma AtMostOnce(log: seq<Record>, d: AccountId, i: nat, j: nat)
    requires StoryOf(log, d) != Broken
    requires i < j < |log| && log[i].device == d && log[j].device == d
    requires NoneNew(log, i + 1, j, d)
    ensures !(log[i].fact == Accepted && log[j].fact == Accepted)
    ensures log[i].fact == Completed ==> log[j].fact == Registered || log[j].fact == Placed
    ensures log[i].fact == Rejected ==> log[j].fact != Completed && log[j].fact != Accepted
    ensures log[i].fact == Rejected && log[j].fact == Rejected ==>
              log[i].byClient && log[i].order.Some? && log[j].order == None && !log[j].byClient
  {
    StepAt(log, i);
    StepAt(log, j);
    BrokenStaysBroken(log, d, i + 1);
    BrokenStaysBroken(log, d, j + 1);
    OnlyForward(log, d, i + 1, j);
  }

  /** Where a story stands, the log shows how it came there. */
  ghost predicate PlacedHere(log: seq<Record>, p: int, d: AccountId, order: Order, penalty: Balance) {
    Is(log, p, d, Placed) && log[p].order == Some(order) && log[p].penalty == penalty
  }

  ghost predicate AcceptedHere(log: seq<Record>, i: int, d: AccountId, order: Order) {
    Is(log, i, d, Accepted) && log[i].order == Some(order) && log[i].at < order.until
  }

  lemma {:induction false} WaitingWasPlaced(log: seq<Record>, d: AccountId) returns (p: nat)
    requires StoryOf(log, d).Waiting?
    ensures PlacedHere(log, p, d, StoryOf(log, d).order, StoryOf(log, d).penalty)
    ensures log[p].at == StoryOf(log, d).placedAt
    ensures NoneNew(log, p + 1, |log|, d)
    decreases |log|
  {
    var n := |log| - 1;
    var before := log[..n];
    if log[n].device == d {
      p := n;
    } else {
      p := WaitingWasPlaced(before, d);
      assert forall k :: p + 1 <= k < n ==> (Is(log, k, d, Placed) <==> Is(before, k, d, Placed));
    }
  }

  lemma {:induction false} WorkingWasAccepted(log: seq<Record>, d: AccountId) returns (p: nat, i: nat)
    requires StoryOf(log, d).Working?
    ensures p < i
    ensures PlacedHere(log, p, d, StoryOf(log, d).order, StoryOf(log, d).penalty)
    ensures log[p].at == StoryOf(log, d).placedAt
    ensures AcceptedHere(log, i, d, StoryOf(log, d).order) && log[i].at == StoryOf(log, d).acceptedAt
    ensures NoneNew(log, p + 1, |log|, d)
    decreases |log|
  {
    var n := |log| - 1;
    var before := log[..n];
    if log[n].device == d {
      i := n;
      p := WaitingWasPlaced(before, d);
    } else {
      p, i := WorkingWasAccepted(before, d);
    }
    assert forall k :: p + 1 <= k < n ==> (Is(log, k, d, Placed) <==> Is(before, k, d, Placed));
  }

  /** A completion comes after the placement of that very order at that very penalty, and its acceptance in
      time, with no new order between. */
  lemma CompletedWasAccepted(log: seq<Record>, d: AccountId, j: nat) returns (p: nat, i: nat)
    requires StoryOf(log, d) != Broken
    requires Is(log, j, d, Completed)
    ensures log[j].order.Some?
    ensures p < i < j && PlacedHere(log, p, d, log[j].order.value, log[j].penalty)
    ensures AcceptedHere(log, i, d, log[j].order.value)
    ensures NoneNew(log, p + 1, j, d)
  {
    StepAt(log, j);
    BrokenStaysBroken(log, d, j + 1);
    var before := log[..j];
    p, i := WorkingWasAccepted(before, d);
    assert forall k :: p + 1 <= k < j ==> (Is(log, k, d, Placed) <==> Is(before, k, d, Placed));
  }

  // ----- The storage keeps to the log ------------------------------------------------------------

  /** The terms a stored order was placed on: it was placed before its deadline, and its deadline was
      checked against the device's current work cycle. */
  predicate OnTerms(s: Chain, d: AccountId, at: Moment)
    requires d in s.orders && d in s.devices
  {
    && at <= s.now
    && at < s.orders[d].until
    && WrapAdd(at, s.devices[d].wcd) <= s.orders[d].until
  }

  ghost predicate Fits(s: Chain, d: AccountId) {
    var st := StoryOf(s.log, d);
    if d !in s.devices then d !in s.orders && st == Idle
    else if d in s.orders then
      match s.devices[d].state
      case Busy => st.Waiting? && st.order == s.orders[d] && st.penalty == s.devices[d].penalty
                   && OnTerms(s, d, st.placedAt)
      case Busy2 => st.Working? && st.order == s.orders[d] && st.penalty == s.devices[d].penalty
                    && OnTerms(s, d, st.placedAt)
                    && st.placedAt <= st.acceptedAt <= s.now && st.acceptedAt < st.order.until
      case _ => false
    else
      match s.devices[d].state
      case Off => st.Idle? || st.Closed? || st.Working?
      case Ready => st.Idle? || st.Closed? || st.Working?
      case Busy => st.Cancelled?
      case Busy2 => st.Cancelled?
      case Timewait => false
  }

  ghost predicate Shape(s: Chain) {
    forall d :: Fits(s, d)
  }

  /** A change at device d alone, told by the records in `news`, leaves the others as they fit. */
  lemma ShapeAt(s: Chain, s': Chain, d: AccountId, news: seq<Record>)
    requires Shape(s)
    requires s'.now == s.now && s'.log == s.log + news
    requires s'.orders - {d} == s.orders - {d} && s'.devices - {d} == s.devices - {d}
    requires |news| <= 2 && forall r :: r in news ==> r.device == d
    requires Fits(s', d)
    ensures Shape(s')
  {
    Others(s.log, news, d);
    forall x ensures Fits(s', x) {
      assert Fits(s, x);
      if x != d {
        assert x in s'.orders - {d} <==> x in s'.orders;
        assert x in s.orders - {d} <==> x in s.orders;
        assert x in s'.devices - {d} <==> x in s'.devices;
        assert x in s.devices - {d} <==> x in s.devices;
        assert x in s.orders ==> s'.orders[x] == (s'.orders - {d})[x] == s.orders[x];
        assert x in s.devices ==> s'.devices[x] == (s'.devices - {d})[x] == s.devices[x];
      }
    }
  }

  lemma {:induction false} Others(log: seq<Record>, news: seq<Record>, d: AccountId)
    requires forall r :: r in news ==> r.device == d
    ensures forall x :: x != d ==> StoryOf(log + news, x) == StoryOf(log, x)
    decreases |news|
  {
    if news == [] {
      assert log + news == log;
    } else {
      var shorter := news[..|news| - 1];
      var last := news[|news| - 1];
      Others(log, shorter, d);
      OneMore(log + shorter, last);
      assert log + news == log + shorter + [last];
    }
  }

  /** A new order puts its placement on the log, and its acceptance too if the callback accepts at once. */
  lemma ReceivedFits(s: Chain, s': Chain, order: Order, d: AccountId, answer: Answer)
    requires Shape(s) && Refusal(s, order, d, answer) == None
    requires s'.now == s.now && s'.orders == s.orders[d := order]
    requires s'.devices == s.devices[d := s.devices[d].(state := answer.value)]
    requires var placed := Record(Placed, d, Some(order), s.now, s.devices[d].penalty, false);
             s'.log == s.log + [placed] + if answer == Some(Busy2) then [placed.(fact := Accepted)] else []
    ensures Shape(s')
  {
    assert Fits(s, d);
    var placed := Record(Placed, d, Some(order), s.now, s.devices[d].penalty, false);
    OneMore(s.log, placed);
    if answer == Some(Busy2) {
      var accepted := placed.(fact := Accepted);
      OneMore(s.log + [placed], accepted);
      assert s'.log == s.log + [placed, accepted];
      ShapeAt(s, s', d, [placed, accepted]);
    } else {
      assert s'.log == s.log + [placed];
      ShapeAt(s, s', d, [placed]);
    }
  }

  lemma OrderReceivedShape(s: Chain, order: Order, d: AccountId, answer: Answer, reach: bool)
    requires Shape(s)
    ensures Shape(OrderReceived(s, order, d, answer, reach).chain)
  {
    var reply := OrderReceived(s, order, d, answer, reach);
    if reply.out == Ok {
      ReceivedFits(s, reply.chain, order, d, answer);
    } else {
      SameFits(s, reply.chain);
    }
  }

  /** A rejection puts one record on the log, takes the order away, and leaves the device on or off, or
      as it was if the client cancelled. */
  lemma RejectedFits(s: Chain, s': Chain, d: AccountId, onoff: bool, byClient: bool)
    requires Shape(s)
    requires d in s.devices && (s.devices[d].state == Busy || s.devices[d].state == Busy2)
    requires byClient ==> d in s.orders && s.now >= s.orders[d].until
    requires s'.now == s.now && s'.orders == s.orders - {d}
    requires s'.devices == if byClient then s.devices else s.devices[d := s.devices[d].(state := OnOff(onoff))]
    requires s'.log == s.log + [Record(Rejected, d, OrderOf(s, d), s.now, s.devices[d].penalty, byClient)]
    ensures Shape(s')
  {
    assert Fits(s, d);
    var news := Record(Rejected, d, OrderOf(s, d), s.now, s.devices[d].penalty, byClient);
    OneMore(s.log, news);
    ShapeAt(s, s', d, [news]);
  }

  lemma RejectedShape(s: Chain, d: AccountId, dev: Device, onoff: bool, byClient: bool, reach: bool)
    requires Shape(s)
    requires d in s.devices && (s.devices[d].state == Busy || s.devices[d].state == Busy2)
    requires dev == if byClient then s.devices[d] else s.devices[d].(state := OnOff(onoff))
    requires byClient ==> d in s.orders && s.now >= s.orders[d].until
    ensures Shape(OrderRejected(s, OrderOf(s, d), d, dev, onoff, byClient, reach).chain)
  {
    var reply := OrderRejected(s, OrderOf(s, d), d, dev, onoff, byClient, reach);
    if reply.out == Ok {
      assert byClient ==> s.devices[d := dev] == s.devices;
      RejectedFits(s, reply.chain, d, onoff, byClient);
    } else {
      SameFits(s, reply.chain);
    }
  }

  lemma SameFits(s: Chain, s': Chain)
    requires Shape(s)
    requires s'.now == s.now && s'.orders == s.orders && s'.devices == s.devices && s'.log == s.log
    ensures Shape(s')
  {
    forall x ensures Fits(s', x) {
      assert Fits(s, x);
    }
  }

  /** A completion takes the order away, with an event or, if it fails half-way, without. */
  lemma CompletedFits(s: Chain, s': Chain, d: AccountId, onoff: bool, told: bool)
    requires Shape(s)
    requires d in s.devices && d in s.orders && s.devices[d].state == Busy2
    requires s'.now == s.now && s'.orders == s.orders - {d}
    requires s'.devices == s.devices[d := s.devices[d].(state := OnOff(onoff))]
    requires s'.log == s.log + if told
             then [Record(Completed, d, Some(s.orders[d]), s.now, s.devices[d].penalty, false)] else []
    ensures Shape(s')
  {
    assert Fits(s, d);
    if told {
      var news := Record(Completed, d, Some(s.orders[d]), s.now, s.devices[d].penalty, false);
      OneMore(s.log, news);
      ShapeAt(s, s', d, [news]);
    } else {
      assert s.log + [] == s.log;
      ShapeAt(s, s', d, []);
    }
  }

  lemma DoneShape(s: Chain, d: AccountId, onoff: bool, reach: bool)
    requires Shape(s)
    ensures Shape(DoneCall(s, d, onoff, reach).chain)
  {
    var reply := DoneCall(s, d, onoff, reach);
    if d in s.devices && s.devices[d].state == Busy2 && d in s.orders {
      assert s.log + [] == s.log;
      CompletedFits(s, reply.chain, d, onoff, reply.out == Ok);
    }
  }

  lemma ProfileShape(s: Chain, call: Call)
    requires Shape(s)
    requires call.Register? || call.SetState? || call.Tick?
    ensures Shape(Serve(s, call).chain)
  {
    var s' := Serve(s, call).chain;
    if call.Register? {
      OneMore(s.log, Record(Registered, call.who, None, s.now, call.penalty, false));
    }
    forall x ensures Fits(s', x) {
      assert Fits(s, x);
    }
  }

  lemma AcceptShape(s: Chain, d: AccountId, reject: bool, onoff: bool, reach: bool)
    requires Shape(s)
    ensures Shape(AcceptCall(s, d, reject, onoff, reach).chain)
  {
    assert Fits(s, d);
    if d in s.devices {
      var dev := s.devices[d];
      if reject {
        if dev.state == Busy || dev.state == Busy2 {
          RejectedShape(s, d, dev.(state := OnOff(onoff)), onoff, false, reach);
        }
      } else if d in s.orders {
        OneMore(s.log, Record(Accepted, d, Some(s.orders[d]), s.now, dev.penalty, false));
        var s' := AcceptCall(s, d, reject, onoff, reach).chain;
        forall x ensures Fits(s', x) {
          assert Fits(s, x);
        }
      }
    }
  }

  /** Every call, whatever it answers, keeps the storage and the log together. */
  lemma ShapeKept(s: Chain, call: Call)
    requires Shape(s)
    ensures Shape(Serve(s, call).chain)
  {
    match call
    case PlaceOrder(who, base, answer, reach) =>
      OrderReceivedShape(s, LocalOrder(s, who, base), base.device, answer, reach);
    case Cancel(who, d, reach) =>
      assert Fits(s, d);
      if d in s.orders && s.now >= s.orders[d].until && s.orders[d].client == who {
        RejectedShape(s, d, s.devices[d], false, true, reach);
      }
    case Accept(who, reject, onoff, reach) => AcceptShape(s, who, reject, onoff, reach);
    case Done(who, onoff, reach) => DoneShape(s, who, onoff, reach);
    case Receive(sender, m, answer, reach) =>
      if m.NewOrder? {
        var b := m.order;
        OrderReceivedShape(s, Order(b.until, b.data, b.fee, m.client, sender), b.device, answer, reach);
      }
    case _ => ProfileShape(s, call);
  }
}
