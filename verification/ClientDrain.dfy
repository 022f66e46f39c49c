/** Clients cancelling their overdue orders on the client chain. */
module ClientDrain {
  import opened Common
  import opened Ledger
  import opened Accounting
  import opened Drain
  import opened Client
  import opened ClientLedger

  /** For each device in turn the client of its order cancels it. */
  function CancelAll(s: Chain, ds: seq<AccountId>): Chain
    decreases |ds|
  {
    if ds == [] || ds[0] !in s.orders then s
    else CancelAll(Serve(s, Cancel(s.orders[ds[0]].client, ds[0])).chain, ds[1..])
  }

  predicate AllCancelled(s: Chain, ds: seq<AccountId>)
    decreases |ds|
  {
    ds != [] ==>
      && ds[0] in s.orders
      && var reply := Serve(s, Cancel(s.orders[ds[0]].client, ds[0]));
         reply.out == Ok && AllCancelled(reply.chain, ds[1..])
  }

  predicate Overdue(s: Chain) {
    forall d :: d in s.orders ==> s.orders[d].until <= s.now
  }

  /** From any sound state, backed or not, the client of an overdue order can cancel it if and only if the
      penalty can be credited to it. */
  lemma CancelSucceedsIff(s: Chain, d: AccountId)
    requires Sound(s) && d in s.orders && s.orders[d].until <= s.now
    ensures d in s.devices
    ensures Serve(s, Cancel(s.orders[d].client, d)).out == Ok <==>
            s.devices[d].penalty == 0 || s.orders[d].client == d || Exists(s.accounts, s.orders[d].client)
  {
    CancelMoves(BooksOf(s), d);
  }

  /** A cancel refunds the deal. */
  lemma CancelIsRefund(s: Chain, d: AccountId)
    requires Sound(s) && Overdue(s) && d in s.orders
    ensures d in Deals(s)
    ensures var reply := CancelCall(s, s.orders[d].client, d);
            && reply.out == LateRefund(BooksOf(s), d).out
            && (reply.out == Ok ==>
                  && BooksOf(reply.chain) == Without(BooksOf(s), d)
                  && reply.chain.orders == s.orders - {d}
                  && Overdue(reply.chain) && Sound(reply.chain))
  {
    var call := Cancel(s.orders[d].client, d);
    RejectionFiled(s, s.orders[d].client, d, s.devices[d]);
    ShapeKept(s, call);
    Conserves(s, call);
  }

  lemma {:induction false} CancelAllIsRefundAll(s: Chain, ds: seq<AccountId>)
    requires Sound(s) && Overdue(s)
    ensures AllCancelled(s, ds) <==> AllRefunded(BooksOf(s), ds)
    ensures AllCancelled(s, ds) ==> BooksOf(CancelAll(s, ds)) == AfterAll(BooksOf(s), ds) && Sound(CancelAll(s, ds))
    decreases |ds|
  {
    if ds == [] {
    } else if ds[0] in s.orders {
      CancelIsRefund(s, ds[0]);
      var reply := CancelCall(s, s.orders[ds[0]].client, ds[0]);
      if reply.out == Ok {
        CancelAllIsRefundAll(reply.chain, ds[1..]);
      }
    }
  }

  lemma AllFiled(s: Chain)
    requires Shape(s)
    ensures Deals(s).Keys == s.orders.Keys
  {
  }

  /** Drain. From any sound state, backed or not, with all open orders overdue, their clients can cancel them,
      whichever and in whatever order, if and only if every client that is owed a penalty by another has
      something besides what can be taken from it as a device itself. */
  lemma DrainIff(s: Chain)
    requires Sound(s) && Overdue(s)
    ensures (forall ds :: Lists(s.orders.Keys, ds) ==> AllCancelled(s, ds)) <==> Drainable(BooksOf(s))
  {
    AllFiled(s);
    Drain.DrainIff(BooksOf(s));
    forall ds ensures AllCancelled(s, ds) <==> AllRefunded(BooksOf(s), ds) {
      CancelAllIsRefundAll(s, ds);
    }
  }

  /** Drain in some order. From any state that is backed, or in which a client that is owed a penalty does not
      exist, and with all open orders overdue, there is an order in which the clients can cancel them all if
      and only if every client that is owed a penalty by another exists and no ring of devices is locked. */
  lemma SomeOrderIff(s: Chain)
    requires Sound(s) && Overdue(s)
    requires Backed(BooksOf(s)) || !Creditable(BooksOf(s))
    ensures (exists ds :: Lists(s.orders.Keys, ds) && Covers(s.orders.Keys, ds) && AllCancelled(s, ds)) <==>
            Unlocked(BooksOf(s))
  {
    AllFiled(s);
    Drain.SomeOrderIff(BooksOf(s));
    forall ds ensures AllCancelled(s, ds) <==> AllRefunded(BooksOf(s), ds) {
      CancelAllIsRefundAll(s, ds);
    }
  }

  /** Cancelling all orders leaves none, loses no money, and leaves on reserve, if the chain was backed, only
      what was there for none. */
  lemma DrainedDry(s: Chain, ds: seq<AccountId>)
    requires Sound(s) && Overdue(s)
    requires Covers(s.orders.Keys, ds) && AllCancelled(s, ds)
    ensures var end := CancelAll(s, ds);
            && end.orders == map[]
            && Issuance(end.accounts) == Issuance(s.accounts)
            && (Inv(s) ==> forall a :: Reserved(end.accounts, a) == Slack(BooksOf(s), a))
  {
    var end := CancelAll(s, ds);
    AllFiled(s);
    CancelAllIsRefundAll(s, ds);
    Drained(BooksOf(s), ds);
    AllFiled(end);
    assert end.orders.Keys == {};
  }
}
