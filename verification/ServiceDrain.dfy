/** Clients cancelling their overdue orders on the service chain. */
module ServiceDrain {
  import opened Common
  import opened Ledger
  import opened Escrow
  import opened Accounting
  import opened Drain
  import opened Service
  import opened ServiceLog
  import opened ServiceLedger
  import opened ServiceTheorems

  /** For each device in turn the client of its order cancels it. */
  function CancelAll(s: Chain, ds: seq<AccountId>, reach: bool): Chain
    decreases |ds|
  {
    if ds == [] || ds[0] !in s.orders then s
    else CancelAll(Serve(s, Cancel(s.orders[ds[0]].client, ds[0], reach)).chain, ds[1..], reach)
  }

  predicate AllCancelled(s: Chain, ds: seq<AccountId>, reach: bool)
    decreases |ds|
  {
    ds != [] ==>
      && ds[0] in s.orders
      && var reply := Serve(s, Cancel(s.orders[ds[0]].client, ds[0], reach));
         reply.out == Ok && AllCancelled(reply.chain, ds[1..], reach)
  }

  predicate Overdue(s: Chain) {
    forall d :: d in s.orders ==> s.orders[d].until <= s.now
  }

  /** The other chain of every open order can be reached, if there is any. */
  predicate Reaches(s: Chain, reach: bool) {
    reach || forall d :: d in s.orders ==> s.orders[d].paraid == s.self
  }

  /** The devices among `ds` with a deal on the books: those with a local order. */
  function Locals(open: map<AccountId, Deal>, ds: seq<AccountId>): seq<AccountId>
    decreases |ds|
  {
    if ds == [] then []
    else (if ds[0] in open then [ds[0]] else []) + Locals(open, ds[1..])
  }

  lemma {:induction false} LocalsOfLess(open: map<AccountId, Deal>, d: AccountId, ds: seq<AccountId>)
    requires d !in ds
    ensures Locals(open - {d}, ds) == Locals(open, ds)
    decreases |ds|
  {
    if ds == [] {
    } else {
      LocalsOfLess(open, d, ds[1..]);
    }
  }

  lemma {:induction false} LocalsIn(open: map<AccountId, Deal>, ds: seq<AccountId>)
    ensures forall d :: d in Locals(open, ds) <==> d in open && d in ds
    ensures (forall d :: d in ds ==> d in open) ==> Locals(open, ds) == ds
    ensures (forall d :: d in ds ==> d !in open) ==> Locals(open, ds) == []
    decreases |ds|
  {
    if ds == [] {
    } else {
      LocalsIn(open, ds[1..]);
    }
  }

  lemma {:induction false} LocalsListed(open: map<AccountId, Deal>, keys: set<AccountId>, ds: seq<AccountId>)
    requires Lists(keys, ds)
    ensures Lists(open.Keys, Locals(open, ds))
    decreases |ds|
  {
    if ds == [] {
    } else {
      LocalsListed(open, keys, ds[1..]);
      LocalsIn(open, ds[1..]);
      assert ds[0] !in ds[1..];
    }
  }

  /** The client of an overdue order can cancel it if and only if the penalty can be credited to it, or, for
      an order from another chain, if that chain can be reached. */
  lemma CancelSucceedsIff(s: Chain, d: AccountId, reach: bool)
    requires Inv(s) && d in s.orders && s.orders[d].until <= s.now
    ensures d in s.devices
    ensures Serve(s, Cancel(s.orders[d].client, d, reach)).out == Ok <==>
            if s.orders[d].paraid == s.self
            then s.devices[d].penalty == 0 || s.orders[d].client == d || Exists(s.accounts, s.orders[d].client)
            else reach
  {
    assert Fits(s, d);
    if d in LocalDeals(s) {
      CancelMoves(BooksOf(s), d);
    }
  }

  /** A cancel refunds the deal of a local order, and leaves the books alone if the order is remote. */
  lemma CancelIsRefund(s: Chain, d: AccountId, reach: bool)
    requires Inv(s) && Overdue(s) && d in s.orders
    ensures s.orders[d].paraid == s.self <==> d in LocalDeals(s)
    ensures var reply := CancelCall(s, s.orders[d].client, d, reach);
            && reply.out == (if d in LocalDeals(s) then LateRefund(BooksOf(s), d).out
                             else if reach then Ok else Err(CannotReachDestination))
            && (reply.out == Ok ==>
                  && BooksOf(reply.chain) == (if d in LocalDeals(s) then Without(BooksOf(s), d) else BooksOf(s))
                  && reply.chain.orders == s.orders - {d} && reply.chain.self == s.self
                  && Overdue(reply.chain) && Inv(reply.chain))
  {
    assert Fits(s, d);
    var reply := CancelCall(s, s.orders[d].client, d, reach);
    if reply.out == Ok {
      assert LocalDeals(reply.chain) == LocalDeals(s) - {d};
      assert d !in LocalDeals(s) ==> LocalDeals(s) - {d} == LocalDeals(s);
      InvKept(s, Cancel(s.orders[d].client, d, reach));
    }
  }

  /** The device d comes first, and with its order the deal goes from the books. */
  lemma LocalsFirst(b: Books, d: AccountId, rest: seq<AccountId>)
    requires d !in rest
    ensures d in b.open ==>
              && var ds, rest' := Locals(b.open, [d] + rest), Locals(Without(b, d).open, rest);
                 && (AllRefunded(b, ds) <==> LateRefund(b, d).out == Ok && AllRefunded(Without(b, d), rest'))
                 && AfterAll(b, ds) == AfterAll(Without(b, d), rest')
    ensures d !in b.open ==> Locals(b.open, [d] + rest) == Locals(b.open, rest)
  {
    assert ([d] + rest)[1..] == rest;
    LocalsOfLess(b.open, d, rest);
    if d in b.open {
      assert ([d] + Locals(b.open, rest))[1..] == Locals(b.open, rest);
    }
  }

  lemma ListsRest(keys: set<AccountId>, ds: seq<AccountId>)
    requires ds != [] && Lists(keys, ds)
    ensures ds == [ds[0]] + ds[1..] && ds[0] in keys && ds[0] !in ds[1..]
    ensures Lists(keys - {ds[0]}, ds[1..])
  {
    assert forall i :: 0 <= i < |ds| - 1 ==> ds[1..][i] == ds[i + 1] != ds[0];
  }

  /** The cancels of the devices `ds` succeed if and only if the local orders among theirs can be refunded and
      the chains of the remote ones can be reached. */
  lemma {:induction false} AllCancelledIff(s: Chain, ds: seq<AccountId>, reach: bool)
    requires Inv(s) && Overdue(s) && Lists(s.orders.Keys, ds)
    ensures AllCancelled(s, ds, reach) <==>
              && AllRefunded(BooksOf(s), Locals(LocalDeals(s), ds))
              && (reach || forall d :: d in ds ==> s.orders[d].paraid == s.self)
    decreases |ds|
  {
    if ds == [] {
    } else {
      var d := ds[0];
      ListsRest(s.orders.Keys, ds);
      CancelIsRefund(s, d, reach);
      LocalsFirst(BooksOf(s), d, ds[1..]);
      var reply := CancelCall(s, s.orders[d].client, d, reach);
      if reply.out == Ok {
        AllCancelledIff(reply.chain, ds[1..], reach);
      }
    }
  }

  /** The cancels take the orders away and do to the books what the refunds of the local ones do. */
  lemma {:induction false} CancelAllIsRefundAll(s: Chain, ds: seq<AccountId>, reach: bool)
    requires Inv(s) && Overdue(s) && Lists(s.orders.Keys, ds) && AllCancelled(s, ds, reach)
    ensures BooksOf(CancelAll(s, ds, reach)) == AfterAll(BooksOf(s), Locals(LocalDeals(s), ds))
    ensures CancelAll(s, ds, reach).orders.Keys == s.orders.Keys - (set d | d in ds)
    decreases |ds|
  {
    if ds == [] {
    } else {
      var d := ds[0];
      ListsRest(s.orders.Keys, ds);
      CancelIsRefund(s, d, reach);
      LocalsFirst(BooksOf(s), d, ds[1..]);
      CancelAllIsRefundAll(CancelCall(s, s.orders[d].client, d, reach).chain, ds[1..], reach);
    }
  }

  /** Drain. With all open orders overdue, their clients can cancel them, whichever and in whatever order, if
      and only if every client that a local order's penalty is owed to has something besides what can be
      taken from it as a device itself, and the chains of the remote orders can be reached. */
  lemma DrainIff(s: Chain, reach: bool)
    requires Inv(s) && Overdue(s)
    ensures (forall ds :: Lists(s.orders.Keys, ds) ==> AllCancelled(s, ds, reach)) <==>
            Drainable(BooksOf(s)) && Reaches(s, reach)
  {
    Drain.DrainIff(BooksOf(s));
    if Drainable(BooksOf(s)) && Reaches(s, reach) {
      forall ds | Lists(s.orders.Keys, ds) ensures AllCancelled(s, ds, reach) {
        LocalsListed(LocalDeals(s), s.orders.Keys, ds);
        AllCancelledIff(s, ds, reach);
      }
    } else if !Drainable(BooksOf(s)) {
      var ds :| Lists(LocalDeals(s).Keys, ds) && !AllRefunded(BooksOf(s), ds);
      LocalsIn(LocalDeals(s), ds);
      AllCancelledIff(s, ds, reach);
    } else {
      var d :| d in s.orders && s.orders[d].paraid != s.self;
      AllCancelledIff(s, [d], reach);
      assert d in [d];
    }
  }

  lemma {:induction false} ListOf(keys: set<AccountId>) returns (ds: seq<AccountId>)
    ensures Lists(keys, ds) && Covers(keys, ds)
    decreases |keys|
  {
    if keys == {} {
      ds := [];
    } else {
      var d :| d in keys;
      var rest := ListOf(keys - {d});
      ds := [d] + rest;
      OneBefore(keys, d, rest);
    }
  }

  lemma {:induction false} LocalsAppend(open: map<AccountId, Deal>, ds: seq<AccountId>, more: seq<AccountId>)
    ensures Locals(open, ds + more) == Locals(open, ds) + Locals(open, more)
    decreases |ds|
  {
    if ds == [] {
      assert ds + more == more;
    } else {
      assert (ds + more)[1..] == ds[1..] + more;
      LocalsAppend(open, ds[1..], more);
    }
  }

  /** The remote orders can come after the local ones. */
  lemma WithRemotes(open: map<AccountId, Deal>, keys: set<AccountId>, ds: seq<AccountId>) returns (all: seq<AccountId>)
    requires open.Keys <= keys && Lists(open.Keys, ds) && Covers(open.Keys, ds)
    ensures Lists(keys, all) && Covers(keys, all) && Locals(open, all) == ds
  {
    var remotes := ListOf(keys - open.Keys);
    all := ds + remotes;
    LocalsAppend(open, ds, remotes);
    LocalsIn(open, ds);
    LocalsIn(open, remotes);
    assert forall i :: 0 <= i < |remotes| ==> remotes[i] !in open;
    forall x | x in keys ensures x in all {
      assert x in open.Keys || x in keys - open.Keys;
    }
  }

  /** Drain in some order. With all open orders overdue, there is an order in which the clients can cancel them
      all if and only if every client that a local penalty is owed to exists, no ring of devices is locked,
      and the chains of the remote orders can be reached. */
  lemma SomeOrderIff(s: Chain, reach: bool)
    requires Inv(s) && Overdue(s)
    ensures (exists ds :: Lists(s.orders.Keys, ds) && Covers(s.orders.Keys, ds) && AllCancelled(s, ds, reach)) <==>
            Unlocked(BooksOf(s)) && Reaches(s, reach)
  {
    var open := LocalDeals(s);
    Drain.SomeOrderIff(BooksOf(s));
    if ds :| Lists(s.orders.Keys, ds) && Covers(s.orders.Keys, ds) && AllCancelled(s, ds, reach) {
      AllCancelledIff(s, ds, reach);
      LocalsIn(open, ds);
      LocalsListed(open, s.orders.Keys, ds);
      assert Covers(open.Keys, Locals(open, ds));
    } else if Unlocked(BooksOf(s)) && Reaches(s, reach) {
      var ds :| Lists(open.Keys, ds) && Covers(open.Keys, ds) && AllRefunded(BooksOf(s), ds);
      var all := WithRemotes(open, s.orders.Keys, ds);
      AllCancelledIff(s, all, reach);
    }
  }

  /** The same from every reachable state. */
  lemma RunsSomeOrderIff(s0: Chain, calls: seq<Call>, reach: bool)
    requires Genesis(s0) && Overdue(Run(s0, calls))
    ensures var s := Run(s0, calls);
            (exists ds :: Lists(s.orders.Keys, ds) && Covers(s.orders.Keys, ds) && AllCancelled(s, ds, reach)) <==>
            Unlocked(BooksOf(s)) && Reaches(s, reach)
  {
    Always(s0, calls);
    SomeOrderIff(Run(s0, calls), reach);
  }

  /** Cancelling all orders leaves none, loses no money, and leaves on reserve only what was there for none. */
  lemma DrainedDry(s: Chain, ds: seq<AccountId>, reach: bool)
    requires Inv(s) && Overdue(s)
    requires Lists(s.orders.Keys, ds) && Covers(s.orders.Keys, ds) && AllCancelled(s, ds, reach)
    ensures var end := CancelAll(s, ds, reach);
            && end.orders == map[]
            && Issuance(end.accounts) == Issuance(s.accounts)
            && forall a :: Reserved(end.accounts, a) == Slack(BooksOf(s), a)
  {
    AllCancelledIff(s, ds, reach);
    CancelAllIsRefundAll(s, ds, reach);
    LocalsIn(LocalDeals(s), ds);
    Drained(BooksOf(s), Locals(LocalDeals(s), ds));
    assert CancelAll(s, ds, reach).orders.Keys == {};
  }

  /** The client of the deal on d, if it is owed the penalty, has more than its own stake. */
  predicate OutlastsStake(b: Books, d: AccountId)
    requires d in b.open
  {
    var deal := b.open[d];
    deal.penalty == 0 || deal.client == d || Total(b.accounts, deal.client) > Stake(b.open, deal.client)
  }

  /** From every reachable state with all open orders overdue, the clients can cancel whichever and in whatever
      order if and only if every client that a local penalty is owed to has more than its own stake as a
      device, and the chains of the remote orders can be reached. */
  lemma RunsDrainIff(s0: Chain, calls: seq<Call>, reach: bool)
    requires Genesis(s0) && Overdue(Run(s0, calls))
    ensures var s := Run(s0, calls);
            (forall ds :: Lists(s.orders.Keys, ds) ==> AllCancelled(s, ds, reach)) <==>
            (forall d :: d in LocalDeals(s) ==> OutlastsStake(BooksOf(s), d)) && Reaches(s, reach)
  {
    var s := Run(s0, calls);
    Always(s0, calls);
    DrainIff(s, reach);
    forall d | d in LocalDeals(s) ensures AtRisk(BooksOf(s), LocalDeals(s)[d].client) ==
                                          Stake(LocalDeals(s), LocalDeals(s)[d].client) {
      StakeIsThere(BooksOf(s), LocalDeals(s)[d].client);
    }
  }

  /** Cancelling all orders leaves none and all the money, and on reserve what was there at first, and no more
      than that if and only if no call of the run has stranded money. */
  lemma RunsDrain(s0: Chain, calls: seq<Call>, ds: seq<AccountId>, reach: bool)
    requires Genesis(s0)
    requires var s := Run(s0, calls);
             Overdue(s) && Lists(s.orders.Keys, ds) && Covers(s.orders.Keys, ds) && AllCancelled(s, ds, reach)
    ensures var end := CancelAll(Run(s0, calls), ds, reach);
            && end.orders == map[]
            && Issuance(end.accounts) == Issuance(s0.accounts)
            && (forall a :: Reserved(end.accounts, a) >= Reserved(s0.accounts, a))
            && ((forall a :: Reserved(end.accounts, a) == Reserved(s0.accounts, a)) <==> NeverStrands(s0, calls))
  {
    Always(s0, calls);
    Backing(s0, calls);
    Conservation(s0, calls);
    DrainedDry(Run(s0, calls), ds, reach);
  }
}
