/** The books of a chain: its balances beside its open deals, and what is on reserve for which deal. */
module Accounting {
  import opened Common
  import opened Ledger
  import opened Escrow

  datatype Books = Books(accounts: Accounts, open: map<AccountId, Deal>)

  function VaultOf(b: Books): Vault {
    Vault(b.open, map a | a in b.accounts :: b.accounts[a].free)
  }

  /** What is on reserve beyond what the open deals require. */
  ghost function Slack(b: Books, a: AccountId): int {
    Reserved(b.accounts, a) - Due(b.open, a)
  }

  ghost predicate Backed(b: Books) {
    forall a :: Slack(b, a) >= 0
  }

  /** A step of the escrow machine that leaves every account's slack alone. */
  ghost predicate Clean(b: Books, step: Move, b': Books) {
    Next(VaultOf(b), step, VaultOf(b')) && forall a :: Slack(b', a) == Slack(b, a)
  }

  lemma PurseIsFree(b: Books)
    ensures forall a :: Purse(VaultOf(b), a) == Free(b.accounts, a)
  {
  }

  lemma NothingOpen(b: Books)
    requires b.open == map[]
    ensures forall a :: Slack(b, a) == Reserved(b.accounts, a)
  {
    assert forall a :: Shares(map[], a) == map[];
  }

  /** An open deal is fully on reserve. */
  lemma DealHolds(b: Books, d: AccountId)
    requires Backed(b) && d in b.open
    ensures Holds(b.accounts, d, b.open[d])
  {
    forall a ensures Reserved(b.accounts, a) >= Share(d, b.open[d], a) {
      assert Slack(b, a) >= 0;
      DueClose(b.open, d, a);
    }
  }

  lemma Quiet(b: Books)
    ensures Clean(b, Stutter, b)
  {
  }

  lemma DealOpened(b: Books, b': Books, d: AccountId, deal: Deal)
    requires d !in b.open && b'.open == b.open[d := deal]
    requires forall a :: Free(b'.accounts, a) == Free(b.accounts, a) - Share(d, deal, a)
                      && Reserved(b'.accounts, a) == Reserved(b.accounts, a) + Share(d, deal, a)
    ensures Clean(b, Open(d, deal), b')
  {
    PurseIsFree(b);
    PurseIsFree(b');
    forall a ensures Slack(b', a) == Slack(b, a) {
      DueOpen(b.open, d, deal, a);
    }
  }

  function Close(d: AccountId, late: bool, paid: bool): Move {
    if paid then ClosePaid(d, late) else CloseRefunded(d, late)
  }

  function Credit(d: AccountId, deal: Deal, late: bool, paid: bool, a: AccountId): int {
    if paid then PaidCredit(d, deal, late, a) else RefundCredit(d, deal, late, a)
  }

  lemma DealClosed(b: Books, b': Books, d: AccountId, late: bool, paid: bool)
    requires d in b.open && b'.open == b.open - {d}
    requires var deal := b.open[d];
             forall a :: Free(b'.accounts, a) == Free(b.accounts, a) + Credit(d, deal, late, paid, a)
                      && Reserved(b'.accounts, a) == Reserved(b.accounts, a) - Share(d, deal, a)
    ensures Clean(b, Close(d, late, paid), b')
  {
    PurseIsFree(b);
    PurseIsFree(b');
    forall a ensures Slack(b', a) == Slack(b, a) {
      DueClose(b.open, d, a);
    }
  }

  /** A clean step changes what an account owns by what the step brings it. */
  lemma TotalChange(b: Books, step: Move, b': Books, a: AccountId)
    requires Clean(b, step, b')
    ensures Total(b'.accounts, a) == Total(b.accounts, a) + Brought(VaultOf(b), step, a)
  {
    WorthChange(VaultOf(b), step, VaultOf(b'), a);
    PurseIsFree(b);
    PurseIsFree(b');
    assert Worth(VaultOf(b), a) == Total(b.accounts, a) - Slack(b, a);
    assert Worth(VaultOf(b'), a) == Total(b'.accounts, a) - Slack(b', a);
  }

  /** No account has less slack than before, and some account has more. */
  ghost predicate Grown(b: Books, b': Books) {
    && (forall a :: Slack(b', a) >= Slack(b, a))
    && exists a :: Slack(b', a) > Slack(b, a)
  }

  /** Slack that is at least what was on reserve at first stays so, and stays exactly that only if it does
      not grow. */
  lemma MoreSlack(b: Books, b': Books, first: Accounts)
    requires forall a :: Slack(b, a) >= Reserved(first, a)
    requires Grown(b, b') || forall a :: Slack(b', a) == Slack(b, a)
    ensures forall a :: Slack(b', a) >= Reserved(first, a)
    ensures (forall a :: Slack(b', a) == Reserved(first, a)) <==>
            (forall a :: Slack(b, a) == Reserved(first, a)) && !Grown(b, b')
  {
    if Grown(b, b') {
      var a :| Slack(b', a) > Slack(b, a);
      assert Slack(b', a) > Reserved(first, a);
    }
  }

  // ----- What is no step of the escrow machine ---------------------------------------------------

  ghost predicate IsStep(b: Books, b': Books) {
    exists step :: Next(VaultOf(b), step, VaultOf(b'))
  }

  /** A purse changes although no deal is opened or closed. */
  lemma MovedForNothing(b: Books, b': Books, a: AccountId)
    requires b'.open == b.open && Free(b'.accounts, a) != Free(b.accounts, a)
    ensures !IsStep(b, b')
  {
    PurseIsFree(b);
    PurseIsFree(b');
    forall step ensures !Next(VaultOf(b), step, VaultOf(b')) {
      match step
      case Stutter => assert Purse(VaultOf(b'), a) != Purse(VaultOf(b), a);
      case Open(d, _) => assert d !in b.open ==> d !in b'.open;
      case ClosePaid(d, _) => assert d in b.open ==> d in b'.open;
      case CloseRefunded(d, _) => assert d in b.open ==> d in b'.open;
    }
  }

  /** A deal is gone, and what was on reserve for it has reached nobody in full. */
  lemma ClosedForLess(b: Books, b': Books, d: AccountId, feePaid: bool)
    requires d in b.open && b'.open == b.open - {d}
    requires var deal := b.open[d];
             && d != deal.client
             && (if feePaid then deal.penalty > 0 else deal.fee + deal.penalty > 0)
             && Free(b'.accounts, d) == Free(b.accounts, d) + (if feePaid then deal.fee else 0)
             && Free(b'.accounts, deal.client) == Free(b.accounts, deal.client)
    ensures !IsStep(b, b')
  {
    PurseIsFree(b);
    PurseIsFree(b');
    var c := b.open[d].client;
    forall step ensures !Next(VaultOf(b), step, VaultOf(b')) {
      assert Purse(VaultOf(b'), d) == Free(b'.accounts, d) && Purse(VaultOf(b'), c) == Free(b'.accounts, c);
      assert d in b.open && d !in b'.open;
    }
  }
}
