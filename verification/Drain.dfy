/** Cancelling one overdue deal after another, on the books of either chain. */
module Drain {
  import opened Common
  import opened Ledger
  import opened Escrow
  import opened Accounting

  /** The refund that an overdue cancel makes. */
  function LateRefund(b: Books, d: AccountId): Booking
    requires d in b.open
  {
    var deal := b.open[d];
    Refund(b.accounts, d, deal.client, deal.client, deal.fee, deal.penalty, true)
  }

  function Without(b: Books, d: AccountId): Books
    requires d in b.open
  {
    Books(LateRefund(b, d).accounts, b.open - {d})
  }

  /** The deals on the devices `ds`, cancelled in this order, are all refunded. */
  predicate AllRefunded(b: Books, ds: seq<AccountId>)
    decreases |ds|
  {
    ds != [] ==> ds[0] in b.open && LateRefund(b, ds[0]).out == Ok && AllRefunded(Without(b, ds[0]), ds[1..])
  }

  function AfterAll(b: Books, ds: seq<AccountId>): Books
    decreases |ds|
  {
    if ds == [] || ds[0] !in b.open then b else AfterAll(Without(b, ds[0]), ds[1..])
  }

  /** Devices out of `open`, each at most once. */
  ghost predicate Lists(open: set<AccountId>, ds: seq<AccountId>) {
    && (forall i :: 0 <= i < |ds| ==> ds[i] in open)
    && (forall i, j :: 0 <= i < j < |ds| ==> ds[i] != ds[j])
  }

  /** All of them. */
  ghost predicate Covers(open: set<AccountId>, ds: seq<AccountId>) {
    forall d :: d in open ==> d in ds
  }

  /** What account c stands to lose as a device if the client of the deal open on it cancels first. */
  function Stake(open: map<AccountId, Deal>, c: AccountId): Balance {
    if c in open && open[c].client != c then open[c].penalty else 0
  }

  /** Whoever is owed a penalty by another has something besides what can be taken from it as a device. */
  predicate Drainable(b: Books) {
    forall d :: d in b.open ==>
      var deal := b.open[d];
      deal.penalty == 0 || deal.client == d || Total(b.accounts, deal.client) > AtRisk(b, deal.client)
  }

  /** The stake, as far as it is there. */
  function AtRisk(b: Books, c: AccountId): int {
    Min(Reserved(b.accounts, c), Stake(b.open, c))
  }

  /** On backed books it is all there. */
  lemma StakeIsThere(b: Books, c: AccountId)
    requires Backed(b)
    ensures AtRisk(b, c) == Stake(b.open, c)
  {
    if c in b.open {
      DealHolds(b, c);
      assert Reserved(b.accounts, c) >= Share(c, b.open[c], c);
    }
  }

  lemma CancelMoves(b: Books, d: AccountId)
    requires Issuance(b.accounts) < U128 && d in b.open
    ensures LateRefund(b, d).out == Ok <==>
            b.open[d].penalty == 0 || b.open[d].client == d || Exists(b.accounts, b.open[d].client)
    ensures Issuance(Without(b, d).accounts) == Issuance(b.accounts)
  {
    var deal := b.open[d];
    LateRefunds(b.accounts, d, deal);
    RefundConserves(b.accounts, d, deal.client, deal.client, deal.fee, deal.penalty, true);
  }

  lemma CancelIsClean(b: Books, d: AccountId)
    requires Backed(b) && Issuance(b.accounts) < U128 && d in b.open && LateRefund(b, d).out == Ok
    ensures Clean(b, CloseRefunded(d, true), Without(b, d)) && Backed(Without(b, d))
  {
    DealHolds(b, d);
    RefundMoves(b.accounts, d, b.open[d], true);
    DealClosed(b, Without(b, d), d, true, false);
    forall a ensures Slack(Without(b, d), a) >= 0 {
      assert Slack(b, a) >= 0;
    }
  }

  lemma StaysDrainable(b: Books, d: AccountId)
    requires Issuance(b.accounts) < U128 && d in b.open && Drainable(b)
    ensures LateRefund(b, d).out == Ok && Drainable(Without(b, d))
  {
    CancelMoves(b, d);
    LateRefunds(b.accounts, d, b.open[d]);
    var b' := Without(b, d);
    forall x | x in b'.open && b'.open[x].penalty > 0 && b'.open[x].client != x
      ensures Total(b'.accounts, b'.open[x].client) > AtRisk(b', b'.open[x].client)
    {
      var c := b.open[x].client;
      assert Total(b.accounts, c) > AtRisk(b, c);
      if c == d {
        assert Stake(b'.open, c) == 0;
      }
    }
  }

  lemma {:induction false} DrainableDrains(b: Books, ds: seq<AccountId>)
    requires Issuance(b.accounts) < U128 && Drainable(b) && Lists(b.open.Keys, ds)
    ensures AllRefunded(b, ds)
    decreases |ds|
  {
    if ds == [] {
    } else {
      StaysDrainable(b, ds[0]);
      CancelMoves(b, ds[0]);
      forall i | 0 <= i < |ds| - 1 ensures ds[1..][i] in Without(b, ds[0]).open.Keys {
        assert ds[0] != ds[i + 1];
      }
      DrainableDrains(Without(b, ds[0]), ds[1..]);
    }
  }

  /** A client that is owed a penalty and has nothing besides what can be taken from it as a device fails to
      cancel, at the latest once that is taken. */
  lemma StakeLost(b: Books, d: AccountId) returns (ds: seq<AccountId>)
    requires Issuance(b.accounts) < U128 && d in b.open
    requires var deal := b.open[d];
             deal.penalty > 0 && deal.client != d && Total(b.accounts, deal.client) <= AtRisk(b, deal.client)
    ensures Lists(b.open.Keys, ds) && !AllRefunded(b, ds)
  {
    var c := b.open[d].client;
    CancelMoves(b, d);
    if !Exists(b.accounts, c) {
      ds := [d];
    } else {
      ds := [c, d];
      CancelMoves(b, c);
      LateRefunds(b.accounts, c, b.open[c]);
      if LateRefund(b, c).out == Ok {
        CancelMoves(Without(b, c), d);
        assert ds[1..] == [d];
      }
    }
  }

  /** The overdue deals can be cancelled, whichever and in whatever order, if and only if whoever is owed a
      penalty by another has something besides what can be taken from it as a device. */
  lemma DrainIff(b: Books)
    requires Issuance(b.accounts) < U128
    ensures (forall ds :: Lists(b.open.Keys, ds) ==> AllRefunded(b, ds)) <==> Drainable(b)
  {
    if Drainable(b) {
      forall ds | Lists(b.open.Keys, ds) ensures AllRefunded(b, ds) {
        DrainableDrains(b, ds);
      }
    } else {
      var d :| d in b.open && b.open[d].penalty > 0 && b.open[d].client != d
               && Total(b.accounts, b.open[d].client) <= AtRisk(b, b.open[d].client);
      var ds := StakeLost(b, d);
    }
  }

  /** Refunding all open deals loses no money, and leaves on reserve, if the books were backed, what was there
      for none. */
  lemma {:induction false} Drained(b: Books, ds: seq<AccountId>)
    requires Issuance(b.accounts) < U128
    requires AllRefunded(b, ds) && Covers(b.open.Keys, ds)
    ensures AfterAll(b, ds).open == map[]
    ensures Issuance(AfterAll(b, ds).accounts) == Issuance(b.accounts)
    ensures Backed(b) ==> forall a :: Reserved(AfterAll(b, ds).accounts, a) == Slack(b, a)
    decreases |ds|
  {
    if ds == [] {
      assert forall d :: d !in b.open;
      NothingOpen(b);
    } else {
      CancelMoves(b, ds[0]);
      if Backed(b) {
        CancelIsClean(b, ds[0]);
      }
      Drained(Without(b, ds[0]), ds[1..]);
    }
  }

  // ----- Some order of cancelling ------------------------------------------------------------------

  /** Cancelling the deal on device d takes a penalty from d for account c. */
  predicate Owes(open: map<AccountId, Deal>, d: AccountId, c: AccountId) {
    d in open && open[d].client == c && c != d && open[d].penalty > 0
  }

  /** Whoever is owed a penalty exists. */
  ghost predicate Creditable(b: Books) {
    forall d :: d in b.open && Owes(b.open, d, b.open[d].client) ==> Exists(b.accounts, b.open[d].client)
  }

  /** Account c has nothing but its stake as a device. */
  predicate Fragile(b: Books, c: AccountId) {
    0 < Stake(b.open, c) == Total(b.accounts, c)
  }

  /** Each of these devices ruins itself by the cancel of its deal while another of them owes it a penalty,
      and only these owe it any: whichever is cancelled first leaves a client that cannot be credited. */
  ghost predicate Locked(b: Books, ring: set<AccountId>) {
    forall c {:trigger LockedAt(b, ring, c)} :: c in ring ==> LockedAt(b, ring, c)
  }

  ghost predicate LockedAt(b: Books, ring: set<AccountId>, c: AccountId) {
    && Fragile(b, c)
    && (exists d :: d in ring && Owes(b.open, d, c))
    && (forall d :: Owes(b.open, d, c) ==> d in ring)
  }

  ghost predicate Unlocked(b: Books) {
    Creditable(b) && forall ring :: ring != {} ==> !Locked(b, ring)
  }

  lemma StaysBacked(b: Books, d: AccountId)
    requires Backed(b) && Issuance(b.accounts) < U128 && d in b.open && LateRefund(b, d).out == Ok
    ensures Backed(Without(b, d)) && Issuance(Without(b, d).accounts) == Issuance(b.accounts)
  {
    CancelMoves(b, d);
    CancelIsClean(b, d);
  }

  lemma Refunded(b: Books, d: AccountId)
    requires Backed(b) && Issuance(b.accounts) < U128 && d in b.open && LateRefund(b, d).out == Ok
    ensures Backed(Without(b, d)) && Issuance(Without(b, d).accounts) == Issuance(b.accounts)
    ensures forall a :: Total(Without(b, d).accounts, a) ==
              Total(b.accounts, a) + (if Owes(b.open, d, a) then b.open[d].penalty else 0)
                                   - (if a == d then Stake(b.open, d) else 0)
  {
    CancelMoves(b, d);
    CancelIsClean(b, d);
    forall a ensures Total(Without(b, d).accounts, a) ==
               Total(b.accounts, a) + (if Owes(b.open, d, a) then b.open[d].penalty else 0)
                                    - (if a == d then Stake(b.open, d) else 0)
    {
      TotalChange(b, CloseRefunded(d, true), Without(b, d), a);
    }
  }

  /** A client without anything never gets anything from those that owe it a penalty, on any books. */
  lemma {:induction false} RuinedIsOwed(b: Books, ds: seq<AccountId>, d: AccountId)
    requires Issuance(b.accounts) < U128 && AllRefunded(b, ds)
    requires d in b.open && Owes(b.open, d, b.open[d].client) && !Exists(b.accounts, b.open[d].client)
    ensures d !in ds
    decreases |ds|
  {
    if ds == [] {
    } else {
      var deal := b.open[ds[0]];
      CancelMoves(b, ds[0]);
      CancelMoves(b, d);
      RefundKeepsGone(b.accounts, b.open[d].client, ds[0], deal.client, deal.client, deal.fee, deal.penalty, true);
      RuinedIsOwed(Without(b, ds[0]), ds[1..], d);
    }
  }

  lemma OwesLess(open: map<AccountId, Deal>, d: AccountId, x: AccountId, c: AccountId)
    ensures Owes(open - {d}, x, c) <==> x != d && Owes(open, x, c)
  {
  }

  lemma LockedAtStays(b: Books, first: AccountId, ring: set<AccountId>, c: AccountId)
    requires Backed(b) && Issuance(b.accounts) < U128 && first in b.open && LateRefund(b, first).out == Ok
    requires first !in ring && c in ring && LockedAt(b, ring, c)
    ensures LockedAt(Without(b, first), ring, c)
  {
    Refunded(b, first);
    assert !Owes(b.open, first, c);
    forall x ensures Owes(Without(b, first).open, x, c) <==> Owes(b.open, x, c) {
      OwesLess(b.open, first, x, c);
    }
  }

  lemma RingStays(b: Books, first: AccountId, ring: set<AccountId>)
    requires Backed(b) && Issuance(b.accounts) < U128 && first in b.open && LateRefund(b, first).out == Ok
    requires first !in ring && Locked(b, ring)
    ensures Locked(Without(b, first), ring)
  {
    forall c | c in ring ensures LockedAt(Without(b, first), ring, c) {
      LockedAtStays(b, first, ring, c);
    }
  }

  /** The first of the ring is ruined, and another still owes it a penalty. */
  lemma RingBroken(b: Books, first: AccountId, ring: set<AccountId>) returns (d: AccountId)
    requires Backed(b) && Issuance(b.accounts) < U128 && first in b.open && LateRefund(b, first).out == Ok
    requires first in ring && LockedAt(b, ring, first)
    ensures d in Without(b, first).open && Without(b, first).open[d].client == first
    ensures Owes(Without(b, first).open, d, first) && !Exists(Without(b, first).accounts, first)
  {
    d :| d in ring && Owes(b.open, d, first);
    OwesLess(b.open, first, d, first);
    Refunded(b, first);
  }

  lemma RingHit(b: Books, ds: seq<AccountId>, ring: set<AccountId>) returns (d: AccountId)
    requires Backed(b) && Issuance(b.accounts) < U128 && ds != [] && AllRefunded(b, ds)
    requires ds[0] in ring && LockedAt(b, ring, ds[0])
    ensures d in b.open && d !in ds
  {
    d := RingBroken(b, ds[0], ring);
    Refunded(b, ds[0]);
    RuinedIsOwed(Without(b, ds[0]), ds[1..], d);
  }

  lemma RingMissed(b: Books, ds: seq<AccountId>, ring: set<AccountId>) returns (b': Books)
    requires Backed(b) && Issuance(b.accounts) < U128 && ds != [] && AllRefunded(b, ds)
    requires ds[0] !in ring && Locked(b, ring)
    ensures b'.open == b.open - {ds[0]} && AllRefunded(b', ds[1..])
    ensures Backed(b') && Issuance(b'.accounts) < U128 && Locked(b', ring)
  {
    b' := Without(b, ds[0]);
    StaysBacked(b, ds[0]);
    RingStays(b, ds[0], ring);
  }

  /** Cancels that all succeed leave out a device of a locked ring. */
  lemma {:induction false} LockedStays(b: Books, ds: seq<AccountId>, ring: set<AccountId>)
    requires Backed(b) && Issuance(b.accounts) < U128 && AllRefunded(b, ds)
    requires ring != {} && Locked(b, ring)
    ensures exists d :: d in b.open && d !in ds
    decreases |ds|
  {
    if ds == [] {
      var d :| d in ring;
      assert LockedAt(b, ring, d);
    } else if ds[0] in ring {
      var d := RingHit(b, ds, ring);
    } else {
      var b' := RingMissed(b, ds, ring);
      LockedStays(b', ds[1..], ring);
      var d :| d in b'.open && d !in ds[1..];
      assert d in b.open && d !in ds;
    }
  }

  /** A device that can be cancelled first: nobody owes it a penalty, or it has more than its stake. */
  lemma HarmlessOne(b: Books) returns (d: AccountId)
    requires Unlocked(b) && b.open != map[]
    ensures d in b.open && !(Fragile(b, d) && exists x :: Owes(b.open, x, d))
  {
    var all := b.open.Keys;
    assert all != {} && !Locked(b, all);
    d :| d in all && !LockedAt(b, all, d);
    assert forall x :: Owes(b.open, x, d) ==> x in all;
  }

  lemma StakeIsCovered(b: Books, c: AccountId)
    requires Backed(b)
    ensures Total(b.accounts, c) >= Stake(b.open, c)
  {
    StakeIsThere(b, c);
  }

  lemma StaysUnlocked(b: Books, d: AccountId)
    requires Backed(b) && Issuance(b.accounts) < U128 && Unlocked(b)
    requires d in b.open && !(Fragile(b, d) && exists x :: Owes(b.open, x, d))
    ensures LateRefund(b, d).out == Ok && Unlocked(Without(b, d))
  {
    CancelMoves(b, d);
    Refunded(b, d);
    var b' := Without(b, d);
    forall x | x in b'.open && Owes(b'.open, x, b'.open[x].client) ensures Exists(b'.accounts, b'.open[x].client) {
      assert Owes(b.open, x, b.open[x].client);
      StakeIsCovered(b, d);
    }
    forall ring | ring != {} ensures !Locked(b', ring) {
      if Locked(b', ring) {
        LockedBefore(b, d, ring);
      }
    }
  }

  lemma LockedBefore(b: Books, d: AccountId, ring: set<AccountId>)
    requires Backed(b) && Issuance(b.accounts) < U128 && d in b.open && LateRefund(b, d).out == Ok
    requires Locked(Without(b, d), ring)
    ensures Locked(b, ring)
  {
    forall c | c in ring ensures LockedAt(b, ring, c) {
      LockedAtBefore(b, d, ring, c);
    }
  }

  lemma LockedAtBefore(b: Books, d: AccountId, ring: set<AccountId>, c: AccountId)
    requires Backed(b) && Issuance(b.accounts) < U128 && d in b.open && LateRefund(b, d).out == Ok
    requires LockedAt(Without(b, d), ring, c)
    ensures LockedAt(b, ring, c)
  {
    Refunded(b, d);
    StakeIsCovered(b, c);
    assert !Owes(b.open, d, c);
    forall x ensures Owes(Without(b, d).open, x, c) <==> Owes(b.open, x, c) {
      OwesLess(b.open, d, x, c);
    }
  }

  lemma OneBefore(open: set<AccountId>, d: AccountId, rest: seq<AccountId>)
    requires d in open && Lists(open - {d}, rest) && Covers(open - {d}, rest)
    ensures Lists(open, [d] + rest) && Covers(open, [d] + rest)
  {
    forall x | x in open ensures x in [d] + rest {
      assert x != d ==> x in open - {d};
    }
  }

  lemma CancelHarmless(b: Books) returns (d: AccountId, b': Books)
    requires Backed(b) && Issuance(b.accounts) < U128 && Unlocked(b) && b.open != map[]
    ensures d in b.open && LateRefund(b, d).out == Ok && b' == Without(b, d)
    ensures Backed(b') && Issuance(b'.accounts) < U128 && Unlocked(b')
  {
    d := HarmlessOne(b);
    b' := Without(b, d);
    StaysUnlocked(b, d);
    StaysBacked(b, d);
  }

  lemma {:induction false} UnlockedDrains(b: Books) returns (ds: seq<AccountId>)
    requires Backed(b) && Issuance(b.accounts) < U128 && Unlocked(b)
    ensures Lists(b.open.Keys, ds) && Covers(b.open.Keys, ds) && AllRefunded(b, ds)
    decreases |b.open|
  {
    if b.open == map[] {
      ds := [];
    } else {
      var d, b' := CancelHarmless(b);
      assert |b'.open| < |b.open|;
      var rest := UnlockedDrains(b');
      ds := [d] + rest;
      assert ds[1..] == rest;
      OneBefore(b.open.Keys, d, rest);
    }
  }

  /** On books that are backed, or on which somebody who is owed a penalty does not exist, the overdue deals can
      be cancelled in some order if and only if whoever is owed a penalty exists, and no ring of devices is
      locked. */
  lemma SomeOrderIff(b: Books)
    requires Issuance(b.accounts) < U128
    requires Backed(b) || !Creditable(b)
    ensures (exists ds :: Lists(b.open.Keys, ds) && Covers(b.open.Keys, ds) && AllRefunded(b, ds)) <==> Unlocked(b)
  {
    if Unlocked(b) {
      var ds := UnlockedDrains(b);
    } else {
      forall ds | Covers(b.open.Keys, ds) ensures !AllRefunded(b, ds) {
        if AllRefunded(b, ds) {
          LeavesNone(b, ds);
        }
      }
    }
  }

  /** Cancels that all succeed need every client to exist, and no ring to be locked. */
  lemma LeavesNone(b: Books, ds: seq<AccountId>)
    requires Issuance(b.accounts) < U128 && AllRefunded(b, ds) && Covers(b.open.Keys, ds)
    ensures Creditable(b) && (Backed(b) ==> Unlocked(b))
  {
    forall d | d in b.open && Owes(b.open, d, b.open[d].client) ensures Exists(b.accounts, b.open[d].client) {
      if !Exists(b.accounts, b.open[d].client) {
        RuinedIsOwed(b, ds, d);
      }
    }
    if Backed(b) {
      forall ring | ring != {} ensures !Locked(b, ring) {
        if Locked(b, ring) {
          LockedStays(b, ds, ring);
        }
      }
    }
  }
}
