/** One escrow machine that both chains implement: a deal is opened, and later closed by paying the
    device or by refunding the client. The device's penalty goes back to it if the deal closes before
    its deadline, and to the client otherwise. */
module Escrow {
  import opened Common
  import opened Sums
  import opened Ledger

  datatype Deal = Deal(client: AccountId, fee: Balance, penalty: Balance, until: Moment)

  /** The open deals by device, and the free balances. What is on reserve is not state: it is what the
      open deals say. */
  datatype Vault = Vault(open: map<AccountId, Deal>, purse: map<AccountId, Balance>)

  datatype Move =
    | Stutter
    | Open(device: AccountId, deal: Deal)
    | ClosePaid(device: AccountId, late: bool)
    | CloseRefunded(device: AccountId, late: bool)

  function Purse(v: Vault, a: AccountId): Balance {
    if a in v.purse then v.purse[a] else 0
  }

  /** What account a has on reserve for the deal on device d. */
  function Share(d: AccountId, deal: Deal, a: AccountId): int {
    (if a == deal.client then deal.fee else 0) + (if a == d then deal.penalty else 0)
  }

  /** What a deal closed by payment puts into the purse of account a. */
  function PaidCredit(d: AccountId, deal: Deal, late: bool, a: AccountId): int {
    if late then (if a == d then deal.fee else 0) + (if a == deal.client then deal.penalty else 0)
    else if a == d then deal.fee + deal.penalty else 0
  }

  /** What a deal closed by refund puts into the purse of account a. */
  function RefundCredit(d: AccountId, deal: Deal, late: bool, a: AccountId): int {
    if late then if a == deal.client then deal.fee + deal.penalty else 0
    else (if a == deal.client then deal.fee else 0) + (if a == d then deal.penalty else 0)
  }

  /** Who is richer and who is poorer once a deal is over. */
  function PaidOutcome(d: AccountId, deal: Deal, late: bool, a: AccountId): int {
    PaidCredit(d, deal, late, a) - Share(d, deal, a)
  }

  function RefundOutcome(d: AccountId, deal: Deal, late: bool, a: AccountId): int {
    RefundCredit(d, deal, late, a) - Share(d, deal, a)
  }

  ghost predicate Next(v: Vault, step: Move, v': Vault) {
    match step
    case Stutter =>
      v'.open == v.open && forall a :: Purse(v', a) == Purse(v, a)
    case Open(d, deal) =>
      && d !in v.open
      && v'.open == v.open[d := deal]
      && forall a :: Purse(v', a) == Purse(v, a) - Share(d, deal, a)
    case ClosePaid(d, late) =>
      && d in v.open
      && v'.open == v.open - {d}
      && forall a :: Purse(v', a) == Purse(v, a) + PaidCredit(d, v.open[d], late, a)
    case CloseRefunded(d, late) =>
      && d in v.open
      && v'.open == v.open - {d}
      && forall a :: Purse(v', a) == Purse(v, a) + RefundCredit(d, v.open[d], late, a)
  }

  // ----- What the open deals require to be on reserve ------------------------------------------

  ghost function Shares(open: map<AccountId, Deal>, a: AccountId): map<nat, int> {
    map d | d in open :: Share(d, open[d], a)
  }

  ghost function Due(open: map<AccountId, Deal>, a: AccountId): int {
    Sum(Shares(open, a))
  }

  ghost function Worth(v: Vault, a: AccountId): int {
    Purse(v, a) + Due(v.open, a)
  }

  lemma DueOpen(open: map<AccountId, Deal>, d: AccountId, deal: Deal, a: AccountId)
    requires d !in open
    ensures Due(open[d := deal], a) == Due(open, a) + Share(d, deal, a)
  {
    SumUpdate(Shares(open, a), d, Share(d, deal, a));
    assert Shares(open[d := deal], a) == Shares(open, a)[d := Share(d, deal, a)];
  }

  lemma DueClose(open: map<AccountId, Deal>, d: AccountId, a: AccountId)
    requires d in open
    ensures Due(open - {d}, a) == Due(open, a) - Share(d, open[d], a)
    ensures Due(open, a) >= Share(d, open[d], a)
  {
    SumPick(Shares(open, a), d);
    assert Shares(open - {d}, a) == Shares(open, a) - {d};
    SumNonNegative(Shares(open, a) - {d});
  }

  /** What a step brings account a. */
  function Brought(v: Vault, step: Move, a: AccountId): int {
    match step
    case Stutter => 0
    case Open(_, _) => 0
    case ClosePaid(d, late) => if d in v.open then PaidOutcome(d, v.open[d], late, a) else 0
    case CloseRefunded(d, late) => if d in v.open then RefundOutcome(d, v.open[d], late, a) else 0
  }

  /** Opening a deal makes nobody poorer; closing one changes an account by that deal's outcome. */
  lemma WorthChange(v: Vault, step: Move, v': Vault, a: AccountId)
    requires Next(v, step, v')
    ensures Worth(v', a) == Worth(v, a) + Brought(v, step, a)
  {
    match step
    case Stutter =>
    case Open(d, deal) => DueOpen(v.open, d, deal, a);
    case ClosePaid(d, late) => DueClose(v.open, d, a);
    case CloseRefunded(d, late) => DueClose(v.open, d, a);
  }

  /** The outcomes in the plain terms of the fee and the penalty. */
  lemma Outcomes(d: AccountId, deal: Deal, late: bool)
    requires d != deal.client
    ensures PaidOutcome(d, deal, late, d) == if late then deal.fee - deal.penalty else deal.fee
    ensures PaidOutcome(d, deal, late, deal.client) == -PaidOutcome(d, deal, late, d)
    ensures RefundOutcome(d, deal, late, d) == if late then 0 - deal.penalty else 0
    ensures RefundOutcome(d, deal, late, deal.client) == -RefundOutcome(d, deal, late, d)
    ensures forall a :: a != d && a != deal.client ==>
              PaidOutcome(d, deal, late, a) == 0 && RefundOutcome(d, deal, late, a) == 0
  {
  }

  // ----- The same moves on a ledger ------------------------------------------------------------

  /** Fee and penalty go on reserve, as both pallets do it when an order is placed. */
  function Hold(l: Accounts, d: AccountId, client: AccountId, fee: Balance, penalty: Balance): Booking {
    if fee > Free(l, client) then Booking(l, Err(DeviceLowBail))
    else
      var first := Reserve(l, d, penalty);
      if first.out.Err? then first else Reserve(first.accounts, client, fee)
  }

  /** The fee goes from the payer's reserve to the device, the penalty back to the device or to the payer. */
  function Pay(l: Accounts, d: AccountId, payer: AccountId, fee: Balance, penalty: Balance, late: bool): Booking {
    var first := Repatriate(l, payer, d, fee);
    if first.out.Err? then first
    else if late then Repatriate(first.accounts, d, payer, penalty)
    else Booking(Unreserve(first.accounts, d, penalty), Ok)
  }

  /** The fee goes back to the account `who`, the penalty back to the device or to the order's client. */
  function Refund(l: Accounts, d: AccountId, who: AccountId, client: AccountId,
                  fee: Balance, penalty: Balance, late: bool): Booking {
    var l1 := Unreserve(l, who, fee);
    if late then Repatriate(l1, d, client, penalty)
    else Booking(Unreserve(l1, d, penalty), Ok)
  }

  /** The one way a Hold stops half-way: the device orders from itself and can cover the fee and the
      penalty each, but not both. */
  predicate Overcommitted(l: Accounts, d: AccountId, client: AccountId, fee: Balance, penalty: Balance) {
    && d == client
    && 0 < fee <= Free(l, d)
    && 0 < penalty <= Free(l, d)
    && fee + penalty > Free(l, d)
  }

  /** A device that has nothing at all cannot be credited the fee. */
  predicate DeviceGone(l: Accounts, d: AccountId, deal: Deal) {
    d != deal.client && deal.fee > 0 && !Exists(l, d)
  }

  /** A client that has nothing but the fee ceases to exist by paying it, and then cannot be credited
      the penalty of a late device. */
  predicate ClientGone(l: Accounts, d: AccountId, deal: Deal, late: bool) {
    late && d != deal.client && deal.penalty > 0 && Total(l, deal.client) <= deal.fee
  }

  ghost predicate Holds(l: Accounts, d: AccountId, deal: Deal) {
    forall a :: Reserved(l, a) >= Share(d, deal, a)
  }

  lemma HoldMoves(l: Accounts, d: AccountId, deal: Deal)
    requires Issuance(l) < U128
    ensures var b := Hold(l, d, deal.client, deal.fee, deal.penalty);
            && Issuance(b.accounts) == Issuance(l)
            && (b.out == Ok ==> forall a :: Free(b.accounts, a) == Free(l, a) - Share(d, deal, a)
                                         && Reserved(b.accounts, a) == Reserved(l, a) + Share(d, deal, a))
            && (Overcommitted(l, d, deal.client, deal.fee, deal.penalty) <==> b.out.Err? && b.accounts != l)
            && (b.out.Err? ==> forall a :: Reserved(b.accounts, a) >= Reserved(l, a)
                                        && (Reserved(b.accounts, a) != Reserved(l, a) ==> a == d)
                                        && Total(b.accounts, a) == Total(l, a))
  {
    if d == deal.client {
      OwnHoldMoves(l, d, deal);
    } else if deal.fee <= Free(l, deal.client) {
      var first := Reserve(l, d, deal.penalty);
      ReserveConserves(l, d, deal.penalty);
      if first.out == Ok {
        ReserveConserves(first.accounts, deal.client, deal.fee);
        IssuanceBoundsOne(first.accounts, deal.client);
      }
    }
  }

  lemma OwnHoldMoves(l: Accounts, d: AccountId, deal: Deal)
    requires Issuance(l) < U128 && deal.client == d
    ensures var b := Hold(l, d, d, deal.fee, deal.penalty);
            && Issuance(b.accounts) == Issuance(l)
            && (b.out == Ok ==> forall a :: Free(b.accounts, a) == Free(l, a) - Share(d, deal, a)
                                         && Reserved(b.accounts, a) == Reserved(l, a) + Share(d, deal, a))
            && (Overcommitted(l, d, d, deal.fee, deal.penalty) <==> b.out.Err? && b.accounts != l)
            && (b.out.Err? ==> forall a :: Reserved(b.accounts, a) >= Reserved(l, a)
                                        && (Reserved(b.accounts, a) != Reserved(l, a) ==> a == d)
                                        && Total(b.accounts, a) == Total(l, a))
  {
    if deal.fee <= Free(l, d) {
      var first := Reserve(l, d, deal.penalty);
      ReserveConserves(l, d, deal.penalty);
      if first.out == Ok {
        ReserveConserves(first.accounts, d, deal.fee);
        if deal.penalty > 0 {
          assert Free(first.accounts, d) == Free(l, d) - deal.penalty;
        }
      }
    }
  }

  lemma PayConserves(l: Accounts, d: AccountId, payer: AccountId, fee: Balance, penalty: Balance, late: bool)
    requires Issuance(l) < U128
    ensures Issuance(Pay(l, d, payer, fee, penalty, late).accounts) == Issuance(l)
  {
    var first := Repatriate(l, payer, d, fee);
    RepatriateConserves(l, payer, d, fee);
    RepatriateConserves(first.accounts, d, payer, penalty);
    UnreserveConserves(first.accounts, d, penalty);
  }

  lemma RefundConserves(l: Accounts, d: AccountId, who: AccountId, client: AccountId,
                        fee: Balance, penalty: Balance, late: bool)
    requires Issuance(l) < U128
    ensures Issuance(Refund(l, d, who, client, fee, penalty, late).accounts) == Issuance(l)
  {
    var l1 := Unreserve(l, who, fee);
    UnreserveConserves(l, who, fee);
    RepatriateConserves(l1, d, client, penalty);
    UnreserveConserves(l1, d, penalty);
  }

  /** A payment leaves alone whoever it does not name. */
  lemma PayOthers(l: Accounts, d: AccountId, payer: AccountId, fee: Balance, penalty: Balance, late: bool, a: AccountId)
    requires a != d && a != payer
    ensures Of(Pay(l, d, payer, fee, penalty, late).accounts, a) == Of(l, a)
  {
  }

  /** A payment with full reserves: it fails exactly if an account to be credited does not exist, and
      otherwise moves the whole fee and the whole penalty. A failure on the penalty keeps the fee moved. */
  lemma PayMoves(l: Accounts, d: AccountId, deal: Deal, late: bool)
    requires Issuance(l) < U128
    requires Holds(l, d, deal)
    ensures var b := Pay(l, d, deal.client, deal.fee, deal.penalty, late);
            && (b.out == Ok <==> !DeviceGone(l, d, deal) && !ClientGone(l, d, deal, late))
            && (b.out == Ok ==>
                  forall a :: Free(b.accounts, a) == Free(l, a) + PaidCredit(d, deal, late, a)
                           && Reserved(b.accounts, a) == Reserved(l, a) - Share(d, deal, a))
            && (b.out != Ok && DeviceGone(l, d, deal) ==> b == Booking(l, Err(DeadAccount)))
            && (b.out != Ok && !DeviceGone(l, d, deal) ==>
                  forall a :: Reserved(b.accounts, a) == Reserved(l, a) - (if a == deal.client then deal.fee else 0))
  {
    assert Reserved(l, d) >= Share(d, deal, d) && Reserved(l, deal.client) >= Share(d, deal, deal.client);
    var first := Repatriate(l, deal.client, d, deal.fee);
    RepatriateExactly(l, deal.client, d, deal.fee);
    RepatriateConserves(l, deal.client, d, deal.fee);
    if first.out == Ok {
      if late {
        RepatriateExactly(first.accounts, d, deal.client, deal.penalty);
      } else {
        UnreserveExactly(first.accounts, d, deal.penalty);
      }
    }
  }

  /** A refund with full reserves: it fails exactly if the penalty of a late device is owed to an account
      that does not exist, and then nothing has moved. */
  lemma RefundMoves(l: Accounts, d: AccountId, deal: Deal, late: bool)
    requires Issuance(l) < U128
    requires Holds(l, d, deal)
    ensures var b := Refund(l, d, deal.client, deal.client, deal.fee, deal.penalty, late);
            && (b.out == Ok <==> !(late && d != deal.client && deal.penalty > 0 && !Exists(l, deal.client)))
            && (b.out == Ok ==>
                  forall a :: Free(b.accounts, a) == Free(l, a) + RefundCredit(d, deal, late, a)
                           && Reserved(b.accounts, a) == Reserved(l, a) - Share(d, deal, a))
            && (b.out != Ok ==> b == Booking(l, Err(DeadAccount)))
  {
    assert Reserved(l, d) >= Share(d, deal, d) && Reserved(l, deal.client) >= Share(d, deal, deal.client);
    var l1 := Unreserve(l, deal.client, deal.fee);
    UnreserveExactly(l, deal.client, deal.fee);
    UnreserveConserves(l, deal.client, deal.fee);
    if late {
      RepatriateExactly(l1, d, deal.client, deal.penalty);
    } else {
      UnreserveExactly(l1, d, deal.penalty);
    }
  }

  // ----- The same moves whatever is on reserve -------------------------------------------------

  /** A payer that has nothing free and no more than the fee on reserve ceases to exist by paying a late
      device, and then cannot be credited the penalty: the one way a payment stops half-way. */
  predicate HalfPaid(l: Accounts, d: AccountId, payer: AccountId, fee: Balance, penalty: Balance, late: bool) {
    && late && penalty > 0
    && d != payer && Exists(l, d)
    && Free(l, payer) == 0 && 0 < Reserved(l, payer) <= fee
  }

  lemma HalfPaidWhenHeld(l: Accounts, d: AccountId, deal: Deal, late: bool)
    requires Holds(l, d, deal)
    ensures HalfPaid(l, d, deal.client, deal.fee, deal.penalty, late) <==>
            deal.fee > 0 && ClientGone(l, d, deal, late)
    ensures deal.fee > 0 && ClientGone(l, d, deal, late) ==> !DeviceGone(l, d, deal)
  {
    assert Reserved(l, d) >= Share(d, deal, d) && Reserved(l, deal.client) >= Share(d, deal, deal.client);
  }

  lemma PayTears(l: Accounts, d: AccountId, payer: AccountId, fee: Balance, penalty: Balance, late: bool)
    requires Issuance(l) < U128
    ensures var b := Pay(l, d, payer, fee, penalty, late);
            && (HalfPaid(l, d, payer, fee, penalty, late) <==> b.out.Err? && b.accounts != l)
            && (HalfPaid(l, d, payer, fee, penalty, late) ==>
                  forall a :: Free(b.accounts, a) == Free(l, a) + (if a == d then Reserved(l, payer) else 0)
                           && Reserved(b.accounts, a) == Reserved(l, a) - (if a == payer then Reserved(l, a) else 0))
  {
    RepatriateConserves(l, payer, d, fee);
    var first := Repatriate(l, payer, d, fee);
    RepatriateConserves(first.accounts, d, payer, penalty);
  }

  /** An account to be credited does not exist: the fee cannot go to the device, or the penalty of a late
      device to the payer. */
  predicate Uncreditable(l: Accounts, d: AccountId, payer: AccountId, fee: Balance, penalty: Balance, late: bool) {
    d != payer && ((fee > 0 && !Exists(l, d)) || (late && penalty > 0 && !Exists(l, payer)))
  }

  lemma PayFails(l: Accounts, d: AccountId, payer: AccountId, fee: Balance, penalty: Balance, late: bool)
    requires Issuance(l) < U128
    ensures var b := Pay(l, d, payer, fee, penalty, late);
            b.out.Err? && b.accounts == l <==> Uncreditable(l, d, payer, fee, penalty, late)
  {
    RepatriateConserves(l, payer, d, fee);
    var first := Repatriate(l, payer, d, fee);
    RepatriateConserves(first.accounts, d, payer, penalty);
  }

  /** A refund to an account that is not the client: the one way a refund stops half-way. */
  predicate Misrefunded(l: Accounts, d: AccountId, who: AccountId, client: AccountId,
                        fee: Balance, penalty: Balance, late: bool) {
    && late && penalty > 0
    && d != client && !Exists(l, client)
    && who != client && fee > 0 && Reserved(l, who) > 0
  }

  lemma RefundTears(l: Accounts, d: AccountId, who: AccountId, client: AccountId,
                    fee: Balance, penalty: Balance, late: bool)
    requires Issuance(l) < U128
    ensures var b := Refund(l, d, who, client, fee, penalty, late);
            Misrefunded(l, d, who, client, fee, penalty, late) <==> b.out.Err? && b.accounts != l
  {
    UnreserveConserves(l, who, fee);
    RepatriateConserves(Unreserve(l, who, fee), d, client, penalty);
  }

  /** A move takes from no reserve more than the deal's share in it. */
  lemma PayTakes(l: Accounts, d: AccountId, deal: Deal, late: bool)
    requires Issuance(l) < U128
    ensures var b := Pay(l, d, deal.client, deal.fee, deal.penalty, late);
            b.out == Ok ==> forall a :: Reserved(b.accounts, a) >= Reserved(l, a) - Share(d, deal, a)
  {
  }

  lemma RefundTakes(l: Accounts, d: AccountId, deal: Deal, late: bool)
    requires Issuance(l) < U128
    ensures var b := Refund(l, d, deal.client, deal.client, deal.fee, deal.penalty, late);
            b.out == Ok ==> forall a :: Reserved(b.accounts, a) >= Reserved(l, a) - Share(d, deal, a)
  {
  }

  /** A payment makes only the payer poorer, by the fee at most, or a late device, by the penalty at most;
      and what the one loses the other gains. */
  lemma PayShifts(l: Accounts, d: AccountId, payer: AccountId, fee: Balance, penalty: Balance, late: bool)
    requires Issuance(l) < U128
    ensures var b := Pay(l, d, payer, fee, penalty, late);
            && (forall a :: a != d && a != payer ==> Total(b.accounts, a) == Total(l, a))
            && (d == payer ==> Total(b.accounts, d) == Total(l, d))
            && Total(b.accounts, d) + Total(b.accounts, payer) == Total(l, d) + Total(l, payer)
            && Total(b.accounts, d) <= Total(l, d) + fee
            && Total(b.accounts, d) >= Total(l, d) - (if late then penalty else 0)
  {
    RepatriateConserves(l, payer, d, fee);
    RepatriateShifts(l, payer, d, fee);
    var first := Repatriate(l, payer, d, fee).accounts;
    RepatriateShifts(first, d, payer, penalty);
    UnreserveConserves(first, d, penalty);
  }

  /** A refund makes only a late device poorer, by the penalty at most, and only its client richer. */
  lemma RefundShifts(l: Accounts, d: AccountId, who: AccountId, client: AccountId,
                     fee: Balance, penalty: Balance, late: bool)
    requires Issuance(l) < U128
    ensures var b := Refund(l, d, who, client, fee, penalty, late);
            && (forall a :: a != d && a != client ==> Total(b.accounts, a) == Total(l, a))
            && (d == client || !late ==> forall a :: Total(b.accounts, a) == Total(l, a))
            && Total(b.accounts, d) + Total(b.accounts, client) == Total(l, d) + Total(l, client)
            && Total(l, d) - penalty <= Total(b.accounts, d) <= Total(l, d)
  {
    UnreserveConserves(l, who, fee);
    var l1 := Unreserve(l, who, fee);
    RepatriateShifts(l1, d, client, penalty);
    UnreserveConserves(l1, d, penalty);
  }

  /** A refund after the deadline fails exactly if the penalty is owed to an account that does not exist, and
      otherwise takes from the device's total the penalty, or what there is on reserve for it. */
  lemma LateRefunds(l: Accounts, d: AccountId, deal: Deal)
    requires Issuance(l) < U128
    ensures var b := Refund(l, d, deal.client, deal.client, deal.fee, deal.penalty, true);
            && (b.out == Ok <==> deal.penalty == 0 || deal.client == d || Exists(l, deal.client))
            && (b.out == Ok ==>
                  && Total(b.accounts, d) ==
                     Total(l, d) - (if deal.client == d then 0 else Min(Reserved(l, d), deal.penalty))
                  && (forall a :: a != d ==> Total(b.accounts, a) >= Total(l, a))
                  && (forall a :: Reserved(b.accounts, a) <= Reserved(l, a)))
  {
    UnreserveConserves(l, deal.client, deal.fee);
    var l1 := Unreserve(l, deal.client, deal.fee);
    RepatriateConserves(l1, d, deal.client, deal.penalty);
    if deal.client == d {
      UnreserveConserves(l1, d, deal.penalty);
    }
  }

  // ----- An account that has nothing -----------------------------------------------------------

  /** No move credits an account that does not exist. */
  lemma HoldKeepsGone(l: Accounts, c: AccountId, d: AccountId, client: AccountId, fee: Balance, penalty: Balance)
    requires !Exists(l, c)
    ensures !Exists(Hold(l, d, client, fee, penalty).accounts, c)
  {
    GoneStaysGone(l, c, d, client, penalty);
    GoneStaysGone(Reserve(l, d, penalty).accounts, c, client, d, fee);
  }

  lemma PayKeepsGone(l: Accounts, c: AccountId, d: AccountId, payer: AccountId,
                     fee: Balance, penalty: Balance, late: bool)
    requires !Exists(l, c)
    ensures !Exists(Pay(l, d, payer, fee, penalty, late).accounts, c)
  {
    GoneStaysGone(l, c, payer, d, fee);
    GoneStaysGone(Repatriate(l, payer, d, fee).accounts, c, d, payer, penalty);
  }

  lemma RefundKeepsGone(l: Accounts, c: AccountId, d: AccountId, who: AccountId, client: AccountId,
                        fee: Balance, penalty: Balance, late: bool)
    requires !Exists(l, c)
    ensures !Exists(Refund(l, d, who, client, fee, penalty, late).accounts, c)
  {
    GoneStaysGone(l, c, who, d, fee);
    GoneStaysGone(Unreserve(l, who, fee), c, d, client, penalty);
  }

  // ----- When a move succeeds, on any ledger ---------------------------------------------------

  /** Client and device can pay fee and penalty out of what is free, both of them if they are one account. */
  predicate Affordable(l: Accounts, d: AccountId, client: AccountId, fee: Balance, penalty: Balance) {
    if client == d then fee + penalty <= Free(l, d) else fee <= Free(l, client) && penalty <= Free(l, d)
  }

  /** Fee and penalty have gone from free to reserved, and nothing else has moved. */
  ghost predicate PutOnReserve(l: Accounts, l': Accounts, d: AccountId, client: AccountId,
                               fee: Balance, penalty: Balance) {
    forall a ::
      var part := (if a == client then fee else 0) + (if a == d then penalty else 0);
      Free(l', a) == Free(l, a) - part && Reserved(l', a) == Reserved(l, a) + part
  }

  lemma HoldIff(l: Accounts, d: AccountId, client: AccountId, fee: Balance, penalty: Balance)
    requires Issuance(l) < U128
    ensures var b := Hold(l, d, client, fee, penalty);
            && (b.out == Ok <==> Affordable(l, d, client, fee, penalty))
            && (b.out == Err(DeviceLowBail) <==> Free(l, client) < fee)
            && (b.out.Err? ==> b.out == Err(DeviceLowBail) || b.out == Err(InsufficientBalance))
            && (b.out == Ok ==> PutOnReserve(l, b.accounts, d, client, fee, penalty))
  {
    HoldMoves(l, d, Deal(client, fee, penalty, 0));
    ReserveConserves(l, d, penalty);
    ReserveConserves(Reserve(l, d, penalty).accounts, client, fee);
  }

  /** The fee has left the client's reserve for the account `earner`, and the penalty the device's reserve for the
      client if it is late, and for the device if not; nothing else has moved. */
  ghost predicate SettledFor(l: Accounts, l': Accounts, d: AccountId, client: AccountId, earner: AccountId,
                             fee: Balance, penalty: Balance, late: bool) {
    forall a ::
      && Reserved(l', a) == Reserved(l, a) - (if a == client then fee else 0) - (if a == d then penalty else 0)
      && Free(l', a) == Free(l, a) + (if a == earner then fee else 0)
                        + (if a == (if late then client else d) then penalty else 0)
  }

  lemma SettledInFull(l: Accounts, d: AccountId, deal: Deal, late: bool)
    requires Issuance(l) < U128 && Holds(l, d, deal)
    ensures var b := Refund(l, d, deal.client, deal.client, deal.fee, deal.penalty, late);
            b.out == Ok ==> SettledFor(l, b.accounts, d, deal.client, deal.client, deal.fee, deal.penalty, late)
    ensures var b := Pay(l, d, deal.client, deal.fee, deal.penalty, late);
            b.out == Ok ==> SettledFor(l, b.accounts, d, deal.client, d, deal.fee, deal.penalty, late)
  {
    RefundMoves(l, d, deal, late);
    PayMoves(l, d, deal, late);
  }

  /** A refund fails exactly if the penalty of a late device is owed to a client that does not exist; who gets
      the fee does not matter. */
  lemma RefundToIff(l: Accounts, d: AccountId, who: AccountId, client: AccountId,
                    fee: Balance, penalty: Balance, late: bool)
    requires Issuance(l) < U128
    ensures var b := Refund(l, d, who, client, fee, penalty, late);
            && (b.out == Ok <==> !late || penalty == 0 || client == d || Exists(l, client))
            && (b.out.Err? ==> b.out == Err(DeadAccount))
  {
    UnreserveConserves(l, who, fee);
    RepatriateConserves(Unreserve(l, who, fee), d, client, penalty);
  }

  /** Device and payer exist when it comes to crediting them, or are one account. */
  predicate CanPay(l: Accounts, d: AccountId, payer: AccountId, fee: Balance, penalty: Balance, late: bool) {
    || d == payer
    || ((fee == 0 || Exists(l, d)) && (!late || penalty == 0 || Total(l, payer) > Min(Reserved(l, payer), fee)))
  }

  lemma PayIff(l: Accounts, d: AccountId, payer: AccountId, fee: Balance, penalty: Balance, late: bool)
    requires Issuance(l) < U128
    ensures var b := Pay(l, d, payer, fee, penalty, late);
            && (b.out == Ok <==> CanPay(l, d, payer, fee, penalty, late))
            && (b.out.Err? ==> b.out == Err(DeadAccount))
  {
    RepatriateConserves(l, payer, d, fee);
    RepatriateConserves(Repatriate(l, payer, d, fee).accounts, d, payer, penalty);
  }
}
