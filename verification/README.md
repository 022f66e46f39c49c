# Orders and escrow between a client chain and a service chain

A client hires a device. The client's fee and the device's penalty go on reserve. The order ends completed,
rejected or cancelled, and the outcome together with the deadline decides who gets which reserve. The service
pallet runs the device's state machine (Off, Ready, Busy, Busy2) and settles local orders on its own ledger.
The client pallet keeps the escrow for orders that a device serves on another chain: it sends `NewOrder` and
settles when `OrderReject` or `OrderDone` arrives, or when the client cancels after the deadline.

The project models both pallets as classes that work on their storage step by step, and proves every call,
on every input, equal to a function on the state of the chain. All further statements are about these
functions. They are total: every error exit is there, and an error keeps the writes made before it, because no
dispatchable is transactional.

* `Common`, `Sums`, `Ledger`: the shared records and messages, sums over maps, and the balances of a chain.
* `Escrow`: one small machine (open, close paid, close refunded) that both ledgers implement, and the
  three moves of money that both pallets make, with the exact conditions under which they fail.
* `Accounting`: a ledger beside its open deals, what makes it backed, and what is no step of the machine.
* `Drain`: cancelling one overdue deal after another, on any such ledger.
* `Service`, `ServicePallet`, `ServiceCalls`, `ServiceLog`, `ServiceLedger`, `ServiceTheorems`, `ServiceHistory`,
  `ServiceDrain`, `ServiceLife`: the service chain.
* `Client`, `ClientPallet`, `ClientCalls`, `ClientLedger`, `ClientTheorems`, `ClientDrain`: the client chain.
* `World`, `WorldProtocol`, `WorldTheorems`, `WorldOutcome`, `WorldRuin`, `WorldClosing`, `WorldMoney`,
  `WorldPayments`, `WorldTerms`, `WorldRestraint`, `WorldLife`: both chains, the messages in transit, and two clocks.
* `Counterexamples`: short runs that show why the conditions in the theorems are there.

## Numbers, balances and accounts

Moments are u64 and balances u128. The sum `now + wcd` wraps around, as in the release build (the workspace
does not turn overflow checks on). Crediting is checked or saturating as the balances pallet does it; that
money is never lost or a credit refused is proved from the issuance fitting u128 at genesis. `reserve` fails
without change if too little is free; `unreserve` and `repatriate_reserved` move at most what is reserved, and
`repatriate_reserved` refuses an account that does not exist. An account exists as long as it has anything,
free or reserved. Both pallets ignore a shortfall, so every settlement is right only because of the backing
invariant: what is on reserve covers what the open orders require. `Slack` is what is on reserve beyond that.

The service log keeps each event together with the time, the order and the penalty at that moment, and whether
a client's cancel caused it. The events that the pallet itself deposits are its projection.

## What the environment is taken to do

* The two parachain ids differ. Messages between the two chains are neither forged nor doubled; they may be
  lost and may overtake one another, and any send may fail. Other chains may send orders to the service chain.
  Nobody but the service chain sends messages to the client chain: its pallet does not look at the sender.
* The callback answers Busy, Busy2 or nothing, as its debug assertion demands.
* Hypothesis H, for the results about both chains: the client pallet admits a device's `register` only when
  no `NewOrder`, `OrderReject` or `OrderDone` that names it is in transit and the service chain holds no
  order for it from the client chain. The pallet's own guard is only that it holds no open order.
  `RegistrationIff` shows that H is exactly what keeps the protocol, `HarmIff` when a registration against it
  can do harm, and `WithoutRestraint` a run in which it does.

## Where the code does less than one would hope

* An error is not always without trace. `Torn` names exactly the calls of the service pallet for which it is
  not: an order of a device from itself that it can only half cover, a completion whose message cannot be sent,
  and a local completion that is to credit an account without anything. The first and the last strand money,
  and exactly these are no steps of the escrow machine (`StrandsIff`).
* On the client chain a late completion for a client that has nothing but the fee moves the fee and then
  fails; the order stays open with no fee behind it (`HalfPays`). This is the only faithful message or call
  that breaks the backing (`InvKeptIff`, `BackedIff`); it counts as a payment wherever payments are spoken of.
  That order can never be closed again (`RuinedForGood`), but it is the only one for which anybody's reserve
  falls short (`ConfinedAlways`), so everything else goes on as before, and the results about all runs under H
  are about these runs too.
* Overdue orders cannot always be cancelled. A client that a penalty is owed to must exist to be credited, and it
  may have lost its last money as a device itself: `DrainIff` gives the exact condition on each chain,
  `OrderMatters` and `PennilessCannotCancel` runs that miss it. `SomeOrderIff` gives the exact condition for
  some order of cancelling to work, `NoOrderWorks` a run after which none does.
* Completed work is not paid if the client has cancelled in the meantime, or if an account to be credited does
  not exist; under H it is paid otherwise, in full or half (`WorkIsPaid`).
* The check that an order leaves the device its whole work cycle holds if and only if `now + wcd` does not
  wrap around (`FullWorkCycle`, `PlacedOnTerms`, `PlacedAt`).

## Model

| member | source | states |
|---|---|---|
| Ledger.Balances.CanReserve | pallets/service/src/lib.rs:347-349 | true exactly if a reservation would not fail for want of free balance |
| Ledger.Balances.TryReserve | pallets/service/src/lib.rs:350-351 | moves the value from free to reserved, or fails and changes nothing |
| Ledger.Balances.Release | pallets/service/src/lib.rs:442-444 | moves at most what is reserved back to free and returns the shortfall |
| Ledger.Balances.TryRepatriate | pallets/service/src/lib.rs:383-388 | moves at most what is reserved to the other's free balance; fails and changes nothing if that account does not exist |
| Ledger.ReserveConserves | pallets/service/src/lib.rs:350-351 | a reservation conserves the issuance and cannot overflow while the issuance fits u128 |
| Ledger.UnreserveConserves | pallets/service/src/lib.rs:442-444 | releasing conserves the issuance: the saturating credit never saturates |
| Ledger.RepatriateConserves | pallets/service/src/lib.rs:383-388 | repatriating conserves the issuance and never fails by overflow |
| Ledger.ReserveIff | pallets/service/src/lib.rs:350-351 | for any value, a reservation succeeds exactly if so much is free, and what it then leaves |
| Ledger.UnreserveExactly | pallets/service/src/lib.rs:442-444 | for any value, exactly what releasing leaves: it moves what is asked or all that is reserved |
| Ledger.RepatriateExactly | pallets/service/src/lib.rs:383-388 | for any value, repatriating to another account fails exactly if that account does not exist, and else moves what is asked or all that is reserved |
| Escrow.HoldMoves | pallets/service/src/lib.rs:346-352 | placing an order takes fee and penalty from free to reserved; a failure leaves a trace exactly if the device orders from itself beyond its means |
| Escrow.HoldIff | pallets/service/src/lib.rs:346-352 | a placement can be paid for exactly if client and device have free what each owes, or one account both; which error it gives otherwise; what it leaves |
| Escrow.PayMoves | pallets/service/src/lib.rs:382-389 | with full reserves a payment fails exactly if an account to be credited does not exist, and else moves the whole fee and the whole penalty to where the deadline says; what a failure keeps |
| Escrow.PayTears | pallets/service/src/lib.rs:382-389 | whatever is on reserve, a failed payment leaves a trace exactly if it takes all that the payer has for a late device and then owes the payer the penalty; what it has then moved |
| Escrow.PayFails | pallets/service/src/lib.rs:382-389 | whatever is on reserve, a payment fails without a trace exactly if the device to be paid a fee, or the payer owed a late device's penalty, does not exist |
| Escrow.PayIff | pallets/service/src/lib.rs:382-389 | on any ledger, a payment succeeds exactly if device and payer still exist when they are credited, or are one account |
| Escrow.RefundMoves | pallets/service/src/lib.rs:441-447 | with full reserves a refund fails exactly if a late device's penalty is owed to an account that does not exist, and then changes nothing; else it moves everything |
| Escrow.RefundTears | pallets/client/src/lib.rs:326-332 | whatever is on reserve, a failed refund leaves a trace exactly if it frees the reserve of an account that is not the client and then finds the client without anything |
| Escrow.SettledInFull | pallets/service/src/lib.rs:441-447 | with full reserves, fee and penalty go each from its reserve to the account that outcome and deadline say, and nothing else moves |
| Escrow.PayShifts | pallets/client/src/lib.rs:299-305 | a payment makes only the payer poorer, by the fee at most, or a late device, by the penalty at most; one gains what the other loses |
| Escrow.LateRefunds | pallets/client/src/lib.rs:326-332 | whatever is on reserve, a late refund to the client fails exactly if a penalty is owed to a client without anything, and else takes from the device what there is of the penalty and makes nobody else poorer |
| Escrow.WorthChange | pallets/service/src/lib.rs:382-389 | a step of the escrow machine changes what an account owns by the outcome of the deal it closes, and by nothing else |
| Escrow.Outcomes | pallets/service/src/tests.rs:280-412 | the outcomes in figures: on time fee against nothing, late fee less penalty, refund on time nothing, late the penalty; what one side gains the other loses and nobody else is touched |
| Accounting.TotalChange | pallets/service/src/lib.rs:382-389 | a step of the escrow machine that leaves the slack alone changes what an account has, free and reserved, by the outcome of the deal it closes |
| Drain.DrainIff | pallets/service/src/lib.rs:441-447 | on any ledger, backed or not, overdue deals can be refunded, whichever and in whatever order, if and only if every client owed a penalty by another has more than what can be taken from it as a device |
| Drain.SomeOrderIff | pallets/service/src/lib.rs:441-447 | on a ledger that is backed, or on which a client owed a penalty does not exist, there is an order in which all overdue deals can be refunded if and only if every client owed a penalty by another exists, and no ring of devices is locked: each with nothing but its stake, owed a penalty, and owed penalties only from within the ring |
| Drain.Drained | pallets/service/src/lib.rs:441-447 | refunding all deals loses no money, and leaves on a backed ledger exactly the reserves that were there for no deal |
| ServicePallet.Pallet.constructor | pallets/service/src/lib.rs:125-149 | a new pallet has no devices, orders or events |
| ServicePallet.Pallet.Dispatch | pallets/service/src/lib.rs:182-318 | every call keeps the invariant of the chain, is a step of the escrow machine, and on an error changes nothing unless it is torn |
| ServicePallet.Pallet.PlaceOrder | pallets/service/src/lib.rs:185-202 | does to chain, events and messages what the specification of the call says |
| ServicePallet.Pallet.Cancel | pallets/service/src/lib.rs:205-219 | the same for a client's cancel, which leaves the device's state alone |
| ServicePallet.Pallet.Accept | pallets/service/src/lib.rs:222-252 | the same for the device's acceptance or rejection |
| ServicePallet.Pallet.Done | pallets/service/src/lib.rs:255-268 | the same for completion, the order being taken out before anything can fail |
| ServicePallet.Pallet.Register | pallets/service/src/lib.rs:271-298 | the same for registering, refused while an order is open |
| ServicePallet.Pallet.SetState | pallets/service/src/lib.rs:301-317 | the same for switching a device on or off |
| ServicePallet.Pallet.OrderReceived | pallets/service/src/lib.rs:322-363 | all checks in their order, the reservations, and the immediate acceptance if the callback asks for it |
| ServicePallet.Pallet.OrderDone | pallets/service/src/lib.rs:365-405 | payment or message, with the writes that precede an error kept |
| ServicePallet.Pallet.OrderAccept | pallets/service/src/lib.rs:407-429 | the device becomes Busy2; a message that cannot be sent is no error |
| ServicePallet.Pallet.OrderReject | pallets/service/src/lib.rs:431-467 | refund or message, then the order is removed; the order may be absent |
| ServicePallet.Pallet.HandleBlobMessage | pallets/service/src/lib.rs:500-538 | a new order is filed under the sending chain; other messages change nothing; the result is dropped |
| ServiceCalls.PlacementIff | pallets/service/src/lib.rs:322-363 | a local order is taken if and only if the clock is before its deadline, the device is Ready without an order, the deadline is not before the wrapped sum of clock and work cycle, the callback answers, and client and device can afford it; the whole storage, log, money and message after it; every error and when it is given |
| ServiceCalls.ArrivalIff | pallets/service/src/lib.rs:322-363 | the same for an order from another chain, which asks for no money; what is sent if it is accepted at once |
| ServiceCalls.AcceptIff | pallets/service/src/lib.rs:222-251 | a device can accept if and only if it is Busy with an order whose deadline is to come; it is then Busy2 and nothing else changes but the log; the message, and every error |
| ServiceCalls.RejectIff | pallets/service/src/lib.rs:230-240 | a device can reject if and only if it is Busy or Busy2 and its order, if any, can be refunded or its chain told; the whole storage, log, money and message with the flag given; every error |
| ServiceCalls.CancelIff | pallets/service/src/lib.rs:205-219 | who can cancel and when, with the device left as it was and the flag of the message off; every error |
| ServiceCalls.DoneIff | pallets/service/src/lib.rs:255-268 | a device can complete if and only if it is Busy2 with an order and the accounts to be credited exist or the order's chain can be told; the whole storage, log, money and message with the flag given, and what an error leaves; every error |
| ServiceCalls.RegisterIff | pallets/service/src/lib.rs:271-298 | a device without an order can register; the profile, state and event it then has |
| ServiceCalls.SetStateIff | pallets/service/src/lib.rs:301-317 | a device can be switched on if it is off, and off if it is Ready or off, and nothing else changes |
| ServiceLog.ShapeKept | pallets/service/src/lib.rs:185-363 | every call, failing or not, keeps storage and log together: an open order stands on a busy device, and the log tells which order, placed when and accepted when |
| ServiceLog.AtMostOnce | pallets/service/src/lib.rs:222-268 | what an unbroken log excludes between two orders of a device |
| ServiceLog.CompletedWasAccepted | pallets/service/src/lib.rs:241-268 | a completion on the log has before it the placement of that very order at that very penalty and its acceptance before its deadline, with no new order between |
| ServiceLedger.CallSettles | pallets/service/src/lib.rs:322-467 | from any state with the invariant every call conserves the issuance, is the step of the escrow machine its name suggests with every slack unchanged, or else is torn; an error leaves a trace exactly if it is torn |
| ServiceLedger.InvKept | pallets/service/src/lib.rs:185-467 | every call, also a torn one, keeps the invariant: shape, backing, and issuance within u128 |
| ServiceTheorems.Conservation | pallets/service/src/lib.rs:322-467 | no run makes or destroys money, and no account can come to exceed u128 |
| ServiceTheorems.OpenOrders | pallets/service/src/lib.rs:222-363 | in every run an open order implies a registered busy device; the log shows the placement of that very order at the penalty the device has now, and no newer one; Busy2 implies that it was then accepted strictly before its deadline |
| ServiceTheorems.TermsFrozen | pallets/service/src/lib.rs:279-295 | throughout any stretch of a run in which an order stays open, from placement to closing, neither it nor its device's penalty and work cycle change |
| ServiceTheorems.FullWorkCycle | pallets/service/src/lib.rs:325-340 | an open order's deadline lies after its placement, and leaves the whole current work cycle if and only if the sum does not wrap |
| ServiceTheorems.EventOrder | pallets/service/src/lib.rs:222-268 | in every run, between one new order of a device and the next: at most one acceptance, at most one completion and only after a placement on the same terms and a timely acceptance, never completion and rejection, a second rejection only after a client's cancel |
| ServiceTheorems.AllOrNothing | pallets/service/src/lib.rs:185-317 | in every reachable state a call that fails has changed something if and only if it is torn, and has sent and deposited nothing |
| ServiceTheorems.WhenNothingTears | pallets/service/src/lib.rs:346-401 | no call is torn if client and device differ, the destination can be reached and the accounts of the order have free balance |
| ServiceTheorems.Backing | pallets/service/src/lib.rs:346-461 | in every reachable state reserves are at least what they were at first plus what open local orders require; exactly that for all accounts if and only if no call of the run stranded money |
| ServiceTheorems.StrandsIff | pallets/service/src/lib.rs:322-467 | from any state with the invariant a call that strands no money is the step of the escrow machine its name suggests with every slack unchanged; one that strands money is no step at all and some slack grows |
| ServiceTheorems.RefinesEscrow | pallets/service/src/lib.rs:365-467 | in every reachable state a call is a step of the escrow machine, the one its name suggests, if and only if it strands no money |
| ServiceHistory.ToldIff | pallets/service/src/lib.rs:382-403 | the log tells all that a call moves between accounts if and only if the call is not a local completion that moves the fee and then fails on the penalty |
| ServiceHistory.SettlementHistory | pallets/service/src/lib.rs:382-447 | in every run every account's balance is its first balance plus the outcomes of the closed local orders on the log plus the fees of such completions |
| ServiceTheorems.AutoAccept | pallets/service/src/lib.rs:342-361 | a callback answering Busy2 gives the same chain, log and messages as one answering Busy followed by the device's acceptance |
| ServiceDrain.CancelSucceedsIff | pallets/service/src/lib.rs:205-219 | exactly when the client of an overdue order, local or remote, can cancel it |
| ServiceDrain.DrainIff | pallets/service/src/lib.rs:431-467 | with all open orders overdue their clients can cancel them, whichever and in whatever order, if and only if every client that a local penalty is owed to has more than what can be taken from it as a device, and the chains of the remote orders can be reached |
| ServiceDrain.RunsDrainIff | pallets/service/src/lib.rs:205-219 | from every reachable state with all open orders overdue, the clients can cancel whichever and in whatever order if and only if every client that a local penalty is owed to has more than its own stake as a device, and the chains of the remote orders can be reached |
| ServiceDrain.RunsSomeOrderIff | pallets/service/src/lib.rs:205-219 | from every such state there is an order in which the clients can cancel all if and only if every client that a local penalty is owed to exists, no ring is locked, and the chains of the remote orders can be reached |
| ServiceDrain.RunsDrain | pallets/service/src/lib.rs:205-219 | cancelling all orders leaves none and all the money, and the first reserves; no more than these if and only if no call of the run stranded money |
| ServiceLife.Served | pallets/service/src/tests.rs:239-283 | an order that can be taken and afforded, accepted in time, can be completed at any later time exactly if the accounts to be credited exist; storage and reserves are then as before, and the device has earned the fee and lost the penalty if late |
| ServiceLife.Turned | pallets/service/src/tests.rs:211-237 | the same for an order that its device rejects at any time: everybody has back what was on reserve, but the client the penalty of a late device |
| ServiceLife.Cancelled | pallets/service/src/tests.rs:285-321 | the same for an order that its client cancels, which it can exactly from the deadline on if it exists when a penalty is due |
| ClientPallet.Pallet.constructor | pallets/client/src/lib.rs:101-114 | a new pallet has no devices, orders or events |
| ClientPallet.Pallet.Dispatch | pallets/client/src/lib.rs:148-267 | from any sound state, backed or not, every call keeps the storage in shape and all the money, and an error leaves a trace exactly if the call is torn; from a backed state a faithful call keeps the invariant if and only if it does not pay only half, and is then a step of the escrow machine unless it overcommits |
| ClientPallet.Pallet.PlaceOrder | pallets/client/src/lib.rs:162-216 | does to chain, events and messages what the specification says; the order is filed before the send that may fail |
| ClientPallet.Pallet.Cancel | pallets/client/src/lib.rs:219-233 | the same for a client's cancel |
| ClientPallet.Pallet.Register | pallets/client/src/lib.rs:236-266 | the same for registering, refused while an order is open |
| ClientPallet.Pallet.HandleBlobMessage | pallets/client/src/lib.rs:375-398 | dispatches a message and drops the result |
| ClientPallet.Pallet.OnAccept | pallets/client/src/lib.rs:271-275 | only deposits an event |
| ClientPallet.Pallet.OnReject | pallets/client/src/lib.rs:277-291 | refunds the account the message names, unchecked |
| ClientPallet.Pallet.OnDone | pallets/client/src/lib.rs:293-317 | pays from the account the message names, unchecked, with the writes that precede an error kept |
| ClientPallet.Pallet.Reject | pallets/client/src/lib.rs:319-339 | the refund that rejection and cancel share |
| ClientCalls.PlacementIff | pallets/client/src/lib.rs:162-216 | an order is filed if and only if the clock is before its deadline, the device is Ready without an order, the deadline is not before the wrapped sum of clock and work cycle, and client and device can afford it; the call succeeds if it can also be sent; the whole storage, events, money and message in both cases |
| ClientCalls.PlacementErrors | pallets/client/src/lib.rs:167-206 | every error of a placement and exactly when it is given |
| ClientCalls.CancelIff | pallets/client/src/lib.rs:219-233 | who can cancel and when, and the whole storage, events and money after it; every error |
| ClientCalls.RejectIff | pallets/client/src/lib.rs:277-291 | a rejection is obeyed, whatever account it names, if and only if an order is open and its client can be credited the penalty if it is due; the order is then gone, the device on or off as the message says, and a client named rightly refunded in full |
| ClientCalls.DoneIff | pallets/client/src/lib.rs:293-317 | a completion is obeyed, whatever account it names, if and only if an order is open and device and payer can be credited; the order is then gone, the device on or off as the message says, and with a client named rightly the device paid in full |
| ClientCalls.OtherMessages | pallets/client/src/lib.rs:271-275 | an acceptance deposits its event and changes nothing else; a new order does nothing here |
| ClientCalls.RegisterIff | pallets/client/src/lib.rs:236-266 | a device without an order can register; the profile, state and event it then has |
| ClientLedger.Conserves | pallets/client/src/lib.rs:162-339 | every call conserves the issuance, whatever account a message names |
| ClientLedger.ShapeKept | pallets/client/src/lib.rs:162-317 | an open order stands on a registered device that is Ready or Busy; Busy2 is never stored |
| ClientLedger.TornIff | pallets/client/src/lib.rs:188-339 | from any state and whatever account a message names, an error leaves a trace exactly if the call is torn, and sends and deposits nothing |
| ClientLedger.SlackKept | pallets/client/src/lib.rs:162-339 | from any state, backed or not, a faithful call takes from a reserve no more than it frees of what is due, except for what a completion that pays only half takes from its client |
| ClientLedger.CallSettles | pallets/client/src/lib.rs:162-339 | from any sound state, backed or not, a faithful call that neither overcommits nor pays only half, and whose own deal is on reserve, is the step of the escrow machine its name suggests with every slack unchanged, also when its message could not be sent |
| ClientTheorems.InvKeptIff | pallets/client/src/lib.rs:293-317 | a faithful call keeps the backing if and only if it is not a completion that pays only half |
| ClientTheorems.RefinesEscrow | pallets/client/src/lib.rs:162-339 | from any state with the invariant a faithful call is a step of the escrow machine if and only if it neither overcommits nor pays only half |
| ClientTheorems.MisnamedStrands | pallets/client/src/lib.rs:293-317 | a completion that names a third account leaves the client's fee on reserve for no order |
| ClientTheorems.MoneyShifts | pallets/client/src/lib.rs:293-339 | from any state a faithful call moves money only between the device it is about and that device's client: to the device only as a completion, by the fee at most; to the client only past the deadline of that order, by the penalty at most |
| ClientTheorems.PlacedOnTerms | pallets/client/src/lib.rs:167-182 | an order that is filed has its deadline after its placement, stands on the penalty and work cycle the device has then, and leaves the whole cycle if and only if the sum does not wrap |
| ClientTheorems.TermsKept | pallets/client/src/lib.rs:245-262 | a call that leaves an order open leaves it and its device's penalty and work cycle as they are |
| ClientDrain.CancelSucceedsIff | pallets/client/src/lib.rs:219-233 | from any state, backed or not, exactly when the client of an overdue order can cancel it |
| ClientDrain.DrainIff | pallets/client/src/lib.rs:319-339 | from any state, backed or not, with all open orders overdue their clients can cancel them, whichever and in whatever order, if and only if every client owed a penalty by another has more than what can be taken from it as a device |
| ClientDrain.SomeOrderIff | pallets/client/src/lib.rs:319-339 | from any sound state that is backed, or in which a client owed a penalty does not exist, with all open orders overdue, there is an order in which the clients can cancel all if and only if every client owed a penalty by another exists and no ring is locked |
| World.ServiceCallKeeps | pallets/service/src/lib.rs:365-467 | a stored remote order stays as it is or goes; a final word is sent about it only as it goes, and names its client |
| WorldProtocol.ProtocolKept | pallets/client/src/lib.rs:162-317 | under H every step of the two chains, failed sends, loss and reordering included, keeps the protocol: one outstanding item per device, which agrees with the open order |
| WorldProtocol.RegistrationIff | pallets/client/src/lib.rs:236-266 | a registration that the pallet admits keeps the protocol if and only if nothing is outstanding for the device |
| WorldRestraint.HarmIff | pallets/client/src/lib.rs:245-262 | after a run under H, some registration of a device without an open order can be followed, under H from then on, by a final word that names another client than the open order's, if and only if something outstanding for the device can still lead to a final word and the clock still admits a deadline to come |
| WorldTheorems.Always | pallets/client/src/lib.rs:162-398 | in every run under H the protocol and the service chain's invariant hold |
| WorldTheorems.ServiceRuns | pallets/service/src/lib.rs:500-538 | whatever the two chains do, the service chain sees one of the runs about which its theorems speak |
| WorldTheorems.NamesTheClient | pallets/client/src/lib.rs:277-295 | under H a rejection or completion that meets an open order names its client: the check left as a TODO is implied |
| WorldTheorems.OneOutstanding | pallets/service/src/lib.rs:500-531 | under H at most one of a new order in transit, a stored remote order and a final word in transit exists per device, and none unless the client chain has the device Busy |
| WorldTheorems.RecordsAgree | pallets/common/src/lib.rs:49-83 | under H two records of an order on the two chains agree on until, data, fee and client, through both conversions |
| WorldTheorems.PaysIff | pallets/client/src/lib.rs:293-317 | a delivered completion has an effect exactly if it closes the order by payment or moves money and then fails |
| WorldTheorems.PaymentImpliesWork | pallets/client/src/lib.rs:293-317 | under H a completion that has any effect on the client chain, in full or before it fails, stands for an order on the same terms that the service chain's log shows accepted before its deadline and then completed |
| WorldTheorems.MoneyIsEarned | pallets/client/src/lib.rs:293-339 | under H a step moves money on the client chain only between one device, whose order it is about, and that order's client: to the device by the fee at most and only for work the service chain can show, to the client by the penalty at most and only past that order's deadline |
| WorldOutcome.WorkIsPaid | pallets/client/src/lib.rs:293-317 | under H every completion in transit stands for work on the last order open for its device; delivered it has an effect if and only if that order is open and the accounts to be credited exist; and if it is not open, its client has cancelled that very order at or after its deadline, and no order has been open since |
| WorldClosing.RejectionCloses | pallets/client/src/lib.rs:277-339 | under H a delivered rejection closes its order, with device and money as they ought to be, if and only if that order is open and the penalty, if due, can be credited; otherwise nothing changes; if the order is not open, its client has cancelled that very order |
| WorldClosing.CompletionCloses | pallets/client/src/lib.rs:293-317 | under H a delivered completion closes its order, with device and money as they ought to be, if and only if that order is open and device and client can be credited; otherwise nothing changes unless it pays half; if the order is not open, its client has cancelled that very order |
| WorldRuin.HalfPayRuins | pallets/client/src/lib.rs:299-305 | under H a completion that pays only half leaves its order ruined: overdue, with its client gone, who is owed the penalty, and no final word to come; the client's reserve falls short for that order alone |
| WorldRuin.RuinedForGood | pallets/client/src/lib.rs:219-233 | a ruined order stays ruined through every further run under H: no call or message ever closes it |
| WorldRuin.ConfinedAlways | pallets/client/src/lib.rs:162-339 | in every run under H whoever's reserve falls short does not exist, and falls short only for ruined orders of its own; every other deal is fully on reserve |
| WorldMoney.ClientBacking | pallets/client/src/lib.rs:188-211 | in every run under H reserves are at least the first reserves and what open orders require, less what completions that paid only half have taken; exactly that for all accounts if and only if no placement overcommitted |
| WorldMoney.BackedIff | pallets/client/src/lib.rs:293-317 | under H the client chain is backed throughout a run if and only if no completion of the run pays only half |
| WorldMoney.ClientHistory | pallets/client/src/lib.rs:299-332 | in every run under H every account's balance is its first balance plus the outcomes of the closed deals plus what completions that paid only half have moved |
| WorldMoney.ClientHistoryIff | pallets/client/src/lib.rs:299-332 | under H the outcomes of the closed deals alone account for everybody's money throughout a run if and only if no completion of the run pays only half |
| WorldTheorems.ClientAllOrNothing | pallets/client/src/lib.rs:188-216 | in every run, with or without H, a failing step has changed the client chain if and only if its call is torn, and has sent and deposited nothing; under H no rejection tears |
| WorldTheorems.ClientShape | pallets/client/src/lib.rs:162-317 | in every run, with or without H, an open order implies a registered device that is Ready or Busy, and Busy2 is never stored |
| WorldTheorems.ClientTerms | pallets/client/src/lib.rs:167-182 | in every run, with or without H, an open order was placed by its client at a step of the run, before its deadline, on the very terms, penalty and work cycle included, that it has now, and has been open ever since; it leaves the whole work cycle if and only if the sum does not wrap |
| WorldTheorems.ClientTermsFrozen | pallets/client/src/lib.rs:245-262 | throughout any stretch of a run in which an order stays open on the client chain, neither it nor its device's penalty and work cycle change |
| WorldPayments.PaidAtMostOnce | pallets/client/src/lib.rs:293-317 | in every run, with or without H, the client chain pays a device, completions that paid and then failed included, at most as often as the service chain completed orders from there for it, less the completions on their way |
| WorldTerms.PaidOnTerms | pallets/client/src/lib.rs:293-317 | in every run under H, for a device and any terms, the client chain pays for orders on these terms, completions that paid and then failed included, at most as often as the service chain completed orders on these terms, less the completions on their way |
| WorldPayments.StepBalances | pallets/service/src/lib.rs:390-400 | no step adds more payments and travelling completions than completions on the log |
| WorldTheorems.ClientConservation | pallets/client/src/lib.rs:162-339 | no run, with or without H, makes or destroys money on the client chain |
| WorldMoney.ClientRefinesEscrow | pallets/client/src/lib.rs:293-339 | in every run under H a step of the two chains is a step of the escrow machine on the client chain's money, the one its name suggests, if and only if it neither overcommits nor pays only half |
| WorldMoney.ClientRunsDrainIff | pallets/client/src/lib.rs:219-233 | in every run, with or without H, with all open orders overdue the clients can cancel whichever and in whatever order if and only if the guard of ClientDrain.DrainIff holds |
| WorldMoney.ClientRunsSomeOrderIff | pallets/client/src/lib.rs:219-233 | in every run under H, with all open orders overdue, there is an order in which the clients can cancel all if and only if every client owed a penalty by another exists and no ring is locked |
| WorldMoney.ClientRunsDrain | pallets/client/src/lib.rs:219-233 | cancelling all orders leaves none and all the money; under H this needs that no completion paid only half, and leaves the first reserves, and no more than these if and only if no placement overcommitted |
| WorldLife.Served | pallets/client/src/lib.rs:162-317 | over two chains: an order that both can take, accepted in time by the one clock and completed at any later time, is paid when the completion arrives, late or not by the other clock, if the accounts exist; neither chain then has the order, both have the device on or off as it says, and reserves are as before |
| WorldLife.Turned | pallets/client/src/lib.rs:162-339 | the same for an order that the device rejects |
| Counterexamples.LateCompletionTears | pallets/service/src/lib.rs:382-389 | a run after which a late completion fails with the order gone and the fee paid |
| Counterexamples.SelfOrderTears | pallets/service/src/lib.rs:347-351 | a run after which a refused order leaves the device's penalty on reserve |
| Counterexamples.RushedOrder | pallets/service/src/lib.rs:338-340 | a run that files an order with a deadline long before the work cycle ends, because the sum wraps |
| Counterexamples.OrderMatters | pallets/service/src/lib.rs:441-447 | a run after which two overdue orders can be cancelled in one order and not in the other |
| Counterexamples.NoOrderWorks | pallets/service/src/lib.rs:441-447 | a run after which two overdue orders, whose clients both exist, cannot both be cancelled in any order |
| Counterexamples.LateCompletionHalfPays | pallets/client/src/lib.rs:299-305 | a run under H in which a late completion moves the fee and leaves the order open |
| Counterexamples.PennilessCannotCancel | pallets/client/src/lib.rs:326-332 | a run under H after which a client that has nothing cannot cancel its overdue order |
| Counterexamples.WithoutRestraint | pallets/client/src/lib.rs:245-249 | a run without H in which a completion meets the order of another client |

## Left out

- The node, the command line, chain specifications, the key tool, scripts and build files.
- `Timewait` and `on_killed_account`: the runtime wires no such hook, so they are part of no run; that Timewait is never stored is proved.
- Decoding of messages: messages are values, so a blob that cannot be decoded does not occur.
- `handle_xcm_message`, whose body is commented out, the client pallet's `test` call, and logging.
- Locks, transaction fees, weights and the existential deposit: an account ceases to exist when it has nothing, not when it falls below a deposit, and no dust is lost.
- Calls of other pallets, such as transfers between accounts during a run.
- More than two chains: what the client chain sends elsewhere, and what other service chains would answer it.
- ClientDrain.SomeOrderIff: leaves out states with a short reserve in which every client owed a penalty exists; by WorldMoney.BackedOrOwedInVain no run under H reaches one, and ClientDrain.DrainIff covers them for every order of cancelling.
