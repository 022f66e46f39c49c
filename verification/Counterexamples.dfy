/** Runs that show why the exact conditions of the theorems are there. */
module Counterexamples {
  import opened Common
  import opened Ledger
  import opened Escrow
  import opened Drain
  import C = Client
  import CL = ClientLedger
  import CD = ClientDrain
  import S = Service
  import SL = ServiceLedger
  import ST = ServiceTheorems
  import SD = ServiceDrain
  import WT = WorldTheorems
  import opened World

  lemma SmallIssuance(l: Accounts, a: AccountId, x: Balance, b: AccountId, y: Balance)
    requires a != b && x < 100 && y < 100
    requires l == map[a := Account(x, 0), b := Account(y, 0)]
    ensures Issuance(l) < U128
  {
    var none: Accounts := map[];
    assert Totals(none) == map[];
    var one := none[a := Account(x, 0)];
    IssuanceUpdate(none, a, Account(x, 0));
    IssuanceUpdate(one, b, Account(y, 0));
    assert l == one[b := Account(y, 0)];
  }

  lemma RunOne(s: S.Chain, calls: seq<S.Call>, call: S.Call)
    ensures S.Run(s, calls + [call]) == S.Serve(S.Run(s, calls), call).chain
  {
    assert (calls + [call])[..|calls|] == calls;
  }

  function BeforeOrder(): S.Chain {
    S.Chain(7, 0, map[], map[1 := S.Device(Ready, 10, 0)], map[1 := Account(10, 0), 2 := Account(5, 0)],
            [S.Record(S.Registered, 1, None, 0, 10, false)])
  }

  function AtWork(now: Moment): S.Chain {
    S.Chain(7, now, map[1 := Order(9, 0, 5, 2, 7)], map[1 := S.Device(Busy2, 10, 0)],
            map[1 := Account(0, 10), 2 := Account(0, 5)],
            [S.Record(S.Registered, 1, None, 0, 10, false),
             S.Record(S.Placed, 1, Some(Order(9, 0, 5, 2, 7)), 0, 10, false),
             S.Record(S.Accepted, 1, Some(Order(9, 0, 5, 2, 7)), 0, 10, false)])
  }

  lemma OrderedAndAccepted()
    ensures S.Serve(BeforeOrder(), S.PlaceOrder(2, OrderBase(9, 0, 5, 1), Some(Busy2), true)).chain == AtWork(0)
  {
    var l := BeforeOrder().accounts;
    var b := Hold(l, 1, 2, 5, 10);
    assert Reserve(l, 1, 10).accounts == map[1 := Account(0, 10), 2 := Account(5, 0)];
    assert b == Booking(map[1 := Account(0, 10), 2 := Account(0, 5)], Ok);
  }

  /** A client that pays its last money to a late device cannot be credited the penalty: the call fails, the
      order is gone, the fee is paid, and the penalty stays on reserve for no order. */
  lemma LateCompletionTears() returns (s0: S.Chain, calls: seq<S.Call>, call: S.Call)
    ensures S.Genesis(s0)
    ensures var s := S.Run(s0, calls);
            var reply := S.Serve(s, call);
            && SL.Torn(s, call) && ST.Strands(s, call) && reply.out == Err(DeadAccount)
            && s.orders.Keys == {1} && reply.chain.orders == map[]
            && reply.chain.accounts == map[1 := Account(5, 10), 2 := Account(0, 0)]
  {
    s0 := S.Chain(7, 0, map[], map[], map[1 := Account(10, 0), 2 := Account(5, 0)], []);
    SmallIssuance(s0.accounts, 1, 10, 2, 5);
    var register := S.Register(1, 10, 0, true);
    var place := S.PlaceOrder(2, OrderBase(9, 0, 5, 1), Some(Busy2), true);
    calls := [] + [register] + [place] + [S.Tick(9)];
    call := S.Done(1, true, true);
    RunOne(s0, [], register);
    Registering(s0);
    RunOne(s0, [] + [register], place);
    OrderedAndAccepted();
    RunOne(s0, [] + [register] + [place], S.Tick(9));
    Overdue();
    LateCompletion();
  }

  lemma Registering(s0: S.Chain)
    requires s0 == S.Chain(7, 0, map[], map[], map[1 := Account(10, 0), 2 := Account(5, 0)], [])
    ensures S.Serve(s0, S.Register(1, 10, 0, true)).chain == BeforeOrder()
  {
  }

  lemma Overdue()
    ensures S.Serve(AtWork(0), S.Tick(9)).chain == AtWork(9)
  {
  }

  lemma LateCompletion()
    ensures var s := AtWork(9);
            var reply := S.Serve(s, S.Done(1, true, true));
            && SL.Torn(s, S.Done(1, true, true)) && reply.out == Err(DeadAccount)
            && reply.chain.orders == map[]
            && reply.chain.accounts == map[1 := Account(5, 10), 2 := Account(0, 0)]
  {
    var l := AtWork(9).accounts;
    assert Repatriate(l, 2, 1, 5) == Booking(map[1 := Account(5, 10), 2 := Account(0, 0)], Ok);
    assert Pay(l, 1, 2, 5, 10, true) == Booking(map[1 := Account(5, 10), 2 := Account(0, 0)], Err(DeadAccount));
  }

  /** A device that orders from itself and can cover the fee and the penalty each, but not both, loses the
      use of its penalty although its order is refused. */
  lemma SelfOrderTears() returns (s0: S.Chain, calls: seq<S.Call>, call: S.Call)
    ensures S.Genesis(s0)
    ensures var s := S.Run(s0, calls);
            var reply := S.Serve(s, call);
            && SL.Torn(s, call) && ST.Strands(s, call) && reply.out == Err(InsufficientBalance)
            && reply.chain.orders == s.orders == map[]
            && Reserved(s.accounts, 1) == 0 && Reserved(reply.chain.accounts, 1) == 10
  {
    s0 := S.Chain(7, 0, map[], map[], map[1 := Account(12, 0), 2 := Account(0, 0)], []);
    SmallIssuance(s0.accounts, 1, 12, 2, 0);
    var register := S.Register(1, 10, 0, true);
    calls := [] + [register];
    call := S.PlaceOrder(1, OrderBase(9, 0, 5, 1), Some(Busy), true);
    RunOne(s0, [], register);
  }

  function Slow(now: Moment): S.Chain {
    S.Chain(7, now, map[], map[1 := S.Device(Ready, 0, U64 - 1)], map[1 := Account(0, 0), 2 := Account(0, 0)],
            [S.Record(S.Registered, 1, None, 0, 0, false)])
  }

  function Rushed(): S.Chain {
    S.Chain(7, 2, map[1 := Order(3, 0, 0, 2, 7)], map[1 := S.Device(Busy, 0, U64 - 1)], Slow(2).accounts,
            Slow(2).log + [S.Record(S.Placed, 1, Some(Order(3, 0, 0, 2, 7)), 2, 0, false)])
  }

  lemma RegisteringSlow(s0: S.Chain)
    requires s0 == Slow(0).(devices := map[], log := [])
    ensures S.Serve(s0, S.Register(1, 0, U64 - 1, true)).chain == Slow(0)
  {
  }

  lemma Rushing()
    ensures S.Serve(Slow(2), S.PlaceOrder(2, OrderBase(3, 0, 0, 1), Some(Busy), true)).chain == Rushed()
  {
  }

  /** A work cycle so long that it wraps around is no protection against a rushed order. */
  lemma RushedOrder() returns (s0: S.Chain, calls: seq<S.Call>)
    ensures S.Genesis(s0)
    ensures var s := S.Run(s0, calls);
            && 1 in s.orders && 1 in s.devices
            && s.now == 2 && s.orders[1].until == 3 && s.devices[1].wcd == U64 - 1
  {
    s0 := Slow(0).(devices := map[], log := []);
    SmallIssuance(s0.accounts, 1, 0, 2, 0);
    var register := S.Register(1, 0, U64 - 1, true);
    var place := S.PlaceOrder(2, OrderBase(3, 0, 0, 1), Some(Busy), true);
    calls := [] + [register] + [S.Tick(2)] + [place];
    RegisteringSlow(s0);
    RunOne(s0, [], register);
    RunOne(s0, [] + [register], S.Tick(2));
    assert S.Run(s0, [] + [register] + [S.Tick(2)]) == Slow(2);
    Rushing();
    RunOne(s0, [] + [register] + [S.Tick(2)], place);
  }

  // ----- Drain -----------------------------------------------------------------------------------

  // Account 1 is a device with 10, penalty 10; account 2 is its client at no fee, and a device itself with 4,
  // penalty 4, whose client is account 3 with 1, at no fee either.

  const STAKES: Accounts := map[1 := Account(0, 10), 2 := Account(0, 4), 3 := Account(1, 0)]

  function BothReady(): S.Chain {
    S.Chain(7, 0, map[], map[1 := S.Device(Ready, 10, 0), 2 := S.Device(Ready, 4, 0)],
            map[1 := Account(10, 0), 2 := Account(4, 0), 3 := Account(1, 0)],
            [S.Record(S.Registered, 1, None, 0, 10, false), S.Record(S.Registered, 2, None, 0, 4, false)])
  }

  function OneHired(): S.Chain {
    S.Chain(7, 0, map[1 := Order(9, 0, 0, 2, 7)], map[1 := S.Device(Busy, 10, 0), 2 := S.Device(Ready, 4, 0)],
            map[1 := Account(0, 10), 2 := Account(4, 0), 3 := Account(1, 0)],
            BothReady().log + [S.Record(S.Placed, 1, Some(Order(9, 0, 0, 2, 7)), 0, 10, false)])
  }

  function BothHired(now: Moment): S.Chain {
    S.Chain(7, now, map[1 := Order(9, 0, 0, 2, 7), 2 := Order(9, 0, 0, 3, 7)],
            map[1 := S.Device(Busy, 10, 0), 2 := S.Device(Busy, 4, 0)], STAKES,
            OneHired().log + [S.Record(S.Placed, 2, Some(Order(9, 0, 0, 3, 7)), 0, 4, false)])
  }

  lemma ThreeIssuance(l: Accounts, x: Balance, y: Balance, z: Balance)
    requires x < 100 && y < 100 && z < 100
    requires l == map[1 := Account(x, 0), 2 := Account(y, 0), 3 := Account(z, 0)]
    ensures Issuance(l) < U128
  {
    var none: Accounts := map[];
    assert Totals(none) == map[];
    var one := none[1 := Account(x, 0)];
    var two := one[2 := Account(y, 0)];
    IssuanceUpdate(none, 1, Account(x, 0));
    IssuanceUpdate(one, 2, Account(y, 0));
    IssuanceUpdate(two, 3, Account(z, 0));
    assert l == two[3 := Account(z, 0)];
  }

  lemma Registrations(s0: S.Chain)
    requires s0 == BothReady().(devices := map[], log := [])
    ensures S.Serve(S.Serve(s0, S.Register(1, 10, 0, true)).chain, S.Register(2, 4, 0, true)).chain == BothReady()
  {
  }

  lemma FirstHire()
    ensures S.Serve(BothReady(), S.PlaceOrder(2, OrderBase(9, 0, 0, 1), Some(Busy), true)).chain == OneHired()
  {
    var l := BothReady().accounts;
    assert Reserve(l, 1, 10) == Booking(OneHired().accounts, Ok);
    assert Hold(l, 1, 2, 0, 10) == Booking(OneHired().accounts, Ok);
  }

  lemma SecondHire()
    ensures S.Serve(OneHired(), S.PlaceOrder(3, OrderBase(9, 0, 0, 2), Some(Busy), true)).chain == BothHired(0)
  {
    var l := OneHired().accounts;
    assert Reserve(l, 2, 4) == Booking(STAKES, Ok);
    assert Hold(l, 2, 3, 0, 4) == Booking(STAKES, Ok);
  }

  lemma Refunding()
    ensures Refund(STAKES, 2, 3, 3, 0, 4, true) ==
            Booking(map[1 := Account(0, 10), 2 := Account(0, 0), 3 := Account(5, 0)], Ok)
    ensures Refund(STAKES, 1, 2, 2, 0, 10, true) ==
            Booking(map[1 := Account(0, 0), 2 := Account(10, 4), 3 := Account(1, 0)], Ok)
  {
  }

  lemma CancelsInTurn()
    ensures SD.AllCancelled(BothHired(9), [1, 2], true)
  {
    var s := BothHired(9);
    Refunding();
    assert [1, 2][1..] == [2];
    var first := S.Serve(s, S.Cancel(2, 1, true)).chain;
    assert first.orders == map[2 := Order(9, 0, 0, 3, 7)];
    var l := first.accounts;
    assert l == map[1 := Account(0, 0), 2 := Account(10, 4), 3 := Account(1, 0)];
    assert Refund(l, 2, 3, 3, 0, 4, true).out == Ok;
    assert SD.AllCancelled(first, [2], true);
  }

  lemma CancelsOutOfTurn()
    ensures !SD.AllCancelled(BothHired(9), [2, 1], true)
  {
    var s := BothHired(9);
    Refunding();
    assert [2, 1][1..] == [1];
    var first := S.Serve(s, S.Cancel(3, 2, true)).chain;
    assert first.orders == map[1 := Order(9, 0, 0, 2, 7)];
    var l := first.accounts;
    assert l == map[1 := Account(0, 10), 2 := Account(0, 0), 3 := Account(5, 0)];
    assert Refund(l, 1, 2, 2, 0, 10, true).out == Err(DeadAccount);
    assert !SD.AllCancelled(first, [1], true);
  }

  lemma UpToStakes(s0: S.Chain) returns (calls: seq<S.Call>)
    requires s0 == BothReady().(devices := map[], log := [])
    ensures S.Run(s0, calls) == BothHired(9)
  {
    var r1, r2 := S.Register(1, 10, 0, true), S.Register(2, 4, 0, true);
    var p1 := S.PlaceOrder(2, OrderBase(9, 0, 0, 1), Some(Busy), true);
    var p2 := S.PlaceOrder(3, OrderBase(9, 0, 0, 2), Some(Busy), true);
    Registrations(s0);
    RunOne(s0, [], r1);
    RunOne(s0, [] + [r1], r2);
    FirstHire();
    RunOne(s0, [] + [r1] + [r2], p1);
    SecondHire();
    RunOne(s0, [] + [r1] + [r2] + [p1], p2);
    RunOne(s0, [] + [r1] + [r2] + [p1] + [p2], S.Tick(9));
    calls := [] + [r1] + [r2] + [p1] + [p2] + [S.Tick(9)];
  }

  /** The guard of the drain theorem is needed. Both orders are overdue, and the clients can cancel them in one
      order; in the other, account 2 has lost its last money when it is to be credited a penalty. */
  lemma OrderMatters() returns (s0: S.Chain, calls: seq<S.Call>)
    ensures S.Genesis(s0)
    ensures var s := S.Run(s0, calls);
            && SD.Overdue(s) && !Drainable(SL.BooksOf(s))
            && SD.AllCancelled(s, [1, 2], true) && !SD.AllCancelled(s, [2, 1], true)
  {
    s0 := BothReady().(devices := map[], log := []);
    ThreeIssuance(s0.accounts, 10, 4, 1);
    calls := UpToStakes(s0);
    assert SD.Overdue(BothHired(9));
    CancelsInTurn();
    CancelsOutOfTurn();
    StakesTooLow();
  }

  lemma StakesTooLow()
    ensures !Drainable(SL.BooksOf(BothHired(9)))
  {
    var open := SL.LocalDeals(BothHired(9));
    assert open == map[1 := Deal(2, 0, 10, 9), 2 := Deal(3, 0, 4, 9)];
    assert Total(STAKES, 2) == 4 == Stake(open, 2);
    assert 1 in SL.BooksOf(BothHired(9)).open;
  }

  // Accounts 1 and 2 are devices with 4 and penalty 4 each, and each is the other's client at no fee.

  function Pair(): S.Chain {
    S.Chain(7, 0, map[], map[1 := S.Device(Ready, 4, 0), 2 := S.Device(Ready, 4, 0)],
            map[1 := Account(4, 0), 2 := Account(4, 0)],
            [S.Record(S.Registered, 1, None, 0, 4, false), S.Record(S.Registered, 2, None, 0, 4, false)])
  }

  function HalfRing(): S.Chain {
    S.Chain(7, 0, map[1 := Order(9, 0, 0, 2, 7)], map[1 := S.Device(Busy, 4, 0), 2 := S.Device(Ready, 4, 0)],
            map[1 := Account(0, 4), 2 := Account(4, 0)],
            Pair().log + [S.Record(S.Placed, 1, Some(Order(9, 0, 0, 2, 7)), 0, 4, false)])
  }

  function Ring(now: Moment): S.Chain {
    S.Chain(7, now, map[1 := Order(9, 0, 0, 2, 7), 2 := Order(9, 0, 0, 1, 7)],
            map[1 := S.Device(Busy, 4, 0), 2 := S.Device(Busy, 4, 0)],
            map[1 := Account(0, 4), 2 := Account(0, 4)],
            HalfRing().log + [S.Record(S.Placed, 2, Some(Order(9, 0, 0, 1, 7)), 0, 4, false)])
  }

  lemma PairRegisters(s0: S.Chain)
    requires s0 == Pair().(devices := map[], log := [])
    ensures S.Serve(S.Serve(s0, S.Register(1, 4, 0, true)).chain, S.Register(2, 4, 0, true)).chain == Pair()
  {
  }

  lemma RingBegins()
    ensures S.Serve(Pair(), S.PlaceOrder(2, OrderBase(9, 0, 0, 1), Some(Busy), true)).chain == HalfRing()
  {
    assert Hold(Pair().accounts, 1, 2, 0, 4) == Booking(HalfRing().accounts, Ok);
  }

  lemma RingCloses()
    ensures S.Serve(HalfRing(), S.PlaceOrder(1, OrderBase(9, 0, 0, 2), Some(Busy), true)).chain == Ring(0)
  {
    assert Hold(HalfRing().accounts, 2, 1, 0, 4) == Booking(Ring(0).accounts, Ok);
  }

  lemma RingIsLocked()
    ensures Locked(SL.BooksOf(Ring(9)), {1, 2}) && Creditable(SL.BooksOf(Ring(9)))
  {
    var b := SL.BooksOf(Ring(9));
    assert b.open == map[1 := Deal(2, 0, 4, 9), 2 := Deal(1, 0, 4, 9)];
    assert Owes(b.open, 1, 2) && Owes(b.open, 2, 1);
    assert LockedAt(b, {1, 2}, 1) && LockedAt(b, {1, 2}, 2);
  }

  /** Two devices that have each other for a client and nothing but their stakes: both clients exist, yet in no
      order can both overdue orders be cancelled. */
  lemma NoOrderWorks() returns (s0: S.Chain, calls: seq<S.Call>)
    ensures S.Genesis(s0)
    ensures var s := S.Run(s0, calls);
            && SD.Overdue(s) && s.orders.Keys == {1, 2} && Creditable(SL.BooksOf(s))
            && forall ds :: Lists(s.orders.Keys, ds) && Covers(s.orders.Keys, ds) ==> !SD.AllCancelled(s, ds, true)
  {
    s0 := Pair().(devices := map[], log := []);
    SmallIssuance(s0.accounts, 1, 4, 2, 4);
    calls := UpToRing(s0);
    RingIsLocked();
    assert SD.Overdue(Ring(9));
    SD.RunsSomeOrderIff(s0, calls, true);
  }

  lemma UpToRing(s0: S.Chain) returns (calls: seq<S.Call>)
    requires s0 == Pair().(devices := map[], log := [])
    ensures S.Run(s0, calls) == Ring(9)
  {
    var r1, r2 := S.Register(1, 4, 0, true), S.Register(2, 4, 0, true);
    var p1 := S.PlaceOrder(2, OrderBase(9, 0, 0, 1), Some(Busy), true);
    var p2 := S.PlaceOrder(1, OrderBase(9, 0, 0, 2), Some(Busy), true);
    PairRegisters(s0);
    RunOne(s0, [], r1);
    RunOne(s0, [] + [r1], r2);
    RingBegins();
    RunOne(s0, [] + [r1] + [r2], p1);
    RingCloses();
    RunOne(s0, [] + [r1] + [r2] + [p1], p2);
    RunOne(s0, [] + [r1] + [r2] + [p1] + [p2], S.Tick(9));
    calls := [] + [r1] + [r2] + [p1] + [p2] + [S.Tick(9)];
  }

  // ----- Two chains ------------------------------------------------------------------------------

  lemma ExecOne(w: World, steps: seq<Step>, step: Step, w1: World)
    requires Exec(w, steps) == w1
    ensures Exec(w, steps + [step]) == Apply(w1, step)
    ensures AllPossible(w, steps + [step]) <==> AllPossible(w, steps) && Possible(w1, step)
    ensures Lawful(w, steps + [step]) <==> Lawful(w, steps) && Possible(w1, step) && Restrained(w1, step)
  {
    assert (steps + [step])[..|steps|] == steps;
  }

  // Account 1 is a device with 20, penalty 10; account 2 its client with 5, fee 5; account 3 has 6.

  function Begin(): World {
    World(C.Chain(0, map[], map[], map[1 := Account(20, 0), 2 := Account(5, 0), 3 := Account(6, 0)], []),
          S.Chain(7, 0, map[], map[], map[], []), 2, map[], 0)
  }

  function Known(): World {
    Begin().(client := Begin().client.(devices := map[1 := C.Device(Ready, 10, 0, 7)], events := [C.Registered(1)]))
  }

  function KnownToBoth(): World {
    Known().(service := Begin().service.(devices := map[1 := S.Device(Ready, 0, 0)],
                                         log := [S.Record(S.Registered, 1, None, 0, 0, false)]))
  }

  const WORK := Order(9, 0, 5, 2, 2)

  function Hired(): C.Chain {
    C.Chain(0, map[1 := Order(9, 0, 5, 2, 0)], map[1 := C.Device(Busy, 10, 0, 7)],
            map[1 := Account(10, 10), 2 := Account(0, 5), 3 := Account(6, 0)], [C.Registered(1), C.Placed(2, 1)])
  }

  function Ordered(): World {
    World(Hired(), KnownToBoth().service, 2, map[0 := NewOrder(2, OrderBase(9, 0, 5, 1))], 1)
  }

  function Working(): World {
    World(Hired(),
          S.Chain(7, 0, map[1 := WORK], map[1 := S.Device(Busy2, 0, 0)], map[],
                  [S.Record(S.Registered, 1, None, 0, 0, false), S.Record(S.Placed, 1, Some(WORK), 0, 0, false),
                   S.Record(S.Accepted, 1, Some(WORK), 0, 0, false)]),
          2, map[1 := OrderAccept(2, 1)], 2)
  }

  function Finished(): World {
    World(Hired(),
          Working().service.(orders := map[], devices := map[1 := S.Device(Ready, 0, 0)],
                             log := Working().service.log + [S.Record(S.Completed, 1, Some(WORK), 0, 0, false)]),
          2, map[1 := OrderAccept(2, 1), 2 := OrderDone(2, 1, true)], 3)
  }

  lemma BeginIsGenesis()
    ensures Genesis(Begin())
  {
    var none: Accounts := map[];
    assert Totals(none) == map[];
    var one := none[1 := Account(20, 0)];
    var two := one[2 := Account(5, 0)];
    IssuanceUpdate(none, 1, Account(20, 0));
    IssuanceUpdate(one, 2, Account(5, 0));
    IssuanceUpdate(two, 3, Account(6, 0));
    assert two[3 := Account(6, 0)] == Begin().client.accounts;
  }

  lemma Hiring()
    ensures Apply(KnownToBoth(), AtClient(C.PlaceOrder(2, OrderBase(9, 0, 5, 1), true))) == Ordered()
  {
    var l := KnownToBoth().client.accounts;
    assert Reserve(l, 1, 10).accounts == map[1 := Account(10, 10), 2 := Account(5, 0), 3 := Account(6, 0)];
    assert Hold(l, 1, 2, 5, 10) == Booking(Hired().accounts, Ok);
    assert C.PlaceCall(KnownToBoth().client, 2, OrderBase(9, 0, 5, 1), true).chain == Hired();
  }

  lemma Arriving()
    ensures Apply(Ordered(), Deliver(0, Some(Busy2), true)) == Working()
  {
    assert Ordered().net - {0} == map[];
    assert S.Serve(Ordered().service, S.Receive(2, Ordered().net[0], Some(Busy2), true)).chain == Working().service;
  }

  lemma Finishing()
    ensures Apply(Working(), AtService(S.Done(1, true, true))) == Finished()
  {
    assert Working().service.orders - {1} == map[];
    assert S.Serve(Working().service, S.Done(1, true, true)).chain == Finished().service;
  }

  lemma UpToKnown() returns (steps: seq<Step>)
    ensures Genesis(Begin()) && Lawful(Begin(), steps) && AllPossible(Begin(), steps)
    ensures Exec(Begin(), steps) == Known()
  {
    BeginIsGenesis();
    var know := AtClient(C.Register(1, 7, 10, 0, true));
    assert Restrained(Begin(), know) by {
      assert forall t :: !Flying(Begin(), t, 1);
    }
    steps := [] + [know];
    ExecOne(Begin(), [], know, Begin());
    assert Apply(Begin(), know) == Known();
  }

  lemma UpToOrdered() returns (steps: seq<Step>)
    ensures Genesis(Begin()) && Lawful(Begin(), steps) && AllPossible(Begin(), steps)
    ensures Exec(Begin(), steps) == Ordered()
  {
    steps := UpToKnown();
    ExecOne(Begin(), steps, AtService(S.Register(1, 0, 0, true)), Known());
    assert Apply(Known(), AtService(S.Register(1, 0, 0, true))) == KnownToBoth();
    steps := steps + [AtService(S.Register(1, 0, 0, true))];
    ExecOne(Begin(), steps, AtClient(C.PlaceOrder(2, OrderBase(9, 0, 5, 1), true)), KnownToBoth());
    Hiring();
    steps := steps + [AtClient(C.PlaceOrder(2, OrderBase(9, 0, 5, 1), true))];
  }

  /** A lawful run up to a completion in transit. */
  lemma UpToCompletion() returns (steps: seq<Step>)
    ensures Genesis(Begin()) && Lawful(Begin(), steps) && AllPossible(Begin(), steps)
    ensures Exec(Begin(), steps) == Finished()
  {
    steps := UpToOrdered();
    ExecOne(Begin(), steps, Deliver(0, Some(Busy2), true), Ordered());
    Arriving();
    steps := steps + [Deliver(0, Some(Busy2), true)];
    ExecOne(Begin(), steps, AtService(S.Done(1, true, true)), Working());
    Finishing();
    steps := steps + [AtService(S.Done(1, true, true))];
  }

  /** The same on the client chain: a client that has nothing but the fee is to be credited the penalty. The
      fee has moved, yet the order is still open, with no fee behind it. */
  lemma LateCompletionHalfPays() returns (steps: seq<Step>, w: World, step: Step)
    ensures Genesis(Begin()) && Lawful(Begin(), steps) && w == Exec(Begin(), steps) && Possible(w, step)
    ensures WT.HalfPays(w, step)
    ensures 1 in w.client.orders && w.client.orders[1].client == 2 && w.client.orders[1].fee == 5
    ensures var w' := Apply(w, step);
            w'.client.orders == w.client.orders && Reserved(w'.client.accounts, 2) == 0
  {
    steps := UpToCompletion();
    ExecOne(Begin(), steps, AtClient(C.Tick(9)), Finished());
    steps := steps + [AtClient(C.Tick(9))];
    w := Finished().(client := Hired().(now := 9));
    step := Deliver(2, None, true);
    HalfPaying();
    WT.ClientAfter(w, step);
  }

  lemma HalfPaying()
    ensures var s := Hired().(now := 9);
            var s' := C.Serve(s, C.Receive(OrderDone(2, 1, true))).chain;
            && CL.HalfPays(s, C.Receive(OrderDone(2, 1, true)))
            && s'.orders == s.orders && Reserved(s'.accounts, 2) == 0
  {
    var l := Hired().accounts;
    var l1: Accounts := map[1 := Account(15, 10), 2 := Account(0, 0), 3 := Account(6, 0)];
    assert Repatriate(l, 2, 1, 5) == Booking(l1, Ok);
    assert Pay(l, 1, 2, 5, 10, true) == Booking(l1, Err(DeadAccount));
    assert CL.Deals(Hired().(now := 9)) == map[1 := Deal(2, 5, 10, 9)];
  }

  function ForNothing(now: Moment): C.Chain {
    C.Chain(now, map[1 := Order(9, 0, 0, 4, 0)], map[1 := C.Device(Busy, 10, 0, 7)],
            map[1 := Account(10, 10), 2 := Account(5, 0), 3 := Account(6, 0)], [C.Registered(1), C.Placed(4, 1)])
  }

  lemma HiringForNothing()
    ensures C.Serve(Known().client, C.PlaceOrder(4, OrderBase(9, 0, 0, 1), true)).chain == ForNothing(0)
    ensures C.Serve(ForNothing(9), C.Cancel(4, 1)).out == Err(DeadAccount)
  {
    var l := Known().client.accounts;
    assert Reserve(l, 1, 10) == Booking(ForNothing(0).accounts, Ok);
    assert Hold(l, 1, 4, 0, 10) == Booking(ForNothing(0).accounts, Ok);
    assert C.PlaceCall(Known().client, 4, OrderBase(9, 0, 0, 1), true).chain == ForNothing(0);
  }

  lemma StuckAt9()
    ensures CD.Overdue(ForNothing(9)) && !CD.AllCancelled(ForNothing(9), [1])
  {
    HiringForNothing();
  }

  lemma NothingAt9()
    ensures !Drainable(CL.BooksOf(ForNothing(9)))
  {
    assert CL.Deals(ForNothing(9)) == map[1 := Deal(4, 0, 10, 9)];
    assert 1 in CL.BooksOf(ForNothing(9)).open;
  }

  lemma UpToStuck() returns (steps: seq<Step>)
    ensures Genesis(Begin()) && Lawful(Begin(), steps)
    ensures Exec(Begin(), steps).client == ForNothing(9)
  {
    steps := UpToKnown();
    var place := AtClient(C.PlaceOrder(4, OrderBase(9, 0, 0, 1), true));
    ExecOne(Begin(), steps, place, Known());
    HiringForNothing();
    ExecOne(Begin(), steps + [place], AtClient(C.Tick(9)), Apply(Known(), place));
    steps := steps + [place] + [AtClient(C.Tick(9))];
  }

  /** A client that has nothing and owes no fee cannot cancel its overdue order on a device with a penalty. */
  lemma PennilessCannotCancel() returns (steps: seq<Step>)
    ensures Genesis(Begin()) && Lawful(Begin(), steps)
    ensures var c := Exec(Begin(), steps).client;
            && CD.Overdue(c) && c.orders.Keys == {1} && c.orders[1].client == 4
            && C.Serve(c, C.Cancel(4, 1)).out == Err(DeadAccount)
            && !CD.AllCancelled(c, [1]) && !Drainable(CL.BooksOf(c))
  {
    steps := UpToStuck();
    HiringForNothing();
    StuckAt9();
    NothingAt9();
  }

  function CancelledAt9(): C.Chain {
    C.Chain(9, map[], map[1 := C.Device(Busy, 10, 0, 7)],
            map[1 := Account(10, 0), 2 := Account(15, 0), 3 := Account(6, 0)],
            [C.Registered(1), C.Placed(2, 1), C.Rejected(2, 1)])
  }

  lemma Cancelling()
    ensures C.Serve(Hired().(now := 9), C.Cancel(2, 1)).chain == CancelledAt9()
  {
    var l := Hired().accounts;
    assert Unreserve(l, 2, 5) == map[1 := Account(10, 10), 2 := Account(5, 0), 3 := Account(6, 0)];
    assert Refund(l, 1, 2, 2, 5, 10, true) == Booking(CancelledAt9().accounts, Ok);
    assert Hired().orders - {1} == map[];
  }

  function Rehired(): C.Chain {
    C.Chain(9, map[1 := Order(20, 0, 6, 3, 0)], map[1 := C.Device(Busy, 0, 0, 7)],
            map[1 := Account(10, 0), 2 := Account(15, 0), 3 := Account(0, 6)],
            CancelledAt9().events + [C.Registered(1)] + [C.Placed(3, 1)])
  }

  lemma Rehiring()
    ensures C.Serve(C.Serve(CancelledAt9(), C.Register(1, 7, 0, 0, true)).chain,
                    C.PlaceOrder(3, OrderBase(20, 0, 6, 1), true)) ==
            C.Reply(Rehired(), Ok, Some(Envelope(7, NewOrder(3, OrderBase(20, 0, 6, 1)))))
  {
    var l := CancelledAt9().accounts;
    assert Hold(l, 1, 3, 6, 0) == Booking(Rehired().accounts, Ok);
    var s := C.Serve(CancelledAt9(), C.Register(1, 7, 0, 0, true)).chain;
    assert s.devices == map[1 := C.Device(Ready, 0, 0, 7)];
    assert C.Serve(s, C.PlaceOrder(3, OrderBase(20, 0, 6, 1), true)).chain == Rehired();
  }

  /** Without hypothesis H a completion can reach the order of another client: the client cancels while the
      completion is on its way, the device registers anew, and a third account hires it. */
  lemma WithoutRestraint() returns (steps: seq<Step>, w: World, t: nat)
    ensures Genesis(Begin()) && AllPossible(Begin(), steps) && w == Exec(Begin(), steps)
    ensures t in w.net && w.net[t].OrderDone? && w.net[t].device in w.client.orders
    ensures w.net[t].client != w.client.orders[w.net[t].device].client
  {
    steps := UpToCompletion();
    var w1 := Finished();
    ExecOne(Begin(), steps, AtClient(C.Tick(9)), w1);
    steps := steps + [AtClient(C.Tick(9))];
    var w2 := w1.(client := Hired().(now := 9));
    assert Apply(w1, AtClient(C.Tick(9))) == w2;
    ExecOne(Begin(), steps, AtClient(C.Cancel(2, 1)), w2);
    steps := steps + [AtClient(C.Cancel(2, 1))];
    Cancelling();
    var w3 := w1.(client := CancelledAt9());
    assert C.Serve(w2.client, C.Cancel(2, 1)).sent == None;
    assert Apply(w2, AtClient(C.Cancel(2, 1))) == w3;
    var register := C.Register(1, 7, 0, 0, true);
    ExecOne(Begin(), steps, AtClient(register), w3);
    steps := steps + [AtClient(register)];
    var w4 := w1.(client := C.Serve(CancelledAt9(), register).chain);
    assert Apply(w3, AtClient(register)) == w4;
    var place := C.PlaceOrder(3, OrderBase(20, 0, 6, 1), true);
    ExecOne(Begin(), steps, AtClient(place), w4);
    steps := steps + [AtClient(place)];
    Rehiring();
    w := Apply(w4, AtClient(place));
    t := 2;
  }
}
