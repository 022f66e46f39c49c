/** The money on the client chain in every run under hypothesis H. */
module WorldMoney {
  import opened Common
  import opened Ledger
  import opened Escrow
  import opened Accounting
  import opened Drain
  import CL = ClientLedger
  import CT = ClientTheorems
  import CD = ClientDrain
  import opened World
  import opened WorldTheorems
  import opened WorldRuin

  /** No completion of the run pays only half: no client that is owed a penalty ceases to exist by paying. */
  predicate ClientsLast(w0: World, steps: seq<Step>)
    decreases |steps|
  {
    steps != [] ==>
      var n := |steps| - 1;
      ClientsLast(w0, steps[..n]) && !HalfPays(Exec(w0, steps[..n]), steps[n])
  }

  /** No device orders from itself beyond its means. */
  predicate NoneOvercommits(w0: World, steps: seq<Step>)
    decreases |steps|
  {
    steps != [] ==>
      var n := |steps| - 1;
      NoneOvercommits(w0, steps[..n]) && !Overcommits(Exec(w0, steps[..n]), steps[n])
  }

  // ----- Backing -----------------------------------------------------------------------------------

  function TakenBy(w: World, step: Step, a: AccountId): Balance {
    if CallOf(w, step).Some? then CL.Taken(w.client, CallOf(w, step).value, a) else 0
  }

  /** What the run's completions that paid only half have taken from the reserve of account a. */
  function TakenFrom(w0: World, steps: seq<Step>, a: AccountId): nat
    decreases |steps|
  {
    if steps == [] then 0
    else
      var n := |steps| - 1;
      TakenFrom(w0, steps[..n], a) + TakenBy(Exec(w0, steps[..n]), steps[n], a)
  }

  /** Backing of the client chain. In every run under H every account has on reserve at least what the open
      orders require beyond what it had at first, less what completions that paid only half have taken from
      it; it is exactly that for all accounts if and only if no placement of the run has overcommitted. */
  lemma {:induction false} ClientBacking(w0: World, steps: seq<Step>)
    requires Genesis(w0) && Lawful(w0, steps)
    ensures forall a :: Slack(BooksAt(Exec(w0, steps)), a) >= Expected(w0, steps, a)
    ensures (forall a :: Slack(BooksAt(Exec(w0, steps)), a) == Expected(w0, steps, a)) <==> NoneOvercommits(w0, steps)
    decreases |steps|
  {
    if steps == [] {
      NothingOpen(BooksAt(w0));
    } else {
      var n := |steps| - 1;
      var w := Exec(w0, steps[..n]);
      ClientBacking(w0, steps[..n]);
      Always(w0, steps[..n]);
      ConfinedAlways(w0, steps[..n]);
      SlackStep(w, steps[n]);
      ExactlyExpected(w0, steps[..n], steps);
    }
  }

  /** The slack that is left of an account's first reserve. */
  function Expected(w0: World, steps: seq<Step>, a: AccountId): int {
    Reserved(w0.client.accounts, a) - TakenFrom(w0, steps, a)
  }

  /** The step changes every slack exactly by what it takes for half a payment. */
  ghost predicate SlackTaken(w: World, step: Step) {
    forall a :: SlackTakenAt(w, step, a)
  }

  ghost predicate SlackTakenAt(w: World, step: Step, a: AccountId) {
    Slack(BooksAt(Apply(w, step)), a) == Slack(BooksAt(w), a) - TakenBy(w, step, a)
  }

  lemma SlackStep(w: World, step: Step)
    requires Confined(w) && CL.Sound(w.client) && Protocol(w) && Possible(w, step)
    ensures forall a :: Slack(BooksAt(Apply(w, step)), a) >= Slack(BooksAt(w), a) - TakenBy(w, step, a)
    ensures SlackTaken(w, step) <==> !Overcommits(w, step)
  {
    ClientAfter(w, step);
    if HalfPays(w, step) {
      CL.HalfPayMoves(w.client, CallOf(w, step).value);
    } else if Overcommits(w, step) {
      var d := CallOf(w, step).value.base.device;
      CL.OvercommitMoves(w.client, CallOf(w, step).value);
      assert !SlackTakenAt(w, step, d);
    } else {
      StepSettles(w, step);
    }
  }

  lemma ExactlyExpected(w0: World, before: seq<Step>, steps: seq<Step>)
    requires steps != [] && before == steps[..|steps| - 1]
    requires forall a :: Slack(BooksAt(Exec(w0, before)), a) >= Expected(w0, before, a)
    requires var w, step := Exec(w0, before), steps[|steps| - 1];
             forall a :: Slack(BooksAt(Apply(w, step)), a) >= Slack(BooksAt(w), a) - TakenBy(w, step, a)
    ensures forall a :: Slack(BooksAt(Exec(w0, steps)), a) >= Expected(w0, steps, a)
    ensures (forall a :: Slack(BooksAt(Exec(w0, steps)), a) == Expected(w0, steps, a)) <==>
            (forall a :: Slack(BooksAt(Exec(w0, before)), a) == Expected(w0, before, a))
            && SlackTaken(Exec(w0, before), steps[|steps| - 1])
  {
    forall a ensures Slack(BooksAt(Exec(w0, steps)), a) >= Expected(w0, steps, a)
      && (Slack(BooksAt(Exec(w0, steps)), a) == Expected(w0, steps, a) <==>
          Slack(BooksAt(Exec(w0, before)), a) == Expected(w0, before, a)
          && SlackTakenAt(Exec(w0, before), steps[|steps| - 1], a))
    {
      ExpectedNext(w0, before, steps, a);
    }
  }

  lemma ExpectedNext(w0: World, before: seq<Step>, steps: seq<Step>, a: AccountId)
    requires steps != [] && before == steps[..|steps| - 1]
    ensures Exec(w0, steps) == Apply(Exec(w0, before), steps[|steps| - 1])
    ensures Expected(w0, steps, a) == Expected(w0, before, a) - TakenBy(Exec(w0, before), steps[|steps| - 1], a)
  {
  }

  /** In a run in which no completion pays only half, nothing is taken and the chain keeps its invariant. */
  lemma ClientsLastBacked(w0: World, steps: seq<Step>)
    requires Genesis(w0) && Lawful(w0, steps) && ClientsLast(w0, steps)
    ensures CL.Inv(Exec(w0, steps).client)
  {
    ConfinedAlways(w0, steps);
    ClientBacking(w0, steps);
    TakenIff(w0, steps);
    forall a ensures Slack(BooksAt(Exec(w0, steps)), a) >= 0 {
      assert TakenFrom(w0, steps, a) == 0;
      assert Slack(BooksAt(Exec(w0, steps)), a) >= Expected(w0, steps, a);
    }
  }

  /** Nothing has been taken if and only if no completion of the run has paid only half. */
  lemma {:induction false} TakenIff(w0: World, steps: seq<Step>)
    ensures (forall a :: TakenFrom(w0, steps, a) == 0) <==> ClientsLast(w0, steps)
    decreases |steps|
  {
    if steps == [] {
    } else {
      var n := |steps| - 1;
      var w := Exec(w0, steps[..n]);
      TakenIff(w0, steps[..n]);
      if HalfPays(w, steps[n]) {
        var a := CallOf(w, steps[n]).value.message.client;
        assert TakenBy(w, steps[n], a) > 0;
        assert TakenFrom(w0, steps, a) > 0;
      } else if !ClientsLast(w0, steps[..n]) {
        var a :| TakenFrom(w0, steps[..n], a) != 0;
        assert TakenFrom(w0, steps, a) > 0;
      } else {
        forall a ensures TakenFrom(w0, steps, a) == 0 {
          assert TakenFrom(w0, steps[..n], a) == 0;
        }
      }
    }
  }

  /** The backing holds throughout the run. */
  ghost predicate BackedThroughout(w0: World, steps: seq<Step>)
    decreases |steps|
  {
    && Backed(BooksAt(Exec(w0, steps)))
    && (steps != [] ==> BackedThroughout(w0, steps[..|steps| - 1]))
  }

  /** Under H the client chain is backed throughout a run if and only if no completion pays only half. */
  lemma {:induction false} BackedIff(w0: World, steps: seq<Step>)
    requires Genesis(w0) && Lawful(w0, steps)
    ensures BackedThroughout(w0, steps) <==> ClientsLast(w0, steps)
    decreases |steps|
  {
    if ClientsLast(w0, steps) {
      ClientsLastBacked(w0, steps);
    }
    if steps == [] {
    } else {
      var n := |steps| - 1;
      var w := Exec(w0, steps[..n]);
      BackedIff(w0, steps[..n]);
      if ClientsLast(w0, steps[..n]) && HalfPays(w, steps[n]) {
        var call := CallOf(w, steps[n]).value;
        ClientsLastBacked(w0, steps[..n]);
        ConfinedAlways(w0, steps);
        Always(w0, steps[..n]);
        FaithfulStep(w, steps[n]);
        ClientAfter(w, steps[n]);
        CT.InvKeptIff(w.client, call);
      }
    }
  }

  // ----- Settlement history ------------------------------------------------------------------------

  /** What the deals that the run has closed have brought account a. */
  function Gained(w0: World, steps: seq<Step>, a: AccountId): int
    decreases |steps|
  {
    if steps == [] then 0
    else
      var n := |steps| - 1;
      var w := Exec(w0, steps[..n]);
      Gained(w0, steps[..n], a) + Brought(VaultOf(BooksAt(w)), MoneyStep(w, steps[n]), a)
  }

  /** What a completion that pays only half moves to account a: the reserve of the client it names. */
  function HalfMoved(w: World, step: Step, a: AccountId): int {
    if HalfPays(w, step) then
      var m := CallOf(w, step).value.message;
      (if a == m.device then Reserved(w.client.accounts, m.client) else 0) - TakenBy(w, step, a)
    else 0
  }

  function HalfSum(w0: World, steps: seq<Step>, a: AccountId): int
    decreases |steps|
  {
    if steps == [] then 0
    else
      var n := |steps| - 1;
      HalfSum(w0, steps[..n], a) + HalfMoved(Exec(w0, steps[..n]), steps[n], a)
  }

  lemma HistoryStep(w: World, step: Step, a: AccountId)
    requires Confined(w) && CL.Sound(w.client) && Protocol(w) && Possible(w, step)
    ensures Total(Apply(w, step).client.accounts, a) ==
            Total(w.client.accounts, a) + Brought(VaultOf(BooksAt(w)), MoneyStep(w, step), a) + HalfMoved(w, step, a)
  {
    ClientAfter(w, step);
    if HalfPays(w, step) {
      CL.HalfPayMoves(w.client, CallOf(w, step).value);
      CL.TornIff(w.client, CallOf(w, step).value);
    } else if Overcommits(w, step) {
      CL.OvercommitMoves(w.client, CallOf(w, step).value);
      CL.TornIff(w.client, CallOf(w, step).value);
    } else {
      StepSettles(w, step);
      TotalChange(BooksAt(w), MoneyStep(w, step), BooksAt(Apply(w, step)), a);
    }
  }

  /** Settlement history of the client chain. In every run under H everybody has what it had at first and what
      the closed deals have brought it, and what completions that paid only half have moved. */
  lemma {:induction false} ClientHistory(w0: World, steps: seq<Step>, a: AccountId)
    requires Genesis(w0) && Lawful(w0, steps)
    ensures Total(Exec(w0, steps).client.accounts, a) ==
            Total(w0.client.accounts, a) + Gained(w0, steps, a) + HalfSum(w0, steps, a)
    decreases |steps|
  {
    if steps == [] {
    } else {
      var n := |steps| - 1;
      ClientHistory(w0, steps[..n], a);
      Always(w0, steps[..n]);
      ConfinedAlways(w0, steps[..n]);
      HistoryStep(Exec(w0, steps[..n]), steps[n], a);
    }
  }

  ghost predicate Accounted(w0: World, steps: seq<Step>, a: AccountId) {
    Total(Exec(w0, steps).client.accounts, a) == Total(w0.client.accounts, a) + Gained(w0, steps, a)
  }

  /** Throughout the run everybody has what it had at first and what the closed deals have brought it. */
  ghost predicate AccountedThroughout(w0: World, steps: seq<Step>)
    decreases |steps|
  {
    && (forall a :: Accounted(w0, steps, a))
    && (steps != [] ==> AccountedThroughout(w0, steps[..|steps| - 1]))
  }

  lemma {:induction false} NothingMoved(w0: World, steps: seq<Step>, a: AccountId)
    requires ClientsLast(w0, steps)
    ensures HalfSum(w0, steps, a) == 0
    decreases |steps|
  {
    if steps == [] {
    } else {
      NothingMoved(w0, steps[..|steps| - 1], a);
    }
  }

  /** The first completion that pays only half shows in what its device has. */
  lemma FirstHalfShows(w0: World, before: seq<Step>, steps: seq<Step>) returns (a: AccountId)
    requires steps != [] && before == steps[..|steps| - 1]
    requires ClientsLast(w0, before) && HalfPays(Exec(w0, before), steps[|steps| - 1])
    ensures HalfSum(w0, steps, a) > 0
  {
    a := CallOf(Exec(w0, before), steps[|steps| - 1]).value.message.device;
    NothingMoved(w0, before, a);
  }

  /** Under H the outcomes of the closed deals alone account for everybody's money throughout a run if and only
      if no completion pays only half. */
  lemma {:induction false} ClientHistoryIff(w0: World, steps: seq<Step>)
    requires Genesis(w0) && Lawful(w0, steps)
    ensures AccountedThroughout(w0, steps) <==> ClientsLast(w0, steps)
    decreases |steps|
  {
    if ClientsLast(w0, steps) {
      forall a ensures Accounted(w0, steps, a) {
        ClientHistory(w0, steps, a);
        NothingMoved(w0, steps, a);
      }
    }
    if steps == [] {
    } else {
      var before := steps[..|steps| - 1];
      ClientHistoryIff(w0, before);
      if ClientsLast(w0, before) && !ClientsLast(w0, steps) {
        var a := FirstHalfShows(w0, before, steps);
        ClientHistory(w0, steps, a);
        assert !Accounted(w0, steps, a);
      }
    }
  }

  // ----- Refinement and drain ----------------------------------------------------------------------

  /** In every run under H a step of the two chains is a step of the escrow machine on the client chain's money,
      the one its name suggests, if and only if it is neither a placement that overcommits nor a completion
      that pays only half. */
  lemma ClientRefinesEscrow(w0: World, steps: seq<Step>, step: Step)
    requires Genesis(w0) && Lawful(w0, steps)
    requires Possible(Exec(w0, steps), step)
    ensures var w := Exec(w0, steps);
            var b, b' := BooksAt(w), BooksAt(Apply(w, step));
            && (IsStep(b, b') <==> !Overcommits(w, step) && !HalfPays(w, step))
            && (IsStep(b, b') ==> Next(VaultOf(b), MoneyStep(w, step), VaultOf(b')))
  {
    var w := Exec(w0, steps);
    Always(w0, steps);
    ConfinedAlways(w0, steps);
    ClientAfter(w, step);
    if Overcommits(w, step) {
      CL.OvercommitMoves(w.client, CallOf(w, step).value);
    } else if HalfPays(w, step) {
      CL.HalfPayMoves(w.client, CallOf(w, step).value);
    } else {
      StepSettles(w, step);
    }
  }

  /** Once a completion has paid only half there is a ruined order, for good. */
  lemma {:induction false} RuinFollows(w0: World, steps: seq<Step>) returns (d: AccountId)
    requires Genesis(w0) && Lawful(w0, steps) && !ClientsLast(w0, steps)
    ensures Ruined(Exec(w0, steps), d)
    decreases |steps|
  {
    var n := |steps| - 1;
    var w := Exec(w0, steps[..n]);
    Always(w0, steps[..n]);
    ConfinedAlways(w0, steps[..n]);
    if HalfPays(w, steps[n]) {
      d := CallOf(w, steps[n]).value.message.device;
      HalfPayRuins(w, steps[n]);
    } else {
      d := RuinFollows(w0, steps[..n]);
      RuinedStays(w, steps[n], d);
    }
  }

  /** Drain of the client chain. In every run, with or without H and backed or not, with all open orders
      overdue, the clients can cancel whichever and in whatever order if and only if every client that is
      owed a penalty by another has something besides what can be taken from it as a device itself. */
  lemma ClientRunsDrainIff(w0: World, steps: seq<Step>)
    requires Genesis(w0) && CD.Overdue(Exec(w0, steps).client)
    ensures var c := Exec(w0, steps).client;
            (forall ds :: Lists(c.orders.Keys, ds) ==> CD.AllCancelled(c, ds)) <==>
            Drainable(BooksAt(Exec(w0, steps)))
  {
    ClientShape(w0, steps);
    ClientConservation(w0, steps);
    CD.DrainIff(Exec(w0, steps).client);
  }

  /** Drain in some order. In every run under H, with all open orders overdue, there is an order in which the
      clients can cancel them all if and only if every client that is owed a penalty by another exists and no
      ring of devices is locked. */
  lemma ClientRunsSomeOrderIff(w0: World, steps: seq<Step>)
    requires Genesis(w0) && Lawful(w0, steps)
    requires CD.Overdue(Exec(w0, steps).client)
    ensures var c := Exec(w0, steps).client;
            (exists ds :: Lists(c.orders.Keys, ds) && Covers(c.orders.Keys, ds) && CD.AllCancelled(c, ds)) <==>
            Unlocked(BooksAt(Exec(w0, steps)))
  {
    ConfinedAlways(w0, steps);
    BackedOrOwedInVain(w0, steps);
    CD.SomeOrderIff(Exec(w0, steps).client);
  }

  lemma BackedOrOwedInVain(w0: World, steps: seq<Step>)
    requires Genesis(w0) && Lawful(w0, steps)
    ensures ClientsLast(w0, steps) ==> Backed(BooksAt(Exec(w0, steps)))
    ensures !ClientsLast(w0, steps) ==> !Creditable(BooksAt(Exec(w0, steps)))
  {
    if ClientsLast(w0, steps) {
      ClientsLastBacked(w0, steps);
    } else {
      var b := BooksAt(Exec(w0, steps));
      var d := RuinFollows(w0, steps);
      assert d in b.open && Owes(b.open, d, b.open[d].client);
    }
  }

  /** Cancelling all orders leaves none and all the money. Under H all orders can be cancelled only if no
      completion has paid only half; then on reserve is left what was there at first, and no more than that
      if and only if no placement of the run has overcommitted. */
  lemma ClientRunsDrain(w0: World, steps: seq<Step>, ds: seq<AccountId>)
    requires Genesis(w0)
    requires var c := Exec(w0, steps).client;
             CD.Overdue(c) && Covers(c.orders.Keys, ds) && CD.AllCancelled(c, ds)
    ensures var end := CD.CancelAll(Exec(w0, steps).client, ds);
            && end.orders == map[]
            && Issuance(end.accounts) == Issuance(w0.client.accounts)
            && (Lawful(w0, steps) ==>
                  && ClientsLast(w0, steps)
                  && (forall a :: Reserved(end.accounts, a) >= Reserved(w0.client.accounts, a))
                  && ((forall a :: Reserved(end.accounts, a) == Reserved(w0.client.accounts, a)) <==>
                      NoneOvercommits(w0, steps)))
  {
    ClientShape(w0, steps);
    ClientConservation(w0, steps);
    CD.DrainedDry(Exec(w0, steps).client, ds);
    if Lawful(w0, steps) {
      CD.CancelAllIsRefundAll(Exec(w0, steps).client, ds);
      CD.AllFiled(Exec(w0, steps).client);
      LeavesNone(BooksAt(Exec(w0, steps)), ds);
      BackedOrOwedInVain(w0, steps);
      DrainedReserves(w0, steps, CD.CancelAll(Exec(w0, steps).client, ds).accounts);
    }
  }

  lemma DrainedReserves(w0: World, steps: seq<Step>, end: Accounts)
    requires Genesis(w0) && Lawful(w0, steps) && ClientsLast(w0, steps)
    requires forall a :: Reserved(end, a) == Slack(BooksAt(Exec(w0, steps)), a)
    ensures forall a :: Reserved(end, a) >= Reserved(w0.client.accounts, a)
    ensures (forall a :: Reserved(end, a) == Reserved(w0.client.accounts, a)) <==> NoneOvercommits(w0, steps)
  {
    ClientBacking(w0, steps);
    TakenIff(w0, steps);
    forall a ensures Expected(w0, steps, a) == Reserved(w0.client.accounts, a)
      && Reserved(end, a) >= Expected(w0, steps, a)
    {
      assert TakenFrom(w0, steps, a) == 0;
      assert Slack(BooksAt(Exec(w0, steps)), a) >= Expected(w0, steps, a);
    }
    forall a ensures Reserved(end, a) == Reserved(w0.client.accounts, a) <==>
                     Slack(BooksAt(Exec(w0, steps)), a) == Expected(w0, steps, a) {
      assert TakenFrom(w0, steps, a) == 0;
    }
  }
}
