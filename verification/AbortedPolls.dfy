/** What a poll that stops at an unpaid forced close leaves behind: it has stored what it read, and the next poll
    reads it again. */
module AbortedPolls {
  import opened Collections
  import opened Wrappers
  import opened ReceiverChannel
  import opened ReceiverSpec
  import opened ReceiverSafety
  import opened ChainLog
  import opened LogAgreement

  predicate KeepsDeposit(step: Step, k: Key) {
    FromChain(step) && step != Settled(k) && !(step.Topup? && step.k == k)
  }

  predicate Closes(step: Step) { step.CloseRequested? || step.ForceClose? }

  lemma StepKeepsDeposit(env: Env, cs: Channels, step: Step, k: Key)
    requires Confirmed(cs, k) && KeepsDeposit(step, k)
    ensures var after := Apply(env, cs, step).channels;
            && Confirmed(after, k) && after[k].deposit == cs[k].deposit
            && (!Closes(step) ==> after[k].state == cs[k].state)
  {
    if step.k != k {
      OnlyItsChannelChanges(env, cs, step, k);
    }
  }

  /** Relaying no top-up of k keeps its deposit; relaying no close either keeps its state. */
  lemma {:induction false} RelayKeepsDeposit(env: Env, cs: Channels, steps: seq<Step>, k: Key)
    requires Confirmed(cs, k) && forall s :: s in steps ==> KeepsDeposit(s, k)
    ensures var after := Relay(env, cs, steps).channels;
            && Confirmed(after, k) && after[k].deposit == cs[k].deposit
            && ((forall s :: s in steps ==> !Closes(s)) ==> after[k].state == cs[k].state)
  {
    if steps != [] {
      var before := steps[..|steps| - 1];
      SplitLast([], steps);
      RelayKeepsDeposit(env, cs, before, k);
      StepKeepsDeposit(env, Relay(env, cs, before).channels, steps[|steps| - 1], k);
    }
  }

  lemma MoreKeepsDeposit(env: Env, p: Progress, steps: seq<Step>, k: Key)
    requires Confirmed(p.channels, k) && forall s :: s in steps ==> KeepsDeposit(s, k)
    ensures var after := More(env, p, steps).channels;
            && Confirmed(after, k) && after[k].deposit == p.channels[k].deposit
            && ((forall s :: s in steps ==> !Closes(s)) ==> after[k].state == p.channels[k].state)
  {
    RelayKeepsDeposit(env, p.channels, steps, k);
  }

  /** Relaying top-ups adds those of k, if k is open. */
  lemma {:induction false} AdditionsRaiseDeposit(env: Env, cs: Channels, list: seq<Entry<Addition>>, k: Key)
    requires Confirmed(cs, k) && Relay(env, cs, Additions(list)).result.Ok?
    ensures var after := Relay(env, cs, Additions(list)).channels;
            && Confirmed(after, k) && after[k].state == cs[k].state
            && after[k].deposit == cs[k].deposit + (if cs[k].IsClosed() then 0 else Added(list, k))
  {
    if list != [] {
      var before, t := list[..|list| - 1], list[|list| - 1].event;
      AdditionsLast(env, cs, list);
      AdditionsRaiseDeposit(env, cs, before, k);
      if t.k != k {
        OnlyItsChannelChanges(env, Relay(env, cs, Additions(before)).channels, Topup(t.k, t.tx, t.added), k);
      }
    }
  }

  lemma FirstPassesKeep(env: Env, p: Parts, cs: Channels, k: Key)
    requires Confirmed(cs, k)
    ensures var after := Pass3(env, cs, p).channels;
            Confirmed(after, k) && after[k].deposit == cs[k].deposit && after[k].state == cs[k].state
  {
    RelayKeepsDeposit(env, cs, UnconfirmedOpenings(p.oSeen), k);
    MoreKeepsDeposit(env, Pass1(env, cs, p), Openings(p.oNew), k);
    MoreKeepsDeposit(env, Pass2(env, cs, p), UnconfirmedAdditions(p.aSeen), k);
  }

  /** After the six passes, finished or not, an unsettled channel has its deposit plus, if it was open, its top-ups. */
  lemma DepositAfter(env: Env, p: Parts, cs: Channels, k: Key)
    requires Confirmed(cs, k) && !IsSettled(p.sNew, k)
    requires Pass3(env, cs, p).result.Ok? && Pass4(env, cs, p).result.Ok?
    ensures var after := Pass6(env, cs, p).channels;
            Confirmed(after, k) && after[k].deposit == cs[k].deposit + (if cs[k].IsClosed() then 0 else Added(p.aNew, k))
  {
    FirstPassesKeep(env, p, cs, k);
    AdditionsRaiseDeposit(env, Pass3(env, cs, p).channels, p.aNew, k);
    MoreKeepsDeposit(env, Pass4(env, cs, p), Settlements(p.sNew), k);
    MoreKeepsDeposit(env, Pass5(env, cs, p), CloseRequests(p.closes), k);
  }

  /** Reading the stretch again would do no harm: the channels opened in it are those settled in it, and nothing was
      added to an open channel. */
  ghost predicate Harmless(cs: Channels, p: Parts) {
    && (forall k :: IsOpened(p.oNew, k) <==> IsSettled(p.sNew, k))
    && (forall k :: Confirmed(cs, k) && !cs[k].IsClosed() ==> Added(p.aNew, k) == 0)
  }

  ghost predicate AllReady(p: Parts) {
    && OpeningsReady(p) && SeenReady(p) && AdditionsReady(p) && SettlementsReady(p)
    && forall k :: IsOpened(p.oNew, k) ==> !IsOpened(p.o, k)
  }

  lemma OpenedInEither(p: Parts, k: Key)
    ensures IsOpened(p.o + p.oNew, k) <==> IsOpened(p.o, k) || IsOpened(p.oNew, k)
    ensures IsSettled(p.s + p.sNew, k) <==> IsSettled(p.s, k) || IsSettled(p.sNew, k)
  {
    if IsOpened(p.o, k) { var e :| e in p.o && KeyOf(e) == k; assert e in p.o + p.oNew; }
    if IsOpened(p.oNew, k) { var e :| e in p.oNew && KeyOf(e) == k; assert e in p.o + p.oNew; }
    if IsSettled(p.s, k) { var e :| e in p.s && e.event == k; assert e in p.s + p.sNew; }
    if IsSettled(p.sNew, k) { var e :| e in p.sNew && e.event == k; assert e in p.s + p.sNew; }
  }

  /** The six passes and what they leave. */
  lemma AfterPasses(env: Env, p: Parts, cs: Channels)
    requires Agrees(p.o, p.a, p.s, cs) && Inv(env, cs) && AllReady(p)
    ensures Pass3(env, cs, p).result.Ok? && Pass4(env, cs, p).result.Ok?
    ensures Agrees(p.o + p.oNew, p.a + p.aNew, p.s + p.sNew, Pass6(env, cs, p).channels)
  {
    OpeningPasses(env, p, cs);
    SeenPass(env, p, cs);
    NewAdditionsPass(env, p, cs);
    PassesAgree(env, p, cs);
  }

  /** If the store still agrees with the old stretch of the log, nothing in the new one counted. */
  lemma AgreesStillOnlyIf(env: Env, p: Parts, cs: Channels, k: Key)
    requires Agrees(p.o, p.a, p.s, cs) && Inv(env, cs) && AllReady(p)
    requires Agrees(p.o, p.a, p.s, Pass6(env, cs, p).channels)
    ensures IsOpened(p.oNew, k) <==> IsSettled(p.sNew, k)
    ensures Confirmed(cs, k) && !cs[k].IsClosed() ==> Added(p.aNew, k) == 0
  {
    AfterPasses(env, p, cs);
    OpenedInEither(p, k);
    if Confirmed(cs, k) && !cs[k].IsClosed() {
      assert Funded(p.o, p.a, k, cs[k]);
      DepositAfter(env, p, cs, k);
      assert Funded(p.o, p.a, k, Pass6(env, cs, p).channels[k]);
    }
  }

  lemma SameOpening(p: Parts, k: Key)
    requires OpenedOnce(p.o + p.oNew) && IsOpened(p.o, k)
    ensures OpeningDeposit(p.o + p.oNew, k) == OpeningDeposit(p.o, k)
  {
    var e :| e in p.o && KeyOf(e) == k;
    assert e in p.o + p.oNew;
    assert OpenedOnce(p.o) by {
      assert forall x :: x in p.o ==> x in p.o + p.oNew;
    }
    OpeningDepositIs(p.o, e);
    OpeningDepositIs(p.o + p.oNew, e);
  }

  lemma FundedStill(env: Env, p: Parts, cs: Channels, k: Key)
    requires Agrees(p.o, p.a, p.s, cs) && Inv(env, cs) && AllReady(p) && Harmless(cs, p)
    requires Confirmed(cs, k) && !IsSettled(p.sNew, k)
    ensures var after := Pass6(env, cs, p).channels; Confirmed(after, k) && Funded(p.o, p.a, k, after[k])
  {
    AfterPasses(env, p, cs);
    var after := Pass6(env, cs, p).channels;
    assert Funded(p.o, p.a, k, cs[k]);
    DepositAfter(env, p, cs, k);
    assert Funded(p.o + p.oNew, p.a + p.aNew, k, after[k]);
    SameOpening(p, k);
    AddedAppend(p.a, p.aNew, k);
    assert forall tx :: Counted(p.a, k, tx) ==> Counted(p.a + p.aNew, k, tx) by {
      assert forall e :: e in p.a ==> e in p.a + p.aNew;
    }
  }

  /** After the six passes the store still agrees with the old stretch of the log if and only if nothing in the new one
      counted. */
  lemma AgreesStillIff(env: Env, p: Parts, cs: Channels)
    requires Agrees(p.o, p.a, p.s, cs) && Inv(env, cs) && AllReady(p)
    ensures Agrees(p.o, p.a, p.s, Pass6(env, cs, p).channels) <==> Harmless(cs, p)
  {
    var after := Pass6(env, cs, p).channels;
    if Agrees(p.o, p.a, p.s, after) {
      forall k
        ensures IsOpened(p.oNew, k) <==> IsSettled(p.sNew, k)
        ensures Confirmed(cs, k) && !cs[k].IsClosed() ==> Added(p.aNew, k) == 0
      {
        AgreesStillOnlyIf(env, p, cs, k);
      }
    }
    if Harmless(cs, p) {
      AfterPasses(env, p, cs);
      forall k
        ensures Confirmed(after, k) <==> IsOpened(p.o, k) && !IsSettled(p.s, k)
        ensures Confirmed(after, k) ==> Funded(p.o, p.a, k, after[k])
      {
        OpenedInEither(p, k);
        if Confirmed(cs, k) && !IsSettled(p.sNew, k) {
          FundedStill(env, p, cs, k);
        }
      }
    }
  }

  lemma WellFormedIsReady(logs: Logs, w: Window)
    requires WellFormed(logs) && OneBehind(w)
    ensures AllReady(PartsOf(logs, w))
  {
    OpeningsAreReady(logs, w);
    SeenAreReady(logs, w);
    AdditionsAreReady(logs, w);
    SettlementsAreReady(logs, w);
    BetweenHas(logs.openings, 0, w.c);
    BetweenHas(logs.openings, w.c, w.c');
  }

  /** For a whole update of a well-formed log: the store agrees with the log up to the old confirmed head afterwards if
      and only if nothing counted in what was read. */
  lemma UpdateAgreesStillIff(env: Env, logs: Logs, w: Window, cs: Channels)
    requires WellFormed(logs) && OneBehind(w) && AgreesUpto(logs, w.c, cs) && Inv(env, cs)
    ensures AgreesUpto(logs, w.c, Pass6(env, cs, PartsOf(logs, w)).channels) <==> Harmless(cs, PartsOf(logs, w))
  {
    WellFormedIsReady(logs, w);
    AgreesStillIff(env, PartsOf(logs, w), cs);
  }

  /** Relaying a top-up of one channel and an unpaid forced close of another stops after the top-up is stored. */
  lemma StopsAfterTopup(env: Env, cs: Channels, p: Parts, k: Key, tx: TxHash, added: nat, closing: CloseRequest)
    requires p.oSeen == [] && p.oNew == [] && p.aSeen == [] && p.sNew == []
    requires |p.aNew| == 1 && p.aNew[0].event == Addition(k, tx, added)
    requires |p.closes| == 1 && p.closes[0].event == closing && closing.k != k
    requires Inv(env, cs) && Confirmed(cs, k) && cs[k].state == OPEN && Unpaid(cs, closing)
    ensures var p6 := Pass6(env, cs, p);
            && p6.result == Err(InsufficientBalance)
            && Inv(env, p6.channels) && Confirmed(p6.channels, k) && p6.channels[k].state == OPEN
            && p6.channels[k].deposit == cs[k].deposit + added
            && Unpaid(p6.channels, closing)
  {
    var topup, close := Topup(k, tx, added), CloseStep(closing);
    assert Good(env, closing.k, cs[closing.k]);
    RelayOnly(env, cs, topup);
    var after := Apply(env, cs, topup);
    OnlyItsChannelChanges(env, cs, topup, closing.k);
    RelayOnly(env, after.channels, close);
    OnlyItsChannelChanges(env, after.channels, close, k);
    assert Additions(p.aNew) == [topup] && CloseRequests(p.closes) == [close];
    PassesKeepInv(env, cs, p);
  }

  lemma RelayOnly(env: Env, cs: Channels, step: Step)
    ensures Relay(env, cs, [step]) == RelayOne(env, Progress(cs, [], false, Ok(Done)), step)
  {
    assert [step][..0] == [];
  }
}
