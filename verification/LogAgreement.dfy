/** The stored deposits agree with the contract's log: what each pass of an update keeps. */
module LogAgreement {
  import opened Collections
  import opened Wrappers
  import opened ReceiverChannel
  import opened ReceiverSpec
  import opened ReceiverSafety
  import opened ChainLog

  predicate IsOpened(openings: seq<Entry<Opening>>, k: Key) {
    exists e :: e in openings && KeyOf(e) == k
  }

  /** The deposit k was opened with. */
  function OpeningDeposit(openings: seq<Entry<Opening>>, k: Key): nat {
    if openings == [] then 0
    else
      var e := openings[|openings| - 1];
      if KeyOf(e) == k then e.event.deposit else OpeningDeposit(openings[..|openings| - 1], k)
  }

  /** The sum of the top-ups of k. */
  function Added(additions: seq<Entry<Addition>>, k: Key): nat {
    if additions == [] then 0
    else
      var e := additions[|additions| - 1];
      Added(additions[..|additions| - 1], k) + (if e.event.k == k then e.event.added else 0)
  }

  predicate Counted(additions: seq<Entry<Addition>>, k: Key, tx: TxHash) {
    exists e :: e in additions && e.event.k == k && e.event.tx == tx
  }

  predicate IsSettled(settlements: seq<Entry<Key>>, k: Key) {
    exists e :: e in settlements && e.event == k
  }

  ghost predicate Funded(openings: seq<Entry<Opening>>, additions: seq<Entry<Addition>>, k: Key, c: Channel) {
    var opening, added := OpeningDeposit(openings, k), Added(additions, k);
    && opening <= c.deposit <= opening + added
    && (c.state == OPEN ==>
          c.deposit == opening + added && forall tx :: tx in c.topups ==> !Counted(additions, k, tx))
  }

  /** The confirmed channels are exactly those opened and not settled in the log, each open one holds its
      opening deposit plus all its top-ups, and no top-up is both pending and counted. */
  ghost predicate Agrees(openings: seq<Entry<Opening>>, additions: seq<Entry<Addition>>, settlements: seq<Entry<Key>>,
                         cs: Channels) {
    && (forall k :: Confirmed(cs, k) <==> IsOpened(openings, k) && !IsSettled(settlements, k))
    && (forall k :: Confirmed(cs, k) ==> Funded(openings, additions, k, cs[k]))
  }

  /** Entries for the same channel are the same opening. */
  ghost predicate OpenedOnce(openings: seq<Entry<Opening>>) {
    forall e, e' :: e in openings && e' in openings && KeyOf(e) == KeyOf(e') ==> e == e'
  }

  ghost predicate SettledOnce(settlements: seq<Entry<Key>>) {
    forall i, j :: 0 <= i < j < |settlements| ==> settlements[i].event != settlements[j].event
  }

  /** What the contract guarantees of its log: a channel is opened once, then topped up, then settled once,
      and a transaction is in one block. */
  ghost predicate WellFormed(logs: Logs) {
    && OpenedOnce(logs.openings)
    && (forall e :: e in logs.openings ==> e.block > 0)
    && (forall e :: e in logs.additions ==> IsOpened(logs.openings, e.event.k) && e.event.k.openBlock <= e.block)
    && (forall e, s :: e in logs.additions && s in logs.settlements && s.event == e.event.k ==> e.block <= s.block)
    && (forall e, e' :: e in logs.additions && e' in logs.additions && e.event.tx == e'.event.tx ==> e.block == e'.block)
    && SettledOnce(logs.settlements)
    && (forall s :: s in logs.settlements ==> IsOpened(logs.openings, s.event) && s.event.openBlock <= s.block)
  }

  // Facts about logs

  lemma {:induction false} OpeningDepositIs(openings: seq<Entry<Opening>>, e: Entry<Opening>)
    requires OpenedOnce(openings) && e in openings
    ensures OpeningDeposit(openings, KeyOf(e)) == e.event.deposit
  {
    var last, before := openings[|openings| - 1], openings[..|openings| - 1];
    if KeyOf(last) == KeyOf(e) {
      assert last in openings;
    } else {
      assert openings == before + [last];
      OpeningDepositIs(before, e);
    }
  }

  lemma {:induction false} AddedNone(additions: seq<Entry<Addition>>, k: Key)
    requires forall e :: e in additions ==> e.event.k != k
    ensures Added(additions, k) == 0
  {
    if additions != [] {
      AddedNone(additions[..|additions| - 1], k);
    }
  }

  lemma AddedSnoc(additions: seq<Entry<Addition>>, e: Entry<Addition>, k: Key)
    ensures Added(additions + [e], k) == Added(additions, k) + (if e.event.k == k then e.event.added else 0)
  {
    assert (additions + [e])[..|additions|] == additions;
  }

  lemma {:induction false} AddedAppend(a: seq<Entry<Addition>>, b: seq<Entry<Addition>>, k: Key)
    ensures Added(a + b, k) == Added(a, k) + Added(b, k)
  {
    if b == [] {
      assert a + b == a;
    } else {
      var shorter, last := b[..|b| - 1], b[|b| - 1];
      assert a + b == (a + shorter) + [last] && b == shorter + [last];
      AddedAppend(a, shorter, k);
      AddedSnoc(a + shorter, last, k);
      AddedSnoc(shorter, last, k);
    }
  }

  /** Top-ups up to a later block are those up to an earlier one plus those in between. */
  lemma {:induction false} AddedSplit(log: seq<Entry<Addition>>, c: nat, c': nat, k: Key)
    requires c <= c'
    ensures Added(Between(log, 0, c'), k) == Added(Between(log, 0, c), k) + Added(Between(log, c, c'), k)
  {
    if log != [] {
      var e, before := log[|log| - 1], log[..|log| - 1];
      AddedSplit(before, c, c', k);
      AddedSnoc(Between(before, 0, c'), e, k);
      AddedSnoc(Between(before, 0, c), e, k);
      AddedSnoc(Between(before, c, c'), e, k);
    }
  }

  lemma {:induction false} BetweenSettledOnce(log: seq<Entry<Key>>, lo: nat, hi: nat)
    requires SettledOnce(log)
    ensures SettledOnce(Between(log, lo, hi))
  {
    if log != [] {
      var e, before := log[|log| - 1], log[..|log| - 1];
      BetweenSettledOnce(before, lo, hi);
      BetweenHas(before, lo, hi);
      forall x | x in Between(before, lo, hi)
        ensures x.event != e.event
      {
        assert x in before;
      }
    }
  }

  /** Agreement depends only on which entries the logs hold and on the sums of the top-ups. */
  lemma AgreesWithSame(o: seq<Entry<Opening>>, a: seq<Entry<Addition>>, s: seq<Entry<Key>>,
                       o': seq<Entry<Opening>>, a': seq<Entry<Addition>>, s': seq<Entry<Key>>, cs: Channels)
    requires Agrees(o, a, s, cs) && OpenedOnce(o)
    requires forall e :: e in o <==> e in o'
    requires forall e :: e in a <==> e in a'
    requires forall e :: e in s <==> e in s'
    requires forall k :: Added(a, k) == Added(a', k)
    ensures Agrees(o', a', s', cs)
  {
    forall k | Confirmed(cs, k)
      ensures Funded(o', a', k, cs[k])
    {
      var e :| e in o && KeyOf(e) == k;
      OpeningDepositIs(o, e);
      OpeningDepositIs(o', e);
    }
  }

  // The six passes

  lemma {:induction false} RelayKeepsInv(env: Env, cs: Channels, steps: seq<Step>)
    requires Inv(env, cs)
    ensures Inv(env, Relay(env, cs, steps).channels)
  {
    if steps != [] {
      var before := steps[..|steps| - 1];
      RelayKeepsInv(env, cs, before);
      StepKeepsInv(env, Relay(env, cs, before).channels, steps[|steps| - 1]);
    }
  }

  lemma UnconfirmedOpeningKeeps(o: seq<Entry<Opening>>, a: seq<Entry<Addition>>, s: seq<Entry<Key>>, cs: Channels,
                                k: Key, deposit: nat)
    requires Agrees(o, a, s, cs) && k.openBlock > 0
    ensures var e := UnconfirmedEventOpened(cs, k, deposit);
            e.result == Ok(Done) && Agrees(o, a, s, e.channels) && e.channels.Keys == cs.Keys + {k}
  {
    var after := UnconfirmedEventOpened(cs, k, deposit).channels;
    assert forall j :: Confirmed(after, j) <==> Confirmed(cs, j);
    assert forall j :: Confirmed(cs, j) ==> after[j] == cs[j];
  }

  /** Pass 1 only adds unconfirmed channels. */
  lemma {:induction false} UnconfirmedOpeningsPass(env: Env, o: seq<Entry<Opening>>, a: seq<Entry<Addition>>,
                                                   s: seq<Entry<Key>>,
                                                   cs: Channels, list: seq<Entry<Opening>>)
    requires Agrees(o, a, s, cs) && forall e :: e in list ==> e.block > 0
    ensures var p := Relay(env, cs, UnconfirmedOpenings(list));
            && p.result == Ok(Done)
            && Agrees(o, a, s, p.channels)
            && cs.Keys <= p.channels.Keys
            && forall e :: e in list ==> KeyOf(e) in p.channels
  {
    if list != [] {
      var e, before := list[|list| - 1], list[..|list| - 1];
      SplitLast([], list);
      UnconfirmedOpeningsPass(env, o, a, s, cs, before);
      assert UnconfirmedOpenings(list)[..|list| - 1] == UnconfirmedOpenings(before);
      UnconfirmedOpeningKeeps(o, a, s, Relay(env, cs, UnconfirmedOpenings(before)).channels, KeyOf(e), e.event.deposit);
    }
  }

  lemma OpeningKeeps(o: seq<Entry<Opening>>, a: seq<Entry<Addition>>, s: seq<Entry<Key>>, cs: Channels,
                     e: Entry<Opening>)
    requires Agrees(o, a, s, cs) && e.block > 0 && OpenedOnce(o + [e])
    requires !IsSettled(s, KeyOf(e)) && forall x :: x in a ==> x.event.k != KeyOf(e)
    ensures var r := EventOpened(cs, KeyOf(e), e.event.deposit);
            r.result == Ok(Done) && Agrees(o + [e], a, s, r.channels) && r.channels.Keys == cs.Keys + {KeyOf(e)}
  {
    var k, o' := KeyOf(e), o + [e];
    var after := EventOpened(cs, k, e.event.deposit).channels;
    assert o'[..|o|] == o && e in o';
    assert forall j :: IsOpened(o', j) <==> IsOpened(o, j) || j == k;
    forall j | Confirmed(after, j)
      ensures Funded(o', a, j, after[j])
    {
      if j != k {
        assert OpeningDeposit(o', j) == OpeningDeposit(o, j);
        assert after[j] == cs[j];
      } else {
        AddedNone(a, k);
        if Confirmed(cs, k) {
          var e' :| e' in o && KeyOf(e') == k;
          assert e' in o';
          OpeningDepositIs(o, e');
        }
      }
    }
  }

  lemma OpeningsLast(env: Env, cs: Channels, list: seq<Entry<Opening>>)
    requires list != []
    ensures var e, p := list[|list| - 1], Relay(env, cs, Openings(list[..|list| - 1]));
            Relay(env, cs, Openings(list)) ==
            if p.result.Err? then p else RelayOne(env, p, Opened(KeyOf(e), e.event.deposit))
  {
    assert Openings(list)[..|list| - 1] == Openings(list[..|list| - 1]);
  }

  /** Pass 2 stores every newly confirmed channel with its opening deposit. */
  lemma {:induction false} OpeningsPass(env: Env, o: seq<Entry<Opening>>, a: seq<Entry<Addition>>, s: seq<Entry<Key>>,
                                        cs: Channels, list: seq<Entry<Opening>>)
    requires Agrees(o, a, s, cs) && OpenedOnce(o + list)
    requires forall e :: e in list ==> e.block > 0 && !IsSettled(s, KeyOf(e))
    requires forall e, x :: e in list && x in a ==> x.event.k != KeyOf(e)
    ensures var p := Relay(env, cs, Openings(list));
            && p.result == Ok(Done)
            && Agrees(o + list, a, s, p.channels)
            && cs.Keys <= p.channels.Keys
  {
    if list == [] {
      assert o + list == o;
    } else {
      var e, before := list[|list| - 1], list[..|list| - 1];
      SplitLast(o, list);
      OpeningsPass(env, o, a, s, cs, before);
      OpeningsLast(env, cs, list);
      OpeningKeeps(o + before, a, s, Relay(env, cs, Openings(before)).channels, e);
    }
  }

  lemma UnconfirmedAdditionKeeps(o: seq<Entry<Opening>>, a: seq<Entry<Addition>>, s: seq<Entry<Key>>, cs: Channels,
                                 t: Addition)
    requires Agrees(o, a, s, cs) && t.k in cs && !Counted(a, t.k, t.tx)
    ensures var r := UnconfirmedEventTopup(cs, t.k, t.tx, t.added);
            r.result == Ok(Done) && Agrees(o, a, s, r.channels) && r.channels.Keys == cs.Keys
  {
    var after := UnconfirmedEventTopup(cs, t.k, t.tx, t.added).channels;
    assert forall j :: Confirmed(after, j) <==> Confirmed(cs, j);
    forall j | Confirmed(after, j)
      ensures Funded(o, a, j, after[j])
    {
      assert Funded(o, a, j, cs[j]);
    }
  }

  /** Pass 3 registers top-ups that are not counted yet; every channel they name is stored. */
  lemma {:induction false} UnconfirmedAdditionsPass(env: Env, o: seq<Entry<Opening>>, a: seq<Entry<Addition>>,
                                                    s: seq<Entry<Key>>,
                                                    cs: Channels, list: seq<Entry<Addition>>)
    requires Agrees(o, a, s, cs)
    requires forall e :: e in list ==> e.event.k in cs && !Counted(a, e.event.k, e.event.tx)
    ensures var p := Relay(env, cs, UnconfirmedAdditions(list));
            p.result == Ok(Done) && Agrees(o, a, s, p.channels) && p.channels.Keys == cs.Keys
  {
    if list != [] {
      var e, before := list[|list| - 1], list[..|list| - 1];
      UnconfirmedAdditionsPass(env, o, a, s, cs, before);
      assert UnconfirmedAdditions(list)[..|list| - 1] == UnconfirmedAdditions(before);
      UnconfirmedAdditionKeeps(o, a, s, Relay(env, cs, UnconfirmedAdditions(before)).channels, e.event);
    }
  }

  lemma AdditionKeeps(o: seq<Entry<Opening>>, a: seq<Entry<Addition>>, s: seq<Entry<Key>>, cs: Channels,
                      e: Entry<Addition>)
    requires Agrees(o, a, s, cs) && IsOpened(o, e.event.k) && !IsSettled(s, e.event.k)
    ensures var r := EventTopup(cs, e.event.k, e.event.tx, e.event.added);
            r.result == Ok(Done) && Agrees(o, a + [e], s, r.channels)
  {
    var k, tx, a' := e.event.k, e.event.tx, a + [e];
    var after := EventTopup(cs, k, tx, e.event.added).channels;
    assert forall j :: Confirmed(after, j) <==> Confirmed(cs, j);
    assert forall x :: x in a' <==> x in a || x == e;
    forall j | Confirmed(after, j)
      ensures Funded(o, a', j, after[j])
    {
      assert Funded(o, a, j, cs[j]);
      AddedSnoc(a, e, j);
      assert forall x :: Counted(a', j, x) ==> Counted(a, j, x) || (j == k && x == tx);
    }
  }

  lemma AdditionsLast(env: Env, cs: Channels, list: seq<Entry<Addition>>)
    requires list != []
    ensures var t, p := list[|list| - 1].event, Relay(env, cs, Additions(list[..|list| - 1]));
            Relay(env, cs, Additions(list)) == if p.result.Err? then p else RelayOne(env, p, Topup(t.k, t.tx, t.added))
  {
    assert Additions(list)[..|list| - 1] == Additions(list[..|list| - 1]);
  }

  /** Pass 4 adds the newly confirmed top-ups and strikes them off the pending ones. */
  lemma {:induction false} AdditionsPass(env: Env, o: seq<Entry<Opening>>, a: seq<Entry<Addition>>, s: seq<Entry<Key>>,
                                         cs: Channels, list: seq<Entry<Addition>>)
    requires Agrees(o, a, s, cs)
    requires forall e :: e in list ==> IsOpened(o, e.event.k) && !IsSettled(s, e.event.k)
    ensures var p := Relay(env, cs, Additions(list));
            p.result == Ok(Done) && Agrees(o, a + list, s, p.channels)
  {
    if list == [] {
      assert a + list == a;
    } else {
      var e, before := list[|list| - 1], list[..|list| - 1];
      SplitLast(a, list);
      AdditionsPass(env, o, a, s, cs, before);
      AdditionsLast(env, cs, list);
      AdditionKeeps(o, a + before, s, Relay(env, cs, Additions(before)).channels, e);
    }
  }

  lemma SettlementKeeps(o: seq<Entry<Opening>>, a: seq<Entry<Addition>>, s: seq<Entry<Key>>, cs: Channels,
                        e: Entry<Key>)
    requires Agrees(o, a, s, cs) && e.event.openBlock > 0 && IsOpened(o, e.event) && !IsSettled(s, e.event)
    ensures var r := EventSettled(cs, e.event);
            r.result == Ok(Done) && Agrees(o, a, s + [e], r.channels)
  {
    var after := EventSettled(cs, e.event).channels;
    assert Confirmed(cs, e.event);
    assert forall x :: x in s + [e] <==> x in s || x == e;
    assert forall j :: IsSettled(s + [e], j) <==> IsSettled(s, j) || j == e.event;
    assert forall j :: Confirmed(after, j) <==> Confirmed(cs, j) && j != e.event;
  }

  /** Pass 5 forgets settled channels; each of them is stored. */
  lemma {:induction false} SettlementsPass(env: Env, o: seq<Entry<Opening>>, a: seq<Entry<Addition>>,
                                           s: seq<Entry<Key>>,
                                           cs: Channels, list: seq<Entry<Key>>)
    requires Agrees(o, a, s, cs) && SettledOnce(list)
    requires forall e :: e in list ==> e.event.openBlock > 0 && IsOpened(o, e.event) && !IsSettled(s, e.event)
    ensures var p := Relay(env, cs, Settlements(list));
            p.result == Ok(Done) && Agrees(o, a, s + list, p.channels)
  {
    if list == [] {
      assert s + list == s;
    } else {
      var e, before := list[|list| - 1], list[..|list| - 1];
      SplitLast(s, list);
      SettlementsPass(env, o, a, s, cs, before);
      assert Settlements(list)[..|list| - 1] == Settlements(before);
      assert !IsSettled(s + before, e.event);
      SettlementKeeps(o, a, s + before, Relay(env, cs, Settlements(before)).channels, e);
    }
  }

  predicate Local(step: Step) { step.Close? || step.ForceClose? || step.Sign? || step.Pay? }

  /** Nothing Agrees speaks about differs, except that open channels may have been closed. */
  ghost predicate SameFunds(cs: Channels, after: Channels) {
    forall k :: SameFundsOf(cs, after, k)
  }

  ghost predicate SameFundsOf(cs: Channels, after: Channels, k: Key) {
    && (Confirmed(after, k) <==> Confirmed(cs, k))
    && (Confirmed(cs, k) ==>
          && after[k].deposit == cs[k].deposit
          && after[k].topups == cs[k].topups
          && (after[k].state == OPEN ==> cs[k].state == OPEN))
  }

  lemma SameFundsAgrees(o: seq<Entry<Opening>>, a: seq<Entry<Addition>>, s: seq<Entry<Key>>, cs: Channels,
                        after: Channels)
    requires Agrees(o, a, s, cs) && SameFunds(cs, after)
    ensures Agrees(o, a, s, after)
  {
    forall k
      ensures Confirmed(after, k) <==> Confirmed(cs, k)
    {
      assert SameFundsOf(cs, after, k);
    }
    forall k | Confirmed(after, k)
      ensures Funded(o, a, k, after[k])
    {
      assert SameFundsOf(cs, after, k);
      assert Funded(o, a, k, cs[k]);
    }
  }

  lemma ClosingKeepsFunds(env: Env, cs: Channels, step: Step)
    requires step.CloseRequested? || Local(step)
    ensures SameFunds(cs, Apply(env, cs, step).channels)
  {
    var after := Apply(env, cs, step).channels;
    forall k
      ensures SameFundsOf(cs, after, k)
    {
      if k == step.k {
        ClosingKeepsOwnFunds(env, cs, step);
      } else {
        OnlyItsChannelChanges(env, cs, step, k);
      }
    }
  }

  lemma ClosingKeepsOwnFunds(env: Env, cs: Channels, step: Step)
    requires step.CloseRequested? || Local(step)
    ensures SameFundsOf(cs, Apply(env, cs, step).channels, step.k)
  {
  }

  /** With proofs behind all balances, closing can only fail for lack of funds. */
  lemma ClosingSucceeds(env: Env, cs: Channels, step: Step)
    requires Inv(env, cs) && (step.CloseRequested? || step.ForceClose?)
    ensures Apply(env, cs, step).result in {Ok(Done), Err(InsufficientBalance)}
  {
    if Confirmed(cs, step.k) {
      assert Good(env, step.k, cs[step.k]);
    }
  }

  /** Pass 6 closes channels. */
  lemma {:induction false} CloseRequestsPass(env: Env, o: seq<Entry<Opening>>, a: seq<Entry<Addition>>,
                                             s: seq<Entry<Key>>,
                                             cs: Channels, list: seq<Entry<CloseRequest>>)
    requires Agrees(o, a, s, cs) && Inv(env, cs)
    ensures var p := Relay(env, cs, CloseRequests(list));
            (p.result == Ok(Done) || p.result == Err(InsufficientBalance)) && Agrees(o, a, s, p.channels)
  {
    if list != [] {
      var e, before := list[|list| - 1], list[..|list| - 1];
      CloseRequestsPass(env, o, a, s, cs, before);
      assert CloseRequests(list)[..|list| - 1] == CloseRequests(before);
      RelayKeepsInv(env, cs, CloseRequests(before));
      var now, step := Relay(env, cs, CloseRequests(before)).channels, CloseStep(e.event);
      ClosingKeepsFunds(env, now, step);
      ClosingSucceeds(env, now, step);
      SameFundsAgrees(o, a, s, now, Apply(env, now, step).channels);
    }
  }

  // When the last pass completes

  /** A forced close of a channel with a balance that the receiver cannot pay for. */
  predicate Unpaid(cs: Channels, r: CloseRequest) {
    r.settleTimeout.None? && !r.canSend && BalanceOf(cs, r.k) > 0
  }

  /** Closing changes no balance, and its step stops the relay exactly when it is unpaid. */
  lemma CloseStepCompletesIff(env: Env, p: Progress, r: CloseRequest, k: Key)
    requires Inv(env, p.channels)
    ensures var after := RelayOne(env, p, CloseStep(r));
            (after.result.Ok? <==> !Unpaid(p.channels, r)) && BalanceOf(after.channels, k) == BalanceOf(p.channels, k)
  {
    if Confirmed(p.channels, r.k) {
      assert Good(env, r.k, p.channels[r.k]);
    }
    GainRaisesBalance(env, p.channels, CloseStep(r), k);
  }

  /** The pass over the close requests completes if and only if none of them is unpaid. */
  lemma {:induction false} CloseRequestsCompleteIff(env: Env, cs: Channels, list: seq<Entry<CloseRequest>>, k: Key)
    requires Inv(env, cs)
    ensures var p := Relay(env, cs, CloseRequests(list));
            && (p.result.Ok? <==> forall e :: e in list ==> !Unpaid(cs, e.event))
            && BalanceOf(p.channels, k) == BalanceOf(cs, k)
  {
    if list != [] {
      var e, before := list[|list| - 1], list[..|list| - 1];
      SplitLast([], list);
      assert CloseRequests(list)[..|list| - 1] == CloseRequests(before);
      RelayKeepsInv(env, cs, CloseRequests(before));
      var p := Relay(env, cs, CloseRequests(before));
      CloseRequestsCompleteIff(env, cs, before, k);
      CloseRequestsCompleteIff(env, cs, before, e.event.k);
      CloseStepCompletesIff(env, p, e.event, k);
    }
  }

  /** Relaying events other than its settlement leaves a channel's balance alone. */
  lemma {:induction false} RelayKeepsBalance(env: Env, cs: Channels, steps: seq<Step>, k: Key)
    requires Inv(env, cs) && Settled(k) !in steps && forall s :: s in steps ==> FromChain(s)
    ensures BalanceOf(Relay(env, cs, steps).channels, k) == BalanceOf(cs, k)
  {
    if steps != [] {
      var before, last := steps[..|steps| - 1], steps[|steps| - 1];
      SplitLast([], steps);
      RelayKeepsBalance(env, cs, before, k);
      RelayKeepsInv(env, cs, before);
      GainRaisesBalance(env, Relay(env, cs, before).channels, last, k);
      ChainGainsNothing(env, Relay(env, cs, before).channels, last, k);
    }
  }

  lemma ChainGainsNothing(env: Env, cs: Channels, step: Step, k: Key)
    requires FromChain(step)
    ensures Gain(env, cs, step, k) == 0
  {
  }

  lemma MoreKeepsBalance(env: Env, p: Progress, steps: seq<Step>, k: Key)
    requires Inv(env, p.channels) && Settled(k) !in steps && forall s :: s in steps ==> FromChain(s)
    ensures BalanceOf(More(env, p, steps).channels, k) == BalanceOf(p.channels, k)
  {
    RelayKeepsBalance(env, p.channels, steps, k);
  }

  // A whole update

  // What each pass needs of the parts

  ghost predicate OpeningsReady(p: Parts) {
    && OpenedOnce(p.o + p.oNew)
    && (forall e :: e in p.oSeen ==> e.block > 0)
    && (forall e :: e in p.oNew ==> e.block > 0 && !IsSettled(p.s, KeyOf(e)))
    && (forall e, x :: e in p.oNew && x in p.a ==> x.event.k != KeyOf(e))
  }

  ghost predicate SeenReady(p: Parts) {
    forall t :: t in p.aSeen ==>
      && !Counted(p.a, t.event.k, t.event.tx)
      && (IsOpened(p.oSeen, t.event.k) || (IsOpened(p.o + p.oNew, t.event.k) && !IsSettled(p.s, t.event.k)))
  }

  ghost predicate AdditionsReady(p: Parts) {
    forall t :: t in p.aNew ==> IsOpened(p.o + p.oNew, t.event.k) && !IsSettled(p.s, t.event.k)
  }

  ghost predicate SettlementsReady(p: Parts) {
    && SettledOnce(p.sNew)
    && forall t :: t in p.sNew ==>
         t.event.openBlock > 0 && IsOpened(p.o + p.oNew, t.event) && !IsSettled(p.s, t.event)
  }

  lemma OpeningPasses(env: Env, p: Parts, cs: Channels)
    requires Agrees(p.o, p.a, p.s, cs) && OpeningsReady(p)
    ensures Pass2(env, cs, p).result == Ok(Done)
    ensures Agrees(p.o + p.oNew, p.a, p.s, Pass2(env, cs, p).channels)
    ensures forall e :: e in p.oSeen ==> KeyOf(e) in Pass2(env, cs, p).channels
  {
    UnconfirmedOpeningsPass(env, p.o, p.a, p.s, cs, p.oSeen);
    OpeningsPass(env, p.o, p.a, p.s, Pass1(env, cs, p).channels, p.oNew);
  }

  lemma SeenPass(env: Env, p: Parts, cs: Channels)
    requires Pass2(env, cs, p).result == Ok(Done)
    requires Agrees(p.o + p.oNew, p.a, p.s, Pass2(env, cs, p).channels) && SeenReady(p)
    requires forall e :: e in p.oSeen ==> KeyOf(e) in Pass2(env, cs, p).channels
    ensures Pass3(env, cs, p).result == Ok(Done)
    ensures Agrees(p.o + p.oNew, p.a, p.s, Pass3(env, cs, p).channels)
  {
    var cs2 := Pass2(env, cs, p).channels;
    forall t | t in p.aSeen
      ensures t.event.k in cs2
    {
      assert Confirmed(cs2, t.event.k) || IsOpened(p.oSeen, t.event.k);
    }
    UnconfirmedAdditionsPass(env, p.o + p.oNew, p.a, p.s, cs2, p.aSeen);
  }

  lemma NewAdditionsPass(env: Env, p: Parts, cs: Channels)
    requires Pass3(env, cs, p).result == Ok(Done)
    requires Agrees(p.o + p.oNew, p.a, p.s, Pass3(env, cs, p).channels) && AdditionsReady(p)
    ensures Pass4(env, cs, p).result == Ok(Done)
    ensures Agrees(p.o + p.oNew, p.a + p.aNew, p.s, Pass4(env, cs, p).channels)
  {
    AdditionsPass(env, p.o + p.oNew, p.a, p.s, Pass3(env, cs, p).channels, p.aNew);
  }

  lemma SettlementPass(env: Env, p: Parts, cs: Channels)
    requires Pass4(env, cs, p).result == Ok(Done)
    requires Agrees(p.o + p.oNew, p.a + p.aNew, p.s, Pass4(env, cs, p).channels) && SettlementsReady(p)
    ensures Pass5(env, cs, p).result == Ok(Done)
    ensures Agrees(p.o + p.oNew, p.a + p.aNew, p.s + p.sNew, Pass5(env, cs, p).channels)
  {
    SettlementsPass(env, p.o + p.oNew, p.a + p.aNew, p.s, Pass4(env, cs, p).channels, p.sNew);
  }

  lemma ClosePass(env: Env, p: Parts, cs: Channels)
    requires Pass5(env, cs, p).result == Ok(Done) && Inv(env, cs)
    requires Agrees(p.o + p.oNew, p.a + p.aNew, p.s + p.sNew, Pass5(env, cs, p).channels)
    ensures Pass6(env, cs, p).result in {Ok(Done), Err(InsufficientBalance)}
    ensures Agrees(p.o + p.oNew, p.a + p.aNew, p.s + p.sNew, Pass6(env, cs, p).channels)
  {
    PassesKeepInv(env, cs, p);
    CloseRequestsPass(env, p.o + p.oNew, p.a + p.aNew, p.s + p.sNew, Pass5(env, cs, p).channels, p.closes);
  }

  lemma MoreKeepsInv(env: Env, p: Progress, steps: seq<Step>)
    requires Inv(env, p.channels)
    ensures Inv(env, More(env, p, steps).channels)
  {
    RelayKeepsInv(env, p.channels, steps);
  }

  lemma PassesKeepInv(env: Env, cs: Channels, p: Parts)
    requires Inv(env, cs)
    ensures Inv(env, Pass1(env, cs, p).channels) && Inv(env, Pass2(env, cs, p).channels)
    ensures Inv(env, Pass3(env, cs, p).channels) && Inv(env, Pass4(env, cs, p).channels)
    ensures Inv(env, Pass5(env, cs, p).channels) && Inv(env, Pass6(env, cs, p).channels)
  {
    RelayKeepsInv(env, cs, UnconfirmedOpenings(p.oSeen));
    MoreKeepsInv(env, Pass1(env, cs, p), Openings(p.oNew));
    MoreKeepsInv(env, Pass2(env, cs, p), UnconfirmedAdditions(p.aSeen));
    MoreKeepsInv(env, Pass3(env, cs, p), Additions(p.aNew));
    MoreKeepsInv(env, Pass4(env, cs, p), Settlements(p.sNew));
    MoreKeepsInv(env, Pass5(env, cs, p), CloseRequests(p.closes));
  }

  /** The passes before the last change no balance, except that settled channels are gone. */
  lemma PassesKeepBalance(env: Env, cs: Channels, p: Parts, k: Key)
    requires Inv(env, cs) && !IsSettled(p.sNew, k)
    ensures BalanceOf(Pass5(env, cs, p).channels, k) == BalanceOf(cs, k)
  {
    PassesKeepInv(env, cs, p);
    RelayKeepsBalance(env, cs, UnconfirmedOpenings(p.oSeen), k);
    MoreKeepsBalance(env, Pass1(env, cs, p), Openings(p.oNew), k);
    MoreKeepsBalance(env, Pass2(env, cs, p), UnconfirmedAdditions(p.aSeen), k);
    MoreKeepsBalance(env, Pass3(env, cs, p), Additions(p.aNew), k);
    MoreKeepsBalance(env, Pass4(env, cs, p), Settlements(p.sNew), k);
  }

  // Well-formed logs meet those needs

  /** What one confirmation gives: all blocks read as unconfirmed before are now confirmed. */
  predicate OneBehind(w: Window) { w.c <= w.u <= w.c' < w.u' }

  lemma NotSettledBefore(logs: Logs, c: nat, k: Key, block: nat)
    requires WellFormed(logs) && c < block
    requires k.openBlock == block || exists e :: e in logs.additions && e.event.k == k && e.block == block
    ensures !IsSettled(Between(logs.settlements, 0, c), k)
  {
    BetweenHas(logs.settlements, 0, c);
  }

  /** The openings up to c followed by those up to c' are the openings up to c'. */
  lemma OpeningsUpto(logs: Logs, c: nat, c': nat)
    requires WellFormed(logs) && c <= c'
    ensures var both := Between(logs.openings, 0, c) + Between(logs.openings, c, c');
            && (forall e :: e in both <==> e in Between(logs.openings, 0, c'))
            && (forall e :: e in both <==> e in logs.openings && e.block <= c')
            && OpenedOnce(both)
  {
    BetweenHas(logs.openings, 0, c);
    BetweenHas(logs.openings, c, c');
    BetweenHas(logs.openings, 0, c');
  }

  lemma OpenedBy(logs: Logs, c: nat, c': nat, k: Key)
    requires WellFormed(logs) && c <= c' && IsOpened(logs.openings, k) && k.openBlock <= c'
    ensures IsOpened(Between(logs.openings, 0, c) + Between(logs.openings, c, c'), k)
  {
    OpeningsUpto(logs, c, c');
    var e :| e in logs.openings && KeyOf(e) == k;
    assert e in Between(logs.openings, 0, c) + Between(logs.openings, c, c');
  }

  lemma OpeningsAreReady(logs: Logs, w: Window)
    requires WellFormed(logs) && OneBehind(w)
    ensures OpeningsReady(PartsOf(logs, w))
  {
    var p := PartsOf(logs, w);
    OpeningsUpto(logs, w.c, w.c');
    BetweenHas(logs.openings, w.c, w.c');
    BetweenHas(logs.openings, w.u, w.u');
    BetweenHas(logs.additions, 0, w.c);
    forall e | e in p.oNew
      ensures !IsSettled(p.s, KeyOf(e))
    {
      NotSettledBefore(logs, w.c, KeyOf(e), e.block);
    }
  }

  lemma SeenAreReady(logs: Logs, w: Window)
    requires WellFormed(logs) && OneBehind(w)
    ensures SeenReady(PartsOf(logs, w))
  {
    var p := PartsOf(logs, w);
    BetweenHas(logs.additions, w.u, w.u');
    BetweenHas(logs.additions, 0, w.c);
    BetweenHas(logs.openings, w.u, w.u');
    forall t | t in p.aSeen
      ensures !Counted(p.a, t.event.k, t.event.tx)
      ensures IsOpened(p.oSeen, t.event.k) || (IsOpened(p.o + p.oNew, t.event.k) && !IsSettled(p.s, t.event.k))
    {
      NotSettledBefore(logs, w.c, t.event.k, t.block);
      var e :| e in logs.openings && KeyOf(e) == t.event.k;
      if e.block <= w.c' {
        OpenedBy(logs, w.c, w.c', t.event.k);
      } else {
        assert e in p.oSeen;
      }
    }
  }

  lemma AdditionsAreReady(logs: Logs, w: Window)
    requires WellFormed(logs) && OneBehind(w)
    ensures AdditionsReady(PartsOf(logs, w))
  {
    var p := PartsOf(logs, w);
    BetweenHas(logs.additions, w.c, w.c');
    forall t | t in p.aNew
      ensures IsOpened(p.o + p.oNew, t.event.k) && !IsSettled(p.s, t.event.k)
    {
      OpenedBy(logs, w.c, w.c', t.event.k);
      NotSettledBefore(logs, w.c, t.event.k, t.block);
    }
  }

  lemma SettlementsAreReady(logs: Logs, w: Window)
    requires WellFormed(logs) && OneBehind(w)
    ensures SettlementsReady(PartsOf(logs, w))
  {
    var p := PartsOf(logs, w);
    BetweenHas(logs.settlements, w.c, w.c');
    BetweenHas(logs.settlements, 0, w.c);
    BetweenSettledOnce(logs.settlements, w.c, w.c');
    forall t | t in p.sNew
      ensures t.event.openBlock > 0 && IsOpened(p.o + p.oNew, t.event) && !IsSettled(p.s, t.event)
    {
      OpenedBy(logs, w.c, w.c', t.event);
      forall s | s in p.s
        ensures s.event != t.event
      {
        var i :| 0 <= i < |logs.settlements| && logs.settlements[i] == s;
        var j :| 0 <= j < |logs.settlements| && logs.settlements[j] == t;
        assert i != j;
      }
    }
  }

  ghost predicate AgreesUpto(logs: Logs, c: nat, cs: Channels) {
    Agrees(Between(logs.openings, 0, c), Between(logs.additions, 0, c), Between(logs.settlements, 0, c), cs)
  }

  lemma AdditionsUpto(log: seq<Entry<Addition>>, c: nat, c': nat)
    requires c <= c' && forall e :: e in log ==> e.block > 0
    ensures var both := Between(log, 0, c) + Between(log, c, c');
            && (forall e :: e in both <==> e in Between(log, 0, c'))
            && (forall k :: Added(both, k) == Added(Between(log, 0, c'), k))
  {
    BetweenHas(log, 0, c);
    BetweenHas(log, c, c');
    BetweenHas(log, 0, c');
    forall k
      ensures Added(Between(log, 0, c) + Between(log, c, c'), k) == Added(Between(log, 0, c'), k)
    {
      AddedAppend(Between(log, 0, c), Between(log, c, c'), k);
      AddedSplit(log, c, c', k);
    }
  }

  lemma SettlementsUpto(log: seq<Entry<Key>>, c: nat, c': nat)
    requires c <= c'
    ensures forall e :: e in Between(log, 0, c) + Between(log, c, c') <==> e in Between(log, 0, c')
  {
    BetweenHas(log, 0, c);
    BetweenHas(log, c, c');
    BetweenHas(log, 0, c');
  }

  /** Agreement moves from block c to block c'. */
  lemma AgreesFurther(logs: Logs, w: Window, cs: Channels)
    requires WellFormed(logs) && OneBehind(w)
    requires var p := PartsOf(logs, w); Agrees(p.o + p.oNew, p.a + p.aNew, p.s + p.sNew, cs)
    ensures AgreesUpto(logs, w.c', cs)
  {
    var p := PartsOf(logs, w);
    OpeningsUpto(logs, w.c, w.c');
    AdditionsUpto(logs.additions, w.c, w.c');
    SettlementsUpto(logs.settlements, w.c, w.c');
    AgreesWithSame(p.o + p.oNew, p.a + p.aNew, p.s + p.sNew,
                   Between(logs.openings, 0, w.c'), Between(logs.additions, 0, w.c'), Between(logs.settlements, 0, w.c'), cs);
  }

  /** All six passes over parts that meet their needs. */
  lemma PassesAgree(env: Env, p: Parts, cs: Channels)
    requires Agrees(p.o, p.a, p.s, cs) && Inv(env, cs)
    requires OpeningsReady(p) && SeenReady(p) && AdditionsReady(p) && SettlementsReady(p)
    ensures Pass6(env, cs, p).result in {Ok(Done), Err(InsufficientBalance)}
    ensures Agrees(p.o + p.oNew, p.a + p.aNew, p.s + p.sNew, Pass6(env, cs, p).channels)
  {
    OpeningPasses(env, p, cs);
    SeenPass(env, p, cs);
    NewAdditionsPass(env, p, cs);
    SettlementPass(env, p, cs);
    ClosePass(env, p, cs);
  }

  /** The receiver can pay for every forced close of a channel that has a balance and is not settled. */
  ghost predicate Payable(cs: Channels, p: Parts) {
    forall e :: e in p.closes && !IsSettled(p.sNew, e.event.k) ==> !Unpaid(cs, e.event)
  }

  /** The six passes complete if and only if the receiver can pay. */
  lemma PassesCompleteIff(env: Env, p: Parts, cs: Channels)
    requires Agrees(p.o, p.a, p.s, cs) && Inv(env, cs)
    requires OpeningsReady(p) && SeenReady(p) && AdditionsReady(p) && SettlementsReady(p)
    ensures Pass6(env, cs, p).result.Ok? <==> Payable(cs, p)
  {
    OpeningPasses(env, p, cs);
    SeenPass(env, p, cs);
    NewAdditionsPass(env, p, cs);
    SettlementPass(env, p, cs);
    PassesKeepInv(env, cs, p);
    var cs5 := Pass5(env, cs, p).channels;
    forall e | e in p.closes
      ensures Unpaid(cs5, e.event) <==> Unpaid(cs, e.event) && !IsSettled(p.sNew, e.event.k)
    {
      if IsSettled(p.sNew, e.event.k) {
        var s :| s in p.sNew && s.event == e.event.k;
        assert s in p.s + p.sNew;
      } else {
        PassesKeepBalance(env, cs, p, e.event.k);
      }
    }
    CloseRequestsCompleteIff(env, cs5, p.closes, Key("", 0));
  }

  /** A whole update over a well-formed log never trips a handler's assertion and completes if and only if the
      receiver can pay for the forced closes. Complete or not, the stored deposits then agree with the log up to
      the new confirmed head. */
  lemma UpdateKeepsAgreement(env: Env, logs: Logs, w: Window, cs: Channels)
    requires WellFormed(logs) && OneBehind(w) && AgreesUpto(logs, w.c, cs) && Inv(env, cs)
    ensures Pass6(env, cs, PartsOf(logs, w)).result in {Ok(Done), Err(InsufficientBalance)}
    ensures Pass6(env, cs, PartsOf(logs, w)).result.Ok? <==> Payable(cs, PartsOf(logs, w))
    ensures AgreesUpto(logs, w.c', Pass6(env, cs, PartsOf(logs, w)).channels)
  {
    OpeningsAreReady(logs, w);
    SeenAreReady(logs, w);
    AdditionsAreReady(logs, w);
    SettlementsAreReady(logs, w);
    PassesAgree(env, PartsOf(logs, w), cs);
    PassesCompleteIff(env, PartsOf(logs, w), cs);
    AgreesFurther(logs, w, Pass6(env, cs, PartsOf(logs, w)).channels);
  }
}
