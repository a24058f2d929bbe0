/** What every run of the receiver keeps: proofs behind balances, finality of closed channels,
    and the accounting of received payments. */
module ReceiverSafety {
  import opened Wrappers
  import opened ReceiverChannel
  import opened ReceiverSpec
  import MapSums

  ghost predicate Good(env: Env, k: Key, c: Channel) {
    && c.key == k
    && k.openBlock > 0
    && 0 <= c.balance <= c.deposit
    && (c.lastSignature.Some? <==> c.balance > 0)
    && (c.lastSignature.Some? ==> env.Proves(k, c.balance, c.lastSignature.value))
    && (!c.confirmed ==> c.state == OPEN && c.balance == 0 && c.topups == map[])
    && (c.state == CLOSE_PENDING ==> c.lastSignature.Some?)
  }

  ghost predicate Inv(env: Env, cs: Channels) {
    forall k :: k in cs ==> Good(env, k, cs[k])
  }

  lemma StepKeepsInv(env: Env, cs: Channels, step: Step)
    requires Inv(env, cs)
    ensures Inv(env, Apply(env, cs, step).channels)
  {
    var after := Apply(env, cs, step).channels;
    if !step.Reset? {
      forall k | k in after
        ensures Good(env, k, after[k])
      {
        if k == step.k {
          StepKeepsGood(env, cs, step);
        } else {
          OnlyItsChannelChanges(env, cs, step, k);
        }
      }
    }
  }

  lemma StepKeepsGood(env: Env, cs: Channels, step: Step)
    requires Inv(env, cs) && !step.Reset?
    ensures var after := Apply(env, cs, step).channels; step.k in after ==> Good(env, step.k, after[step.k])
  {
  }

  lemma {:induction false} RunKeepsInv(env: Env, cs: Channels, steps: seq<Step>)
    requires Inv(env, cs)
    ensures Inv(env, Run(env, cs, steps))
  {
    if steps != [] {
      var before := steps[..|steps| - 1];
      RunKeepsInv(env, cs, before);
      StepKeepsInv(env, Run(env, cs, before), steps[|steps| - 1]);
    }
  }

  /** Every reachable state holds a valid proof for exactly the stored balance of every channel. */
  lemma ReachableStatesAreBacked(env: Env, steps: seq<Step>)
    ensures Inv(env, Run(env, map[], steps))
  {
    RunKeepsInv(env, map[], steps);
  }

  // Finality

  /** What no later step short of settlement may take back. */
  ghost predicate Extends(c: Channel, d: Channel) {
    && d.confirmed
    && c.balance <= d.balance
    && c.deposit <= d.deposit
    && (c.IsClosed() ==>
          d.IsClosed() && d.balance == c.balance && d.deposit == c.deposit && d.lastSignature == c.lastSignature)
  }

  lemma StepExtends(env: Env, cs: Channels, step: Step, k: Key)
    requires Inv(env, cs) && Confirmed(cs, k) && step != Settled(k)
    ensures k in Apply(env, cs, step).channels
    ensures Extends(cs[k], Apply(env, cs, step).channels[k])
  {
  }

  /** Until it is settled, a confirmed channel stays stored, its balance and deposit never decrease, and
      once closed its balance, deposit and proof are final. */
  lemma {:induction false} ClosingIsFinal(env: Env, cs: Channels, steps: seq<Step>, k: Key)
    requires Inv(env, cs) && Confirmed(cs, k) && Settled(k) !in steps
    ensures k in Run(env, cs, steps)
    ensures Extends(cs[k], Run(env, cs, steps)[k])
  {
    if steps != [] {
      var before := steps[..|steps| - 1];
      ClosingIsFinal(env, cs, before, k);
      RunKeepsInv(env, cs, before);
      StepExtends(env, Run(env, cs, before), steps[|steps| - 1], k);
    }
  }

  /** A close request leaves a confirmed channel closed exactly when it was closed already, or the request
      does not undercut the stored balance, or the challenge could not be sent. A challenge that is sent
      leaves an open channel open. */
  lemma CloseRequestCloses(env: Env, steps: seq<Step>, k: Key, balance: nat, timeout: nat, canSend: bool)
    requires Confirmed(Run(env, map[], steps), k)
    ensures var c := Run(env, map[], steps)[k];
            var after := Apply(env, Run(env, map[], steps), CloseRequested(k, balance, timeout, canSend)).channels;
            && k in after
            && (after[k].IsClosed() <==> c.IsClosed() || c.balance <= balance || !canSend)
  {
    ReachableStatesAreBacked(env, steps);
    assert Good(env, k, Run(env, map[], steps)[k]);
  }

  /** After a challenge for 5 has been submitted, a payment that raises the balance to 8 is still accepted. */
  lemma PaymentAcceptedAfterChallenge()
    ensures exists env: Env, steps: seq<Step>, k: Key ::
              && |Sent(env, map[], steps)| == 1
              && Sent(env, map[], steps)[0].balance == 5
              && Confirmed(Run(env, map[], steps), k)
              && Run(env, map[], steps)[k].balance == 8
              && !Run(env, map[], steps)[k].IsClosed()
  {
    var env := Env("receiver", "contract", (m, s) => "sender", m => "closing");
    var k := Key("sender", 1);
    var s1 := [Opened(k, 10)];
    var s2 := s1 + [Pay(k, 5, "proof")];
    var s3 := s2 + [CloseRequested(k, 3, 0, true)];
    var s4 := s3 + [Pay(k, 8, "proof")];
    assert s1[..0] == [] && s2[..1] == s1 && s3[..2] == s2 && s4[..3] == s3;
    var c0 := NewChannel(k, 10, true);
    assert Run(env, map[], s1) == map[k := c0];
    var c5 := c0.(balance := 5, lastSignature := Some("proof"));
    assert Run(env, map[], s2) == map[k := c5];
    assert Run(env, map[], s3) == map[k := c5];
    assert Run(env, map[], s4) == map[k := c5.(balance := 8)];
    assert Sent(env, map[], s1) == [];
    assert Sent(env, map[], s2) == [];
    assert |Sent(env, map[], s3)| == 1 && Sent(env, map[], s3)[0].balance == 5;
    assert Sent(env, map[], s4) == Sent(env, map[], s3);
    assert Confirmed(Run(env, map[], s4), k);
  }

  // Accounting

  /** What a step reports as received on channel k. */
  function Gain(env: Env, cs: Channels, step: Step, k: Key): int {
    match Apply(env, cs, step).result
    case Ok(Received(_, amount)) => if step.k == k then amount else 0
    case _ => 0
  }

  /** What was received on k since it was last stored as confirmed. */
  function Earned(env: Env, steps: seq<Step>, k: Key): int {
    if steps == [] || !Confirmed(Run(env, map[], steps), k) then 0
    else
      var before := steps[..|steps| - 1];
      Earned(env, before, k) + Gain(env, Run(env, map[], before), steps[|steps| - 1], k)
  }

  /** The received amounts reported for a stored channel sum to its balance. */
  lemma {:induction false} BalanceIsEarned(env: Env, steps: seq<Step>, k: Key)
    requires Confirmed(Run(env, map[], steps), k)
    ensures Run(env, map[], steps)[k].balance == Earned(env, steps, k)
  {
    if steps != [] {
      var before, step := steps[..|steps| - 1], steps[|steps| - 1];
      var cs := Run(env, map[], before);
      ReachableStatesAreBacked(env, before);
      if Confirmed(cs, k) {
        BalanceIsEarned(env, before, k);
        GainRaisesBalance(env, cs, step, k);
      } else {
        EarnedUnstored(env, before, k);
        GainRaisesBalance(env, cs, step, k);
      }
    }
  }

  lemma EarnedUnstored(env: Env, steps: seq<Step>, k: Key)
    requires !Confirmed(Run(env, map[], steps), k)
    ensures Earned(env, steps, k) == 0
  {
  }

  function BalanceOf(cs: Channels, k: Key): int { if Confirmed(cs, k) then cs[k].balance else 0 }

  lemma GainRaisesBalance(env: Env, cs: Channels, step: Step, k: Key)
    requires Inv(env, cs) && step != Settled(k)
    ensures BalanceOf(Apply(env, cs, step).channels, k) == BalanceOf(cs, k) + Gain(env, cs, step, k)
  {
    if !step.Reset? {
      if step.k == k {
        GainRaisesOwnBalance(env, cs, step);
      } else {
        OnlyItsChannelChanges(env, cs, step, k);
      }
    }
  }

  lemma GainRaisesOwnBalance(env: Env, cs: Channels, step: Step)
    requires Inv(env, cs) && !step.Reset? && !step.Settled?
    ensures BalanceOf(Apply(env, cs, step).channels, step.k) == BalanceOf(cs, step.k) + Gain(env, cs, step, step.k)
  {
  }

  /** The total `get_locked_balance` computes. */
  ghost function Locked(cs: Channels): int {
    MapSums.Sum(ConfirmedBalances(cs))
  }

  // Conservation

  function TotalGain(env: Env, steps: seq<Step>): int {
    if steps == [] then 0
    else
      var before, step := steps[..|steps| - 1], steps[|steps| - 1];
      TotalGain(env, before) + (if step.Reset? then 0 else Gain(env, Run(env, map[], before), step, step.k))
  }

  /** The balances of channels at the moment a settlement removed them. */
  function SettledBalances(env: Env, steps: seq<Step>): int {
    if steps == [] then 0
    else
      var before, step := steps[..|steps| - 1], steps[|steps| - 1];
      SettledBalances(env, before) + (if step.Settled? then BalanceOf(Run(env, map[], before), step.k) else 0)
  }

  lemma OnlyItsChannelChanges(env: Env, cs: Channels, step: Step, k: Key)
    requires !step.Reset? && step.k != k
    ensures k in Apply(env, cs, step).channels <==> k in cs
    ensures k in cs ==> Apply(env, cs, step).channels[k] == cs[k]
  {
  }

  ghost function ConfirmedBalances(cs: Channels): map<Key, int> {
    map k | k in cs && cs[k].confirmed :: cs[k].balance
  }

  lemma LockedMovesWith(cs: Channels, after: Channels, k: Key)
    requires forall j :: j != k ==> (j in after <==> j in cs) && (j in cs ==> after[j] == cs[j])
    ensures Locked(after) - Locked(cs) == BalanceOf(after, k) - BalanceOf(cs, k)
  {
    var m, n := ConfirmedBalances(cs), ConfirmedBalances(after);
    assert m - {k} == n - {k};
    if k in m { MapSums.SumRemove(m, k); } else { assert m == m - {k}; }
    if k in n { MapSums.SumRemove(n, k); } else { assert n == n - {k}; }
  }

  lemma StepMovesLocked(env: Env, cs: Channels, step: Step)
    requires Inv(env, cs) && !step.Reset?
    ensures Locked(Apply(env, cs, step).channels) ==
            Locked(cs) + Gain(env, cs, step, step.k) - (if step.Settled? then BalanceOf(cs, step.k) else 0)
  {
    var after := Apply(env, cs, step).channels;
    forall j | j != step.k {
      OnlyItsChannelChanges(env, cs, step, j);
    }
    LockedMovesWith(cs, after, step.k);
    if !step.Settled? {
      GainRaisesBalance(env, cs, step, step.k);
    }
  }

  /** Nothing received is lost: the total ever received is locked in stored channels or was in channels
      that have been settled. */
  lemma {:induction false} ReceivedIsConserved(env: Env, steps: seq<Step>)
    ensures TotalGain(env, steps) == Locked(Run(env, map[], steps)) + SettledBalances(env, steps)
  {
    if steps != [] {
      var before, step := steps[..|steps| - 1], steps[|steps| - 1];
      var cs := Run(env, map[], before);
      ReceivedIsConserved(env, before);
      ReachableStatesAreBacked(env, before);
      if step.Reset? {
        assert ConfirmedBalances(ResetUnconfirmed(cs)) == ConfirmedBalances(cs);
      } else {
        StepMovesLocked(env, cs, step);
      }
    }
  }

  /** A challenged close request never lacks a balance proof: it submits everything received on the channel
      with a proof of the sender, or, without funds for the transaction, leaves the close pending. */
  lemma ChallengeSubmitsAllReceived(env: Env, steps: seq<Step>, k: Key, balance: nat, timeout: nat, canSend: bool)
    requires Confirmed(Run(env, map[], steps), k) && Run(env, map[], steps)[k].balance > balance
    ensures var e := Apply(env, Run(env, map[], steps), CloseRequested(k, balance, timeout, canSend));
            && e.result == (if canSend then Ok(Done) else Err(InsufficientBalance))
            && (canSend ==>
                  && |e.sent| == 1
                  && e.sent[0].openBlock == k.openBlock
                  && e.sent[0].balance == Earned(env, steps, k)
                  && env.Proves(k, e.sent[0].balance, e.sent[0].balanceSignature)
                  && e.sent[0].closingSignature == env.CloseSignature(k, e.sent[0].balance))
            && (!canSend ==> e.sent == [] && k in e.channels && e.channels[k].state == CLOSE_PENDING)
  {
    ReachableStatesAreBacked(env, steps);
    BalanceIsEarned(env, steps, k);
    var c := Run(env, map[], steps)[k];
    assert Good(env, k, c);
  }

  /** Every closing transaction ever submitted pays the receiver a positive balance some sender signed for. */
  lemma {:induction false} EverySubmissionIsProved(env: Env, steps: seq<Step>, i: nat)
    requires i < |Sent(env, map[], steps)|
    ensures var tx := Sent(env, map[], steps)[i];
            && tx.receiver == env.receiver
            && tx.balance > 0
            && exists sender ::
                 && env.Proves(Key(sender, tx.openBlock), tx.balance, tx.balanceSignature)
                 && tx.closingSignature == env.CloseSignature(Key(sender, tx.openBlock), tx.balance)
  {
    var before, step := steps[..|steps| - 1], steps[|steps| - 1];
    if i < |Sent(env, map[], before)| {
      EverySubmissionIsProved(env, before, i);
    } else {
      var cs := Run(env, map[], before);
      ReachableStatesAreBacked(env, before);
      assert Good(env, step.k, cs[step.k]);
      var tx := Sent(env, map[], steps)[i];
      assert tx == Apply(env, cs, step).sent[0];
      assert Key(step.k.sender, tx.openBlock) == step.k;
    }
  }
}
