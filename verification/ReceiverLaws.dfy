/** What each operation answers and stores, over every run and in terms of what was received on the channel. */
module ReceiverLaws {
  import opened Wrappers
  import opened ReceiverChannel
  import opened ReceiverSpec
  import opened ReceiverSafety

  /** The signature is the sender's over exactly this balance of this channel, receiver and contract. */
  predicate SignedBySender(env: Env, k: Key, balance: int, signature: Signature) {
    env.recover(BalanceMessage(env.receiver, k.openBlock, balance, env.contract), signature) == k.sender
  }

  /** The receiver's agreement to close the channel at this balance. */
  function Agreement(env: Env, k: Key, balance: int): Signature {
    env.signClose(ClosingMessage(k.sender, k.openBlock, balance, env.contract))
  }

  predicate OpenIn(cs: Channels, k: Key) { Confirmed(cs, k) && cs[k].state == OPEN }

  /** What is known of a stored channel after any run. */
  lemma Standing(env: Env, steps: seq<Step>, k: Key)
    ensures var cs := Run(env, map[], steps);
            k in cs ==> Good(env, k, cs[k]) && (cs[k].confirmed ==> cs[k].balance == Earned(env, steps, k))
  {
    ReachableStatesAreBacked(env, steps);
    if Confirmed(Run(env, map[], steps), k) {
      BalanceIsEarned(env, steps, k);
    }
  }

  /** A payment is accepted if and only if the channel is confirmed and open, the signature is its sender's, and the
      balance is more than was received and no more than the deposit. It then reports the difference. */
  lemma PaymentAcceptedIff(env: Env, steps: seq<Step>, k: Key, balance: int, signature: Signature)
    ensures var cs, earned := Run(env, map[], steps), Earned(env, steps, k);
            var e := Apply(env, cs, Pay(k, balance, signature));
            && e.sent == []
            && (e.result.Ok? <==>
                  OpenIn(cs, k) && SignedBySender(env, k, balance, signature) && earned < balance <= cs[k].deposit)
            && (e.result.Ok? ==>
                  && e.result == Ok(Received(k.sender, balance - earned))
                  && e.channels == cs[k := cs[k].(balance := balance, lastSignature := Some(signature))])
            && (e.result.Err? ==> e.channels == cs)
  {
    Standing(env, steps, k);
  }

  /** Which error a refused payment gets. */
  lemma PaymentRefused(env: Env, steps: seq<Step>, k: Key, balance: int, signature: Signature)
    ensures var cs, earned := Run(env, map[], steps), Earned(env, steps, k);
            var r := Apply(env, cs, Pay(k, balance, signature)).result;
            && (r == Err(InsufficientConfirmations) <==> k in cs && !cs[k].confirmed)
            && (r == Err(NoOpenChannel) <==> k !in cs || (cs[k].confirmed && cs[k].state != OPEN))
            && (r == Err(InvalidBalanceAmount) <==>
                  OpenIn(cs, k) && SignedBySender(env, k, balance, signature) && balance <= earned)
            && (r == Err(InvalidBalanceProof) <==>
                  OpenIn(cs, k) && (!SignedBySender(env, k, balance, signature) || (balance > earned && balance > cs[k].deposit)))
  {
    Standing(env, steps, k);
  }

  /** The receiver signs a close if and only if the channel is confirmed, open and paid, and the sender asks for exactly
      what was received. It signs over that sum, and the channel is closed. */
  lemma ClosingSignedIff(env: Env, steps: seq<Step>, k: Key, balance: int)
    ensures var cs, earned := Run(env, map[], steps), Earned(env, steps, k);
            var e := Apply(env, cs, Sign(k, balance));
            && e.sent == []
            && (e.result.Ok? <==> OpenIn(cs, k) && earned > 0 && balance == earned)
            && (e.result.Ok? ==>
                  && e.result == Ok(ClosingSignature(Agreement(env, k, earned)))
                  && e.channels == cs[k := cs[k].(state := CLOSED)])
            && (e.result.Err? ==> e.channels == cs)
            && (e.result == Err(NoOpenChannel) <==> !OpenIn(cs, k))
            && (e.result == Err(NoBalanceProofReceived) <==> OpenIn(cs, k) && earned == 0)
  {
    Standing(env, steps, k);
  }

  /** What closing a channel on which something was received does: one transaction with all of it, or it stays pending. */
  ghost predicate ClosesWith(env: Env, cs: Channels, k: Key, earned: int, canSend: bool, e: Effect)
    requires k in cs
  {
    if canSend then
      && e.result == Ok(Done) && e.channels == cs[k := cs[k].(state := CLOSED)]
      && |e.sent| == 1 && e.sent[0].receiver == env.receiver && e.sent[0].openBlock == k.openBlock
      && e.sent[0].balance == earned && SignedBySender(env, k, earned, e.sent[0].balanceSignature)
      && e.sent[0].closingSignature == Agreement(env, k, earned)
    else
      e.result == Err(InsufficientBalance) && e.channels == cs[k := cs[k].(state := CLOSE_PENDING)] && e.sent == []
  }

  /** A close submits all that was received; without a payment it fails, and of an unconfirmed channel it does nothing. */
  lemma CloseSubmits(env: Env, steps: seq<Step>, k: Key, canSend: bool)
    ensures var cs, earned := Run(env, map[], steps), Earned(env, steps, k);
            var e := Apply(env, cs, Close(k, canSend));
            if !Confirmed(cs, k) then e == Effect(cs, [], Ok(Done))
            else if earned == 0 then e == Effect(cs, [], Err(NoBalanceProofReceived))
            else ClosesWith(env, cs, k, earned, canSend, e)
  {
    Standing(env, steps, k);
  }

  /** A forced close does the same, and closes a channel without a payment locally. */
  lemma ForceCloseCloses(env: Env, steps: seq<Step>, k: Key, canSend: bool)
    ensures var cs, earned := Run(env, map[], steps), Earned(env, steps, k);
            var e := Apply(env, cs, ForceClose(k, canSend));
            if !Confirmed(cs, k) then e == Effect(cs, [], Ok(Done))
            else if earned == 0 then e == Effect(cs[k := cs[k].(state := CLOSED)], [], Ok(Done))
            else ClosesWith(env, cs, k, earned, canSend, e)
  {
    Standing(env, steps, k);
  }

  /** A close request that does not understate what was received closes the channel and notes the settle timeout. */
  lemma UndisputedCloseIsNoted(env: Env, steps: seq<Step>, k: Key, balance: nat, timeout: nat, canSend: bool)
    ensures var cs := Run(env, map[], steps);
            var e := Apply(env, cs, CloseRequested(k, balance, timeout, canSend));
            && (!Confirmed(cs, k) ==> e == Effect(cs, [], Ok(Done)))
            && (Confirmed(cs, k) && Earned(env, steps, k) <= balance ==>
                  e == Effect(cs[k := cs[k].(state := CLOSED, settleTimeout := timeout)], [], Ok(Done)))
  {
    Standing(env, steps, k);
  }

  // Events, in any state

  /** A settlement removes exactly its channel, and asserts that it is stored. */
  lemma SettlementRemoves(env: Env, cs: Channels, k: Key)
    ensures var e := Apply(env, cs, Settled(k));
            && e.sent == []
            && (if k in cs && k.openBlock > 0 then e.result == Ok(Done) && e.channels == cs - {k}
                else e.result == Err(AssertionError) && e.channels == cs)
  {
  }

  /** A confirmed top-up asserts that its channel is confirmed, raises an open channel's deposit and strikes the
      transaction off; a closed channel stays. */
  lemma TopupIsCounted(env: Env, cs: Channels, k: Key, tx: TxHash, added: nat)
    ensures var e := Apply(env, cs, Topup(k, tx, added));
            && e.sent == []
            && (!Confirmed(cs, k) ==> e.result == Err(AssertionError) && e.channels == cs)
            && (Confirmed(cs, k) ==>
                  && e.result == Ok(Done) && e.channels.Keys == cs.Keys
                  && (forall j :: j in cs && (j != k || cs[j].state != OPEN) ==> e.channels[j] == cs[j])
                  && (cs[k].state == OPEN ==>
                        && e.channels[k].deposit == cs[k].deposit + added && e.channels[k].topups == cs[k].topups - {tx}
                        && e.channels[k].(deposit := cs[k].deposit, topups := cs[k].topups) == cs[k]))
  {
  }

  /** A confirmed opening stores an open, unpaid, confirmed channel with its deposit, unless it is confirmed already;
      block 0 is refused. */
  lemma OpeningIsConfirmed(env: Env, cs: Channels, k: Key, deposit: nat)
    ensures var e := Apply(env, cs, Opened(k, deposit));
            && e.sent == [] && (k.openBlock == 0 && !Confirmed(cs, k) ==> e == Effect(cs, [], Err(AssertionError)))
    ensures var e := Apply(env, cs, Opened(k, deposit));
            k.openBlock > 0 || Confirmed(cs, k) ==>
            && e.result == Ok(Done) && e.channels.Keys == cs.Keys + {k}
            && (forall j :: j in cs && (j != k || cs[j].confirmed) ==> e.channels[j] == cs[j])
            && (!Confirmed(cs, k) ==>
                  var c := e.channels[k];
                  && c.key == k && c.deposit == deposit && c.balance == 0 && c.topups == map[]
                  && c.state == OPEN && c.confirmed)
  {
  }

  /** An unconfirmed top-up of a confirmed channel is noted under its transaction, and nothing else changes. */
  lemma UnconfirmedTopupIsNoted(env: Env, cs: Channels, k: Key, tx: TxHash, added: nat)
    ensures var e := Apply(env, cs, UnconfirmedTopup(k, tx, added));
            && e.sent == [] && e.channels.Keys == cs.Keys
            && (forall j :: j in cs && (j != k || !cs[j].confirmed) ==> e.channels[j] == cs[j])
            && (e.result == Ok(Done) <==> k in cs)
            && (Confirmed(cs, k) ==>
                  && tx in e.channels[k].topups && e.channels[k].topups[tx] == added
                  && e.channels[k].topups - {tx} == cs[k].topups - {tx}
                  && e.channels[k].(topups := cs[k].topups) == cs[k])
  {
  }

  /** An unconfirmed opening of an unknown channel is stored as such, open and unpaid; a known channel stays, and block 0
      is refused. */
  lemma UnconfirmedOpeningIsStored(env: Env, cs: Channels, k: Key, deposit: nat)
    ensures var e := Apply(env, cs, UnconfirmedOpened(k, deposit));
            && e.sent == [] && (k.openBlock == 0 ==> e == Effect(cs, [], Err(AssertionError)))
    ensures var e := Apply(env, cs, UnconfirmedOpened(k, deposit));
            k.openBlock > 0 ==>
            && e.result == Ok(Done) && e.channels.Keys == cs.Keys + {k}
            && (forall j :: j in cs ==> e.channels[j] == cs[j])
            && (k !in cs ==>
                  var c := e.channels[k];
                  && c.key == k && c.deposit == deposit && c.balance == 0 && c.topups == map[]
                  && c.state == OPEN && !c.confirmed)
  {
  }

  /** Forgetting the unconfirmed keeps exactly the confirmed channels, each as it was but for its pending top-ups. */
  lemma ResetKeepsConfirmed(cs: Channels, k: Key)
    ensures var after := ResetUnconfirmed(cs);
            && (k in after <==> Confirmed(cs, k))
            && (k in after ==> after[k].topups == map[] && after[k].(topups := cs[k].topups) == cs[k])
  {
  }
}
