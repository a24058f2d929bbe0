/** A sender and a receiver running against each other over an untrusted network. */
module JointProtocol {
  import opened Wrappers
  import opened ReceiverChannel
  import opened ReceiverSpec
  import opened ReceiverSafety
  import opened SenderChannels
  import ClientSync

  /** The sender's channel k and everything the receiver stores. */
  datatype Joint = Joint(sender: SenderView, channels: Channels)

  datatype JointStep =
    | SenderTransfer(value: nat)
    | SenderTopup(amount: nat, tokens: nat, confirmed: bool)
    /** The server's reply to an invalid amount: a balance and possibly a signature, both of its choosing. */
    | SenderResync(lastBalance: int, signature: Option<Signature>)
    /** A close requested with the current balance (None) or, when cooperation was denied, with 0. */
    | SenderClose(explicit: Option<int>, confirmed: bool)
    | SenderCooperativeClose(valid: bool, confirmed: bool)
    | SenderSettle(settleBlock: int, currentBlock: int, confirmed: bool)
    /** The client synchronises its channels with the log. */
    | SenderSync(logs: ClientSync.SenderLogs)
    /** Any step of the receiver, for this or any other channel. */
    | Receiver(step: Step)

  /** Adopt a balance the server proves, otherwise fall back to 0. */
  function Resync(env: Env, k: Key, v: SenderView, lastBalance: int, signature: Option<Signature>): SenderView {
    if signature.Some? && env.Proves(k, lastBalance, signature.value) then
      if lastBalance == v.balance then v else SignBalance(v, lastBalance)
    else SignBalance(v, 0)
  }

  /** The channel as its sender files it. */
  function IdOf(env: Env, k: Key): ClientSync.ChannelId { ClientSync.ChannelId(env.receiver, k.openBlock) }

  function Next(env: Env, k: Key, j: Joint, step: JointStep): Joint {
    match step
    case SenderTransfer(value) => j.(sender := AfterTransfer(j.sender, value))
    case SenderTopup(amount, tokens, confirmed) => j.(sender := AfterTopup(j.sender, amount, tokens, confirmed))
    case SenderResync(balance, signature) => j.(sender := Resync(env, k, j.sender, balance, signature))
    case SenderClose(explicit, confirmed) => j.(sender := AfterClose(j.sender, explicit, confirmed))
    case SenderCooperativeClose(valid, confirmed) => j.(sender := AfterCooperativeClose(j.sender, valid, confirmed))
    case SenderSettle(settleBlock, currentBlock, confirmed) =>
      j.(sender := AfterSettle(j.sender, settleBlock, currentBlock, confirmed))
    case SenderSync(logs) => j.(sender := ClientSync.SyncedObject(j.sender, logs, IdOf(env, k)))
    case Receiver(step) => j.(channels := Apply(env, j.channels, step).channels)
  }

  /** Unforgeability: a proof for channel k that anyone presents is for a balance its sender has signed. */
  ghost predicate Unforged(env: Env, k: Key, j: Joint, step: JointStep) {
    match step
    case SenderResync(balance, Some(signature)) => env.Proves(k, balance, signature) ==> balance in j.sender.signed
    case Receiver(Pay(k', balance, signature)) =>
      k' == k && env.Proves(k, balance, signature) ==> balance in j.sender.signed
    case _ => true
  }

  /** The log shows at least the deposit the sender counts on, and close requests only at balances it has signed. */
  ghost predicate Recorded(env: Env, k: Key, j: Joint, step: JointStep) {
    step.SenderSync? ==>
      var id := IdOf(env, k);
      && j.sender.deposit <= ClientSync.SyncedObject(j.sender, step.logs, id).deposit
      && ClientSync.Amounts(step.logs.closeRequested, id) <= j.sender.signed
  }

  /** The only explicit closing balance the session uses is 0. */
  predicate SessionStep(step: JointStep) {
    step.SenderClose? && step.explicit.Some? ==> step.explicit.value == 0
  }

  function JointRun(env: Env, k: Key, j: Joint, steps: seq<JointStep>): Joint {
    if steps == [] then j else Next(env, k, JointRun(env, k, j, steps[..|steps| - 1]), steps[|steps| - 1])
  }

  ghost predicate HonestRun(env: Env, k: Key, j: Joint, steps: seq<JointStep>) {
    steps != [] ==>
      var before, last := steps[..|steps| - 1], steps[|steps| - 1];
      var now := JointRun(env, k, j, before);
      HonestRun(env, k, j, before) && SessionStep(last) && Unforged(env, k, now, last) && Recorded(env, k, now, last)
  }

  /** All signed balances are covered by the deposit, and the receiver holds 0 or a signed balance. */
  ghost predicate Covered(env: Env, k: Key, j: Joint) {
    && (forall b :: b in j.sender.signed ==> 0 <= b <= j.sender.deposit)
    && j.sender.balance in j.sender.signed
    && Inv(env, j.channels)
    && (k in j.channels ==> j.channels[k].balance == 0 || j.channels[k].balance in j.sender.signed)
  }

  /** A sender that has just opened the channel; the receiver may already serve others. */
  ghost predicate Initial(env: Env, k: Key, j: Joint) {
    && j.sender == SenderView(j.sender.deposit, 0, Open, {0})
    && j.sender.deposit >= 0
    && Inv(env, j.channels)
    && k !in j.channels
  }

  lemma ReceiverStepCovered(env: Env, k: Key, j: Joint, step: Step)
    requires Covered(env, k, j) && Unforged(env, k, j, Receiver(step))
    ensures Covered(env, k, Next(env, k, j, Receiver(step)))
  {
    StepKeepsInv(env, j.channels, step);
    if !step.Reset? && step.k != k {
      OnlyItsChannelChanges(env, j.channels, step, k);
    }
  }

  lemma SenderStepCovered(env: Env, k: Key, j: Joint, step: JointStep)
    requires Covered(env, k, j) && !step.Receiver? && SessionStep(step)
    requires Unforged(env, k, j, step) && Recorded(env, k, j, step)
    ensures Covered(env, k, Next(env, k, j, step))
  {
    if step.SenderSync? {
      SyncCovered(env, k, j, step.logs);
    }
  }

  lemma SyncCovered(env: Env, k: Key, j: Joint, logs: ClientSync.SenderLogs)
    requires Covered(env, k, j) && Recorded(env, k, j, SenderSync(logs))
    ensures Covered(env, k, Next(env, k, j, SenderSync(logs)))
  {
    var id := IdOf(env, k);
    if ClientSync.Has(logs.closeRequested, id) {
      ClientSync.LastIsAmount(logs.closeRequested, id);
    }
  }

  /** For every interleaving of transfers, top-ups, resynchronisations with the server and with the log, and
      closes with arbitrary receiver steps, every balance the sender signed is at most its deposit, and the
      receiver stores 0 or a balance the sender signed for that channel. */
  lemma {:induction false} SignedBalancesAreCovered(env: Env, k: Key, j: Joint, steps: seq<JointStep>)
    requires Initial(env, k, j) && HonestRun(env, k, j, steps)
    ensures Covered(env, k, JointRun(env, k, j, steps))
  {
    if steps != [] {
      var before, last := steps[..|steps| - 1], steps[|steps| - 1];
      SignedBalancesAreCovered(env, k, j, before);
      var now := JointRun(env, k, j, before);
      if last.Receiver? {
        ReceiverStepCovered(env, k, now, last.step);
      } else {
        SenderStepCovered(env, k, now, last);
      }
    }
  }

  /** The receiver can never be owed more than the sender's deposit. */
  lemma ReceiverNeverExceedsDeposit(env: Env, k: Key, j: Joint, steps: seq<JointStep>)
    requires Initial(env, k, j) && HonestRun(env, k, j, steps)
    ensures var now := JointRun(env, k, j, steps);
            k in now.channels ==> now.channels[k].balance <= now.sender.deposit
  {
    SignedBalancesAreCovered(env, k, j, steps);
  }

  /** Without the session's restriction: closing with an explicit balance keeps all signed balances covered
      exactly when that balance is covered. */
  lemma ExplicitCloseCoveredIff(env: Env, k: Key, j: Joint, steps: seq<JointStep>, balance: int, confirmed: bool)
    requires Initial(env, k, j) && HonestRun(env, k, j, steps) && JointRun(env, k, j, steps).sender.state == Open
    ensures var now := JointRun(env, k, j, steps);
            Covered(env, k, Next(env, k, now, SenderClose(Some(balance), confirmed)))
            <==> 0 <= balance <= now.sender.deposit
  {
    SignedBalancesAreCovered(env, k, j, steps);
    var now := JointRun(env, k, j, steps);
    assert balance in Next(env, k, now, SenderClose(Some(balance), confirmed)).sender.signed;
  }

  /** From the start one token more than the deposit is enough to leave it uncovered. */
  lemma ExplicitCloseUncovered(env: Env, k: Key, j: Joint, confirmed: bool)
    requires Initial(env, k, j)
    ensures !Covered(env, k, Next(env, k, j, SenderClose(Some(j.sender.deposit + 1), confirmed)))
  {
    assert JointRun(env, k, j, []) == j && HonestRun(env, k, j, []);
    ExplicitCloseCoveredIff(env, k, j, [], j.sender.deposit + 1, confirmed);
  }

  // The session's answer to an invalid amount

  /** Top up an open channel that cannot afford the price, then sign a transfer. */
  function PayPrice(v: SenderView, price: nat, topup: nat, tokens: nat, confirmed: bool): SenderView {
    AfterTransfer(if Suitable(v, price) then v else AfterTopup(v, topup, tokens, confirmed), price)
  }

  /** A payment from an open channel: the deposit grows by exactly the top-up if and only if the room was too small, the
      tokens sufficed and the event arrived; the price is signed if and only if the room then covers it. */
  lemma PriceIsPaidIff(v: SenderView, price: nat, topup: nat, tokens: nat, confirmed: bool)
    requires v.state == Open && price > 0
    ensures var w, room := PayPrice(v, price, topup, tokens, confirmed), v.deposit - v.balance;
            var grown := if room < price && topup <= tokens && confirmed then topup else 0;
            && w.deposit == v.deposit + grown && w.state == Open
            && (if price <= room + grown
                then w.balance == v.balance + price && w.signed == v.signed + {v.balance + price}
                else w.balance == v.balance && w.signed == v.signed)
  {
  }

  /** The server proves the very balance the sender holds: it disguises an unconfirmed payment. */
  predicate Disguised(env: Env, k: Key, v: SenderView, lastBalance: int, signature: Option<Signature>) {
    signature.Some? && env.Proves(k, lastBalance, signature.value) && lastBalance == v.balance
  }

  /** After the reply to an invalid amount that carries what the receiver stores, the session aborts exactly
      when both sides already hold the same proved balance; otherwise it holds the receiver's balance. */
  lemma ResyncMeetsReceiver(env: Env, k: Key, j: Joint)
    requires Inv(env, j.channels) && Confirmed(j.channels, k)
    ensures var c := j.channels[k];
            && Resync(env, k, j.sender, c.balance, c.lastSignature).balance == c.balance
            && (Disguised(env, k, j.sender, c.balance, c.lastSignature) <==> j.sender.balance == c.balance > 0)
  {
    assert Good(env, k, j.channels[k]);
  }

  /** After that reply the next payment (which the session makes unless the reply was disguised) either cannot be
      signed for lack of deposit, or is registered for exactly the price if and only if the receiver's confirmed
      deposit covers it. */
  lemma ResyncedPaymentIsAccepted(env: Env, k: Key, j: Joint, signer: Signer, price: nat, topup: nat, tokens: nat,
                                  confirmed: bool)
    requires Inv(env, j.channels) && Confirmed(j.channels, k) && !j.channels[k].IsClosed()
    requires price > 0 && j.sender.state == Open
    requires forall m :: env.recover(m, signer.sign(m)) == k.sender
    ensures var c := j.channels[k];
            var v := PayPrice(Resync(env, k, j.sender, c.balance, c.lastSignature), price, topup, tokens, confirmed);
            var e := RegisterPayment(env, j.channels, k, v.balance, signer.sign(env.Message(k.openBlock, v.balance)));
            if v.deposit < c.balance + price then v.balance == c.balance && e.result == Err(InvalidBalanceAmount)
            else
              && v.balance == c.balance + price
              && (e.result == Ok(Received(k.sender, price)) <==> c.balance + price <= c.deposit)
              && (e.result.Ok? ==> k in e.channels && e.channels[k].balance == v.balance)
  {
    ResyncMeetsReceiver(env, k, j);
    assert Good(env, k, j.channels[k]);
  }
}
