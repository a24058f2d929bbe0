/** The protocol gets somewhere: exchanges between a sender and a receiver that both behave. */
module JointSessions {
  import opened Wrappers
  import opened ReceiverChannel
  import opened ReceiverSpec
  import opened ReceiverSafety
  import opened SenderChannels
  import opened JointProtocol
  import ClientSync

  /** Both sides hold the channel open with the same balance. */
  ghost predicate InTouch(env: Env, k: Key, j: Joint) {
    && Inv(env, j.channels) && Confirmed(j.channels, k) && j.channels[k].state == OPEN
    && j.sender.state == Open && j.sender.balance == j.channels[k].balance
  }

  /** The signer's signatures are the sender's. */
  ghost predicate Signs(env: Env, k: Key, signer: Signer) {
    forall m :: env.recover(m, signer.sign(m)) == k.sender
  }

  /** The message a sender signs for a balance of its channel with this receiver. */
  function Proof(env: Env, k: Key, signer: Signer, balance: int): Signature {
    signer.sign(BalanceMessage(env.receiver, k.openBlock, balance, env.contract))
  }

  /** A transfer that both deposits cover, followed by its payment, raises both balances by its value. */
  lemma PaymentGoesThrough(env: Env, k: Key, j: Joint, signer: Signer, value: nat)
    requires InTouch(env, k, j) && Signs(env, k, signer) && value > 0
    requires j.sender.balance + value <= j.sender.deposit && j.sender.balance + value <= j.channels[k].deposit
    ensures var balance := j.sender.balance + value;
            var signed := Next(env, k, j, SenderTransfer(value));
            var paid := Next(env, k, signed, Receiver(Pay(k, balance, Proof(env, k, signer, balance))));
            && InTouch(env, k, paid) && paid.sender.balance == balance && balance in paid.sender.signed
            && paid.sender.deposit == j.sender.deposit && paid.channels[k].deposit == j.channels[k].deposit
  {
    var balance := j.sender.balance + value;
    StepKeepsInv(env, j.channels, Pay(k, balance, Proof(env, k, signer, balance)));
  }

  /** A top-up that the sender can afford and whose event arrives, confirmed to the receiver, raises both deposits. */
  lemma TopupGoesThrough(env: Env, k: Key, j: Joint, amount: nat, tokens: nat, tx: TxHash)
    requires InTouch(env, k, j) && amount <= tokens
    ensures var topped := Next(env, k, Next(env, k, j, SenderTopup(amount, tokens, true)), Receiver(Topup(k, tx, amount)));
            && InTouch(env, k, topped)
            && topped.sender.deposit == j.sender.deposit + amount
            && topped.channels[k].deposit == j.channels[k].deposit + amount
  {
    StepKeepsInv(env, j.channels, Topup(k, tx, amount));
  }

  /** When something was paid, the receiver agrees to close at the common balance, and both sides end closed with it. */
  lemma CooperativeCloseGoesThrough(env: Env, k: Key, j: Joint)
    requires InTouch(env, k, j) && j.sender.balance > 0
    ensures var agreed := SignClose(env, j.channels, k, j.sender.balance);
            var message := ClosingMessage(k.sender, k.openBlock, j.sender.balance, env.contract);
            agreed.result == Ok(ClosingSignature(env.signClose(message)))
    ensures var agreed := Next(env, k, j, Receiver(Sign(k, j.sender.balance)));
            var done := Next(env, k, agreed, SenderCooperativeClose(true, true));
            && done.sender == j.sender.(state := Closed)
            && k in done.channels && done.channels[k] == j.channels[k].(state := CLOSED)
    ensures Next(env, k, j, SenderCooperativeClose(false, true)) == j
  {
    assert Good(env, k, j.channels[k]);
  }

  /** A close requested at the common balance is not disputed; after its settlement neither side holds the channel. */
  lemma RequestedCloseGoesThrough(env: Env, k: Key, j: Joint, timeout: nat, block: int, current: int, canSend: bool)
    requires InTouch(env, k, j) && block <= current
    ensures var requested := Next(env, k, j, SenderClose(None, true));
            var noted := Next(env, k, requested, Receiver(CloseRequested(k, j.sender.balance, timeout, canSend)));
            var settled := Next(env, k, noted, SenderSettle(block, current, true));
            && requested.sender == j.sender.(state := Settling) && requested.channels == j.channels
            && k in noted.channels && noted.channels[k] == j.channels[k].(state := CLOSED, settleTimeout := timeout)
            && settled.sender == j.sender.(state := Closed)
            && Next(env, k, settled, Receiver(Settled(k))).channels == j.channels - {k}
            && Next(env, k, noted, SenderSettle(current + 1, current, true)) == noted
  {
    assert Good(env, k, j.channels[k]);
  }

  /** A sender that has lost its balance gets it back from an honest receiver, and the two are in touch again. */
  lemma ResyncGoesThrough(env: Env, k: Key, j: Joint)
    requires Inv(env, j.channels) && Confirmed(j.channels, k) && j.channels[k].state == OPEN && j.sender.state == Open
    ensures var c := j.channels[k];
            var resynced := Next(env, k, j, SenderResync(c.balance, c.lastSignature));
            InTouch(env, k, resynced) && resynced.sender.deposit == j.sender.deposit && resynced.channels == j.channels
  {
    ResyncMeetsReceiver(env, k, j);
  }

  /** Synchronising with the log gives the sender the deposit and the close request recorded there. */
  lemma SyncGoesThrough(env: Env, k: Key, j: Joint, logs: ClientSync.SenderLogs)
    requires ClientSync.Has(logs.created, ClientSync.ChannelId(env.receiver, k.openBlock))
    ensures var id := ClientSync.ChannelId(env.receiver, k.openBlock);
            var synced := Next(env, k, j, SenderSync(logs));
            && synced.channels == j.channels
            && synced.sender.deposit == ClientSync.LastAmount(logs.created, id) + ClientSync.Total(logs.toppedUp, id)
            && (ClientSync.Has(logs.closeRequested, id) ==>
                  synced.sender.balance == ClientSync.LastAmount(logs.closeRequested, id))
            && (!ClientSync.Has(logs.closeRequested, id) ==>
                  synced.sender.balance == j.sender.balance && synced.sender.signed == j.sender.signed)
            && synced.sender.state ==
               (if ClientSync.Has(logs.settled, id) then Closed
                else if ClientSync.Has(logs.closeRequested, id) then Settling else j.sender.state)
  {
  }
}
