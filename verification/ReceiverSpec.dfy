/** One function per operation of the receiver's channel manager, on the map of stored channels.
    The class `ChannelManager` is proved to compute these; the run theorems are stated over them. */
module ReceiverSpec {
  import opened Wrappers
  import opened ReceiverChannel

  type Channels = map<Key, Channel>

  datatype Error =
    | NoOpenChannel
    | InsufficientConfirmations
    | InvalidBalanceProof
    | InvalidBalanceAmount
    | NoBalanceProofReceived
    | InsufficientBalance
    | AssertionError

  datatype Reply = Done | ClosingSignature(signature: Signature) | Received(sender: Address, amount: int)

  /** The channels after a call, the closing transactions it submitted, and what it returned or raised. */
  datatype Effect = Effect(channels: Channels, sent: seq<CooperativeClose>, result: Result<Reply, Error>)

  function Succeed(cs: Channels): Effect { Effect(cs, [], Ok(Done)) }

  function Raise(cs: Channels, error: Error): Effect { Effect(cs, [], Err(error)) }

  predicate Confirmed(cs: Channels, k: Key) { k in cs && cs[k].confirmed }

  predicate Unconfirmed(cs: Channels, k: Key) { k in cs && !cs[k].confirmed }

  // Events relayed from the blockchain

  function EventOpened(cs: Channels, k: Key, deposit: nat): Effect {
    if Confirmed(cs, k) then Succeed(cs)
    else if k.openBlock == 0 then Raise(cs, AssertionError)
    else Succeed(cs[k := NewChannel(k, deposit, true)])
  }

  function UnconfirmedEventOpened(cs: Channels, k: Key, deposit: nat): Effect {
    if k.openBlock == 0 then Raise(cs, AssertionError)
    else if k in cs then Succeed(cs)
    else Succeed(cs[k := NewChannel(k, deposit, false)])
  }

  /** A dispute submits the stored balance and then writes back the channel as it was read. */
  function EventCloseRequested(env: Env, cs: Channels, k: Key, balance: nat, settleTimeout: nat,
                               canSend: bool): Effect {
    if !Confirmed(cs, k) then Succeed(cs)
    else
      var c := cs[k];
      if c.balance > balance then
        var closing := CloseChannel(env, cs, k, canSend);
        if closing.result.Err? then closing
        else closing.(channels := closing.channels[k := c])
      else
        Succeed(cs[k := c.(settleTimeout := settleTimeout, state := CLOSED, confirmed := true)])
  }

  function EventSettled(cs: Channels, k: Key): Effect {
    if k.openBlock == 0 || k !in cs then Raise(cs, AssertionError)
    else Succeed(cs - {k})
  }

  function UnconfirmedEventTopup(cs: Channels, k: Key, tx: TxHash, added: nat): Effect {
    if Confirmed(cs, k) then
      Succeed(cs[k := cs[k].(topups := cs[k].topups[tx := added])])
    else if Unconfirmed(cs, k) then Succeed(cs)
    else Raise(cs, AssertionError)
  }

  function EventTopup(cs: Channels, k: Key, tx: TxHash, added: nat): Effect {
    if !Confirmed(cs, k) then Raise(cs, AssertionError)
    else
      var c := cs[k];
      if c.IsClosed() then Succeed(cs)
      else Succeed(cs[k := c.(deposit := c.deposit + added, topups := c.topups - {tx})])
  }

  // Calls made by the receiver and its HTTP server

  function CloseChannel(env: Env, cs: Channels, k: Key, canSend: bool): Effect {
    if !Confirmed(cs, k) then Succeed(cs)
    else
      var c := cs[k];
      match c.lastSignature
      case None => Raise(cs, NoBalanceProofReceived)
      case Some(signature) =>
        if canSend then
          var tx := CooperativeClose(env.receiver, k.openBlock, c.balance, signature, env.CloseSignature(k, c.balance));
          Effect(cs[k := c.(state := CLOSED)], [tx], Ok(Done))
        else
          Raise(cs[k := c.(state := CLOSE_PENDING)], InsufficientBalance)
  }

  function ForceCloseChannel(env: Env, cs: Channels, k: Key, canSend: bool): Effect {
    var closing := CloseChannel(env, cs, k, canSend);
    if closing.result == Err(NoBalanceProofReceived) then
      Succeed(cs[k := cs[k].(state := CLOSED)])
    else closing
  }

  function SignClose(env: Env, cs: Channels, k: Key, balance: int): Effect {
    if !Confirmed(cs, k) then Raise(cs, NoOpenChannel)
    else
      var c := cs[k];
      if c.IsClosed() then Raise(cs, NoOpenChannel)
      else if c.lastSignature.None? then Raise(cs, NoBalanceProofReceived)
      else if balance != c.balance then Raise(cs, InvalidBalanceProof)
      else Effect(cs[k := c.(state := CLOSED)], [], Ok(ClosingSignature(env.CloseSignature(k, c.balance))))
  }

  /** The stored channel, when the balance proof is valid for it. */
  function VerifyBalanceProof(env: Env, cs: Channels, k: Key, balance: int, signature: Signature): Result<Channel,
                              Error> {
    if Unconfirmed(cs, k) then Err(InsufficientConfirmations)
    else if k !in cs then Err(NoOpenChannel)
    else if cs[k].IsClosed() then Err(NoOpenChannel)
    else if !env.Proves(k, balance, signature) then Err(InvalidBalanceProof)
    else Ok(cs[k])
  }

  function RegisterPayment(env: Env, cs: Channels, k: Key, balance: int, signature: Signature): Effect {
    match VerifyBalanceProof(env, cs, k, balance, signature)
    case Err(e) => Raise(cs, e)
    case Ok(c) =>
      if balance <= c.balance then Raise(cs, InvalidBalanceAmount)
      else if balance > c.deposit then Raise(cs, InvalidBalanceProof)
      else
        Effect(cs[k := c.(balance := balance, lastSignature := Some(signature))],
               [],
               Ok(Received(c.key.sender, balance - c.balance)))
  }

  /** Forgets unconfirmed channels and all unconfirmed top-ups. */
  function ResetUnconfirmed(cs: Channels): Channels {
    map k | k in cs && cs[k].confirmed :: cs[k].(topups := map[])
  }

  // Steps and runs

  datatype Step =
    | Opened(k: Key, deposit: nat)
    | UnconfirmedOpened(k: Key, deposit: nat)
    | CloseRequested(k: Key, closeBalance: nat, settleTimeout: nat, canSend: bool)
    | Settled(k: Key)
    | UnconfirmedTopup(k: Key, tx: TxHash, added: nat)
    | Topup(k: Key, tx: TxHash, added: nat)
    | Close(k: Key, canSend: bool)
    | ForceClose(k: Key, canSend: bool)
    | Sign(k: Key, balance: int)
    | Pay(k: Key, balance: int, signature: Signature)
    | Reset

  function Apply(env: Env, cs: Channels, step: Step): Effect {
    match step
    case Opened(k, deposit) => EventOpened(cs, k, deposit)
    case UnconfirmedOpened(k, deposit) => UnconfirmedEventOpened(cs, k, deposit)
    case CloseRequested(k, balance, timeout, canSend) => EventCloseRequested(env, cs, k, balance, timeout, canSend)
    case Settled(k) => EventSettled(cs, k)
    case UnconfirmedTopup(k, tx, added) => UnconfirmedEventTopup(cs, k, tx, added)
    case Topup(k, tx, added) => EventTopup(cs, k, tx, added)
    case Close(k, canSend) => CloseChannel(env, cs, k, canSend)
    case ForceClose(k, canSend) => ForceCloseChannel(env, cs, k, canSend)
    case Sign(k, balance) => SignClose(env, cs, k, balance)
    case Pay(k, balance, signature) => RegisterPayment(env, cs, k, balance, signature)
    case Reset => Succeed(ResetUnconfirmed(cs))
  }

  /** The channels stored after performing the steps in order, whatever each of them returned. */
  function Run(env: Env, cs: Channels, steps: seq<Step>): Channels {
    if steps == [] then cs
    else Apply(env, Run(env, cs, steps[..|steps| - 1]), steps[|steps| - 1]).channels
  }

  /** All closing transactions submitted by the steps. */
  function Sent(env: Env, cs: Channels, steps: seq<Step>): seq<CooperativeClose> {
    if steps == [] then []
    else
      var before := steps[..|steps| - 1];
      Sent(env, cs, before) + Apply(env, Run(env, cs, before), steps[|steps| - 1]).sent
  }
}
