/** The sender's HTTP session: how it reacts to the server's replies. */
module Sessions {
  import opened Wrappers
  import opened ReceiverChannel
  import opened SenderChannels
  import opened JointProtocol
  import opened Clients

  /** What the environment answers while a payment is prepared: results of the deposit callables, the token
      balance, whether a top-up event arrived, and the block a new channel was created in. */
  datatype Answers = Answers(initial: nat, topup: nat, tokens: nat, confirmed: bool, createdIn: Option<nat>)

  /** Whether the request is sent again; a price that is not positive fails an assertion. */
  datatype Reaction = Retry | Stop | AssertionError

  class Session {
    const client: Client
    const recover: (BalanceMessage, Signature) -> Address
    var channel: SenderChannel?

    constructor (client: Client, recover: (BalanceMessage, Signature) -> Address)
      ensures this.client == client && this.recover == recover && channel == null
    {
      this.client, this.recover, channel := client, recover, null;
    }

    ghost predicate Valid()
      reads this, client, client.held.Values, channel
    {
      client.Valid() && (channel != null ==> channel.Valid())
    }

    /** The session's channel, found or funded by the client, has signed the amount: a new one as its first
        balance, one the client had before on top of its balance. */
    twostate predicate Signed(receiver: Address, deposit: int, amount: int)
      reads this, channel
    {
      channel != null ==>
        && channel.receiver == receiver && channel.state == Open
        && (fresh(channel) ==> channel.deposit == deposit && channel.balance == amount && channel.signed == {0, amount})
        && (!fresh(channel) ==>
              var c := channel;
              && c in old(client.channels) && old(c.state) == Open
              && c.balance == old(c.balance) + amount && c.signed == old(c.signed) + {c.balance})
    }

    /** Without an open channel the client finds or funds one, which can carry the price. */
    method SwitchChannel(receiver: Address, price: nat, a: Answers)
      requires client.Valid() && price > 0
      modifies this`channel, client, client.held.Values
      ensures channel != null ==> channel.Valid() && Suitable(channel.View(), price)
      ensures channel != null ==> fresh(channel) || channel in old(client.held).Values
      ensures Signed(receiver, Max(price, a.initial), 0)
      ensures old(channel != null && channel.state != Open) ==>
                channel != old(channel) && old(channel).View() == old(channel.View())
    {
      channel := client.GetSuitableChannel(receiver, price, a.initial, a.topup, a.tokens, a.confirmed, a.createdIn);
    }

    /** Prepares a payment of the price the server asks for. An open channel is topped up if need be and kept;
        otherwise the client finds or funds one, on which the price is then always signed. */
    method OnPaymentRequested(receiver: Address, price: int, a: Answers) returns (r: Reaction)
      requires Valid()
      modifies this`channel, client, client.held.Values, channel
      ensures channel != null ==> channel.Valid()
      ensures r == AssertionError <==> price <= 0
      ensures price <= 0 ==> channel == old(channel) && (channel != null ==> channel.View() == old(channel.View()))
      ensures price > 0 && old(channel != null && channel.state == Open) ==>
                && r == Retry && channel == old(channel)
                && channel.View() == PayPrice(old(channel.View()), price, a.topup, a.tokens, a.confirmed)
      ensures price > 0 && !old(channel != null && channel.state == Open) ==>
                (r == Retry <==> channel != null) && Signed(receiver, Max(price, a.initial), price)
      ensures old(channel != null && channel.state != Open) ==> old(channel).View() == old(channel.View())
    {
      if price <= 0 {
        return AssertionError;
      }
      if channel == null || channel.state != Open {
        SwitchChannel(receiver, price, a);
      } else if channel.deposit - channel.balance < price {
        var _ := channel.TopUp(a.topup, a.tokens, a.confirmed);
      }
      if channel == null {
        return Stop;
      }
      var _ := channel.Transfer(price);
      return Retry;
    }

    /** The server rejected the amount: adopt a balance it can prove, or start again from 0. */
    method OnInvalidAmount(lastBalance: int, signature: Option<Signature>, receiver: Address, price: int, a: Answers,
                           ghost env: Env)
      returns (r: Reaction)
      requires Valid() && channel != null
      requires env.recover == recover && env.receiver == channel.receiver && env.contract == channel.signer.contract
      modifies this`channel, client, client.held.Values, channel
      ensures channel != null ==> channel.Valid()
      ensures var k := Key(old(channel).signer.address, old(channel).block);
              old(channel.state) == Open ==>
                && channel == old(channel)
                && (r == Stop <==> Disguised(env, k, old(channel.View()), lastBalance, signature))
                && (r == AssertionError <==> r != Stop && price <= 0)
                && var resynced := Resync(env, k, old(channel.View()), lastBalance, signature);
                   channel.View() ==
                   if r == Retry then PayPrice(resynced, price, a.topup, a.tokens, a.confirmed) else resynced
      ensures var k := Key(old(channel).signer.address, old(channel).block);
              var disguised := Disguised(env, k, old(channel.View()), lastBalance, signature);
              old(channel.state) != Open ==>
                && old(channel).View() == Resync(env, k, old(channel.View()), lastBalance, signature)
                && (r == AssertionError <==> !disguised && price <= 0)
                && (disguised || price <= 0 ==> r != Retry && channel == old(channel))
                && (!disguised && price > 0 ==>
                      (r == Retry <==> channel != null) && Signed(receiver, Max(price, a.initial), price))
    {
      var verified := signature.Some? &&
        recover(BalanceMessage(channel.receiver, channel.block, lastBalance, channel.signer.contract), signature.value)
        == channel.signer.address;
      if verified {
        if lastBalance == channel.balance {
          return Stop;
        }
        channel.UpdateBalance(lastBalance);
      } else {
        channel.UpdateBalance(0);
      }
      r := OnPaymentRequested(receiver, price, a);
    }

    /** Without a closing signature the session requests a close at balance 0. */
    method OnCooperativeCloseDenied(confirmed: bool)
      requires channel != null && channel.Valid()
      modifies channel
      ensures channel.Valid() && channel.View() == AfterClose(old(channel.View()), Some(0), confirmed)
    {
      var _ := channel.RequestClose(Some(0), confirmed);
    }
  }
}
