/** The receiver's view of a payment channel and the messages that move its balance. */
module ReceiverChannel {
  import opened Wrappers

  type Address = string
  type Signature = string
  type TxHash = string

  /** A channel is identified by its sender and the block it was opened in. */
  datatype Key = Key(sender: Address, openBlock: nat)

  datatype ChannelState = OPEN | CLOSED | CLOSE_PENDING

  datatype Channel = Channel(
    key: Key,
    deposit: int,
    balance: int,
    state: ChannelState,
    lastSignature: Option<Signature>,
    settleTimeout: int,
    confirmed: bool,
    topups: map<TxHash, nat>)
  {
    predicate IsClosed() {
      state == CLOSED || state == CLOSE_PENDING
    }
  }

  function NewChannel(key: Key, deposit: nat, confirmed: bool): Channel {
    Channel(key, deposit, 0, OPEN, None, -1, confirmed, map[])
  }

  datatype BalanceMessage = BalanceMessage(receiver: Address, openBlock: nat, balance: int, contract: Address)

  datatype ClosingMessage = ClosingMessage(sender: Address, openBlock: nat, balance: int, contract: Address)

  /** What the receiver signs and submits to close a channel on-chain. */
  datatype CooperativeClose = CooperativeClose(
    receiver: Address,
    openBlock: nat,
    balance: int,
    balanceSignature: Signature,
    closingSignature: Signature)

  /** The receiver's identity, its contract, and the signature scheme (left uninterpreted). */
  datatype Env = Env(
    receiver: Address,
    contract: Address,
    recover: (BalanceMessage, Signature) -> Address,
    signClose: ClosingMessage -> Signature)
  {
    function Message(openBlock: nat, balance: int): BalanceMessage {
      BalanceMessage(receiver, openBlock, balance, contract)
    }

    /** The signature recovers to the channel's sender for exactly this balance. */
    predicate Proves(key: Key, balance: int, signature: Signature) {
      recover(Message(key.openBlock, balance), signature) == key.sender
    }

    function CloseSignature(key: Key, balance: int): Signature {
      signClose(ClosingMessage(key.sender, key.openBlock, balance, contract))
    }
  }
}
