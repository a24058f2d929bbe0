/** The sender's side of a channel: it signs cumulative balances. */
module SenderChannels {
  import opened Wrappers
  import opened ReceiverChannel

  datatype SenderState = Open | Settling | Closed

  /** What a channel object holds, with the balances it has ever signed. */
  datatype SenderView = SenderView(deposit: int, balance: int, state: SenderState, signed: set<int>)

  function SignBalance(v: SenderView, balance: int): SenderView {
    v.(balance := balance, signed := v.signed + {balance})
  }

  predicate Suitable(v: SenderView, value: int) { v.deposit - v.balance >= value }

  predicate CanTransfer(v: SenderView, value: int) { value <= v.deposit - v.balance && v.state != Closed }

  function AfterTransfer(v: SenderView, value: nat): SenderView {
    if CanTransfer(v, value) then SignBalance(v, v.balance + value) else v
  }

  predicate CanTopup(v: SenderView, amount: nat, tokens: nat, confirmed: bool) {
    v.state == Open && amount <= tokens && confirmed
  }

  function AfterTopup(v: SenderView, amount: nat, tokens: nat, confirmed: bool): SenderView {
    if CanTopup(v, amount, tokens, confirmed) then v.(deposit := v.deposit + amount) else v
  }

  /** An explicit balance overrides, and signs, before the transaction is known to have succeeded. */
  function AfterClose(v: SenderView, balance: Option<int>, confirmed: bool): SenderView {
    if v.state != Open then v
    else
      var w := if balance.Some? then SignBalance(v, balance.value) else v;
      if confirmed then w.(state := Settling) else w
  }

  function AfterCooperativeClose(v: SenderView, valid: bool, confirmed: bool): SenderView {
    if v.state != Closed && valid && confirmed then v.(state := Closed) else v
  }

  function AfterSettle(v: SenderView, settleBlock: int, currentBlock: int, confirmed: bool): SenderView {
    if v.state == Settling && settleBlock <= currentBlock && confirmed then v.(state := Closed) else v
  }

  // What the operations mean for each other

  /** A transfer takes its value out of the room, and is possible if and only if the room has it and the channel is not
      closed. */
  lemma TransferTakesRoom(v: SenderView, value: nat)
    ensures var w := AfterTransfer(v, value);
            && w.deposit == v.deposit && w.state == v.state
            && (if value <= v.deposit - v.balance && v.state != Closed
                then w.balance == v.balance + value && w.signed == v.signed + {v.balance + value}
                else w == v)
  {
  }

  /** Settling closes a channel if and only if its close was requested and confirmed before and its block is reached; a
      cooperative close closes it from any state. */
  lemma OnlyRequestedChannelsSettle(v: SenderView, explicit: Option<int>, requested: bool,
                                    block: int, current: int, mined: bool)
    requires v.state == Open
    ensures AfterSettle(v, block, current, mined) == v
    ensures var w := AfterSettle(AfterClose(v, explicit, requested), block, current, mined);
            && (w.state == Closed <==> requested && block <= current && mined)
            && (w.state == Settling <==> requested && !(block <= current && mined))
            && w.deposit == v.deposit
            && w.balance == (if explicit.Some? then explicit.value else v.balance)
            && w.signed == (if explicit.Some? then v.signed + {explicit.value} else v.signed)
  {
  }

  /** A channel whose close was requested takes no top-up and no second request; a closed one takes nothing. */
  lemma ClosedTakesNothing(v: SenderView, amount: nat, tokens: nat, value: nat, explicit: Option<int>, confirmed: bool)
    ensures v.state != Open ==> AfterTopup(v, amount, tokens, confirmed) == v && AfterClose(v, explicit, confirmed) == v
    ensures v.state == Closed && value > 0 ==> AfterTransfer(v, value) == v
    ensures v.state == Open ==>
              AfterTopup(v, amount, tokens, confirmed).deposit == v.deposit + (if amount <= tokens && confirmed then amount else 0)
  {
  }

  lemma CooperativeCloseCloses(v: SenderView, valid: bool, confirmed: bool)
    ensures var w := AfterCooperativeClose(v, valid, confirmed);
            && (w.state == Closed <==> v.state == Closed || (valid && confirmed))
            && w == v.(state := w.state) && (w.state != Closed ==> w.state == v.state)
  {
  }

  /** Keys and addresses of one sender. */
  datatype Signer = Signer(address: Address, contract: Address, sign: BalanceMessage -> Signature)

  class SenderChannel {
    const signer: Signer
    const receiver: Address
    const block: nat
    var deposit: int
    var balance: int
    var balanceSig: Signature
    var state: SenderState
    /** The balances ever signed for this channel. */
    ghost var signed: set<int>

    ghost predicate Valid()
      reads this
    {
      balanceSig == signer.sign(Message()) && balance in signed
    }

    function Message(): BalanceMessage
      reads this
    {
      BalanceMessage(receiver, block, balance, signer.contract)
    }

    ghost function View(): SenderView
      reads this
    {
      SenderView(deposit, balance, state, signed)
    }

    constructor (signer: Signer, receiver: Address, block: nat, deposit: int, balance: int, state: SenderState)
      ensures Valid() && View() == SenderView(deposit, balance, state, {balance})
      ensures this.signer == signer && this.receiver == receiver && this.block == block
    {
      this.signer, this.receiver, this.block := signer, receiver, block;
      this.deposit, this.balance, this.state := deposit, balance, state;
      this.balanceSig := signer.sign(BalanceMessage(receiver, block, balance, signer.contract));
      this.signed := {balance};
    }

    method UpdateBalance(value: int)
      modifies this`balance, this`balanceSig, this`signed
      ensures Valid() && View() == SignBalance(old(View()), value)
    {
      balance := value;
      balanceSig := signer.sign(Message());
      signed := signed + {value};
    }

    /** Blocks until the top-up is mined; `confirmed` tells whether its event arrived. */
    method TopUp(amount: nat, tokens: nat, confirmed: bool) returns (done: bool)
      requires Valid()
      modifies this`deposit
      ensures Valid() && View() == AfterTopup(old(View()), amount, tokens, confirmed)
      ensures done == CanTopup(old(View()), amount, tokens, confirmed)
    {
      if state != Open || tokens < amount || !confirmed {
        return false;
      }
      deposit := deposit + amount;
      return true;
    }

    method RequestClose(explicit: Option<int>, confirmed: bool) returns (done: bool)
      requires Valid()
      modifies this`balance, this`balanceSig, this`signed, this`state
      ensures Valid() && View() == AfterClose(old(View()), explicit, confirmed)
      ensures done == (old(state) == Open && confirmed)
    {
      if state != Open {
        return false;
      }
      if explicit.Some? {
        UpdateBalance(explicit.value);
      }
      if !confirmed {
        return false;
      }
      state := Settling;
      return true;
    }

    /** `recovered` is the address recovered from the receiver's closing signature. */
    method CooperativeClose(recovered: Address, confirmed: bool) returns (done: bool)
      requires Valid()
      modifies this`state
      ensures Valid() && View() == AfterCooperativeClose(old(View()), recovered == receiver, confirmed)
      ensures done == (old(state) != Closed && recovered == receiver && confirmed)
    {
      if state == Closed || recovered != receiver || !confirmed {
        return false;
      }
      state := Closed;
      return true;
    }

    method SettleChannel(settleBlock: int, currentBlock: int, confirmed: bool) returns (done: bool)
      requires Valid()
      modifies this`state
      ensures Valid() && View() == AfterSettle(old(View()), settleBlock, currentBlock, confirmed)
      ensures done == (old(state) == Settling && settleBlock <= currentBlock && confirmed)
    {
      if state != Settling || settleBlock - currentBlock > 0 || !confirmed {
        return false;
      }
      state := Closed;
      return true;
    }

    /** Signs the balance raised by value; the signature proves exactly the new balance. */
    method Transfer(value: nat) returns (signature: Option<Signature>)
      requires Valid()
      modifies this`balance, this`balanceSig, this`signed
      ensures Valid() && View() == AfterTransfer(old(View()), value)
      ensures signature ==
              if value <= old(deposit - balance) && old(state) != Closed
              then Some(signer.sign(BalanceMessage(receiver, block, old(balance) + value, signer.contract)))
              else None
    {
      if value > deposit - balance {
        return None;
      }
      if state == Closed {
        return None;
      }
      UpdateBalance(balance + value);
      return Some(balanceSig);
    }

    method IsValid() returns (valid: bool)
      requires Valid()
      ensures valid <==> balance <= deposit
    {
      valid := signer.sign(Message()) == balanceSig && balance <= deposit;
    }
  }
}
