/** The receiver's channel manager: every operation reads channels from the tables, changes a copy and
    stores it back. Each is proved to have exactly the effect its function in `ReceiverSpec` describes. */
module ChannelManagers {
  import Collections
  import opened Wrappers
  import opened ReceiverChannel
  import opened ReceiverSpec
  import opened StateTables
  import ReceiverSafety
  import MapSums

  class ChannelManager {
    const env: Env
    const state: ChannelManagerState
    /** The closing transactions accepted by the network so far. */
    var sent: seq<CooperativeClose>

    /** Takes over the state stored by an earlier manager, or starts with an empty one. */
    constructor (env: Env, stored: ChannelManagerState?)
      requires stored != null ==> stored.Valid()
      ensures this.env == env && sent == [] && state.Valid()
      ensures stored != null ==> state == stored
      ensures stored == null ==>
                && fresh(state) && state.contents == map[]
                && state.confirmedHeadNumber.None? && state.unconfirmedHeadNumber.None?
                && state.confirmedHeadHash.None? && state.unconfirmedHeadHash.None?
    {
      this.env := env;
      if stored == null {
        this.state := new ChannelManagerState();
      } else {
        this.state := stored;
      }
      this.sent := [];
    }

    method SetHead(unconfirmedNumber: nat, unconfirmedHash: BlockHash, confirmedNumber: nat, confirmedHash: BlockHash)
      returns (r: Result<Reply, Error>)
      modifies state`confirmedHeadNumber, state`confirmedHeadHash,
               state`unconfirmedHeadNumber, state`unconfirmedHeadHash
      ensures r == (if 0 < confirmedNumber < unconfirmedNumber then Ok(Done) else Err(AssertionError))
      ensures r.Ok? ==>
                && state.unconfirmedHeadNumber == Some(unconfirmedNumber)
                && state.unconfirmedHeadHash == Some(unconfirmedHash)
                && state.confirmedHeadNumber == Some(confirmedNumber)
                && state.confirmedHeadHash == Some(confirmedHash)
      ensures r.Err? ==> unchanged(state)
    {
      if !(unconfirmedNumber > 0 && confirmedNumber > 0 && confirmedNumber < unconfirmedNumber) {
        return Err(AssertionError);
      }
      state.UpdateSyncState(Some(confirmedNumber), Some(confirmedHash), Some(unconfirmedNumber), Some(unconfirmedHash));
      return Ok(Done);
    }

    // Events relayed from the blockchain

    method EventChannelOpened(k: Key, deposit: nat) returns (r: Result<Reply, Error>)
      requires state.Valid()
      modifies state`rows, state`topups, state`contents, state`index
      ensures state.Valid()
      ensures var e := EventOpened(old(state.contents), k, deposit);
              state.contents == e.channels && r == e.result
    {
      var channels := state.GetChannels(true);
      if k in channels {
        return Ok(Done);
      }
      if k.openBlock == 0 {
        return Err(AssertionError);
      }
      state.AddChannel(NewChannel(k, deposit, true));
      return Ok(Done);
    }

    method UnconfirmedEventChannelOpened(k: Key, deposit: nat) returns (r: Result<Reply, Error>)
      requires state.Valid()
      modifies state`rows, state`topups, state`contents, state`index
      ensures state.Valid()
      ensures var e := UnconfirmedEventOpened(old(state.contents), k, deposit);
              state.contents == e.channels && r == e.result
    {
      if k.openBlock == 0 {
        return Err(AssertionError);
      }
      var unconfirmed := state.GetChannels(false);
      var channels := state.GetChannels(true);
      if k in unconfirmed || k in channels {
        return Ok(Done);
      }
      state.AddChannel(NewChannel(k, deposit, false));
      return Ok(Done);
    }

    method EventChannelCloseRequested(k: Key, balance: nat, settleTimeout: nat, canSend: bool)
      returns (r: Result<Reply, Error>)
      requires state.Valid()
      modifies this`sent, state`rows, state`topups, state`contents, state`index
      ensures state.Valid()
      ensures var e := EventCloseRequested(env, old(state.contents), k, balance, settleTimeout, canSend);
              state.contents == e.channels && sent == old(sent) + e.sent && r == e.result
    {
      var channels := state.GetChannels(true);
      if k !in channels {
        return Ok(Done);
      }
      var c := channels[k];
      state.StoredUnderOwnKey(k);
      if c.balance > balance {
        var closing := CloseChannel(k, canSend);
        if closing.Err? {
          return closing;
        }
      } else {
        c := c.(settleTimeout := settleTimeout, state := CLOSED, confirmed := true);
      }
      state.AddChannel(c);
      return Ok(Done);
    }

    method EventChannelSettled(k: Key) returns (r: Result<Reply, Error>)
      requires state.Valid()
      modifies state`rows, state`contents, state`index
      ensures state.Valid()
      ensures var e := EventSettled(old(state.contents), k);
              state.contents == e.channels && r == e.result
    {
      var stored := state.ChannelExists(k);
      if k.openBlock == 0 || !stored {
        return Err(AssertionError);
      }
      state.DelChannel(k);
      return Ok(Done);
    }

    method UnconfirmedEventChannelTopup(k: Key, tx: TxHash, added: nat) returns (r: Result<Reply, Error>)
      requires state.Valid()
      modifies state`rows, state`topups, state`contents, state`index
      ensures state.Valid()
      ensures var e := UnconfirmedEventTopup(old(state.contents), k, tx, added);
              state.contents == e.channels && r == e.result
    {
      var channels := state.GetChannels(true);
      if k !in channels {
        var unconfirmed := state.GetChannels(false);
        return if k in unconfirmed then Ok(Done) else Err(AssertionError);
      }
      state.StoredUnderOwnKey(k);
      var c := channels[k];
      state.AddChannel(c.(topups := c.topups[tx := added]));
      return Ok(Done);
    }

    method EventChannelTopup(k: Key, tx: TxHash, added: nat) returns (r: Result<Reply, Error>)
      requires state.Valid()
      modifies state`rows, state`topups, state`contents, state`index
      ensures state.Valid()
      ensures var e := EventTopup(old(state.contents), k, tx, added);
              state.contents == e.channels && r == e.result
    {
      var channels := state.GetChannels(true);
      if k !in channels {
        return Err(AssertionError);
      }
      state.StoredUnderOwnKey(k);
      var c := channels[k];
      assert c == state.contents[k] && c.key == k;
      if c.IsClosed() {
        return Ok(Done);
      }
      state.AddChannel(c.(deposit := c.deposit + added, topups := c.topups - {tx}));
      return Ok(Done);
    }

    // Closing

    method CloseChannel(k: Key, canSend: bool) returns (r: Result<Reply, Error>)
      requires state.Valid()
      modifies this`sent, state`rows, state`topups, state`contents, state`index
      ensures state.Valid()
      ensures var e := ReceiverSpec.CloseChannel(env, old(state.contents), k, canSend);
              state.contents == e.channels && sent == old(sent) + e.sent && r == e.result
    {
      var channels := state.GetChannels(true);
      if k !in channels {
        return Ok(Done);
      }
      state.StoredUnderOwnKey(k);
      var c := channels[k];
      if c.lastSignature.None? {
        return Err(NoBalanceProofReceived);
      }
      var closingSignature := env.CloseSignature(k, c.balance);
      var tx := CooperativeClose(env.receiver, k.openBlock, c.balance, c.lastSignature.value, closingSignature);
      ghost var before := state.contents;
      assert c == before[k] && c.key == k;
      c := c.(state := CLOSED);
      state.AddChannel(c);
      if canSend {
        sent := sent + [tx];
        return Ok(Done);
      } else {
        UpdateTwice(before, k, c, c.(state := CLOSE_PENDING));
        c := c.(state := CLOSE_PENDING);
        state.AddChannel(c);
        return Err(InsufficientBalance);
      }
    }

    method ForceCloseChannel(k: Key, canSend: bool) returns (r: Result<Reply, Error>)
      requires state.Valid()
      modifies this`sent, state`rows, state`topups, state`contents, state`index
      ensures state.Valid()
      ensures var e := ReceiverSpec.ForceCloseChannel(env, old(state.contents), k, canSend);
              state.contents == e.channels && sent == old(sent) + e.sent && r == e.result
    {
      r := CloseChannel(k, canSend);
      if r == Err(NoBalanceProofReceived) {
        var channels := state.GetChannels(true);
        state.StoredUnderOwnKey(k);
        state.AddChannel(channels[k].(state := CLOSED));
        r := Ok(Done);
      }
    }

    method SignClose(k: Key, balance: int) returns (r: Result<Reply, Error>)
      requires state.Valid()
      modifies state`rows, state`topups, state`contents, state`index
      ensures state.Valid()
      ensures var e := ReceiverSpec.SignClose(env, old(state.contents), k, balance);
              state.contents == e.channels && r == e.result
    {
      var channels := state.GetChannels(true);
      if k !in channels {
        return Err(NoOpenChannel);
      }
      state.StoredUnderOwnKey(k);
      var c := channels[k];
      if c.IsClosed() {
        return Err(NoOpenChannel);
      }
      if c.lastSignature.None? {
        return Err(NoBalanceProofReceived);
      }
      if balance != c.balance {
        return Err(InvalidBalanceProof);
      }
      c := c.(state := CLOSED);
      state.AddChannel(c);
      return Ok(ClosingSignature(env.CloseSignature(k, c.balance)));
    }

    /** Retries one of them, as the next step of a run. */
    method ClosePendingChannel(k: Key, ok: bool, ghost before: Channels, ghost steps: seq<Step>,
                               ghost already: seq<CooperativeClose>)
      returns (r: Result<Reply, Error>)
      requires state.Valid() && ReceiverSafety.Inv(env, state.contents) && k in Pending(state.contents)
      requires state.contents == Run(env, before, steps) && sent == already + Sent(env, before, steps)
      modifies this`sent, state`rows, state`topups, state`contents, state`index
      ensures state.Valid() && ReceiverSafety.Inv(env, state.contents)
      ensures var longer := steps + [Close(k, ok)];
              state.contents == Run(env, before, longer) && sent == already + Sent(env, before, longer)
      ensures r == if ok then Ok(Done) else Err(InsufficientBalance)
      ensures Pending(state.contents) == if ok then Pending(old(state.contents)) - {k} else Pending(old(state.contents))
    {
      ClosePendingStep(env, before, steps, k, ok);
      Associate(already, Sent(env, before, steps), ReceiverSpec.CloseChannel(env, state.contents, k, ok).sent);
      r := CloseChannel(k, ok);
    }

    /** Retries the closes that could not be paid for, stopping at the first that still cannot. */
    method ClosePendingChannels(canSend: Key -> bool) returns (r: Result<Reply, Error>, ghost steps: seq<Step>)
      requires state.Valid() && ReceiverSafety.Inv(env, state.contents)
      modifies this`sent, state`rows, state`topups, state`contents, state`index
      ensures state.Valid()
      ensures forall s :: s in steps ==> s.Close? && s.canSend == canSend(s.k)
      ensures state.contents == Run(env, old(state.contents), steps)
      ensures sent == old(sent) + Sent(env, old(state.contents), steps)
      ensures r == Ok(Done) || r == Err(InsufficientBalance)
      ensures r.Ok? <==> AllSendable(Pending(old(state.contents)), canSend)
      ensures r.Ok? ==> Pending(state.contents) == {}
    {
      ghost var before := state.contents;
      steps := [];
      var pending := state.PendingChannels();
      var todo := pending.Keys;
      while todo != {}
        invariant state.Valid() && ReceiverSafety.Inv(env, state.contents)
        invariant forall s :: s in steps ==> s.Close? && s.canSend == canSend(s.k)
        invariant state.contents == Run(env, before, steps)
        invariant sent == old(sent) + Sent(env, before, steps)
        invariant Pending(state.contents) == todo <= Pending(before)
        invariant AllSendable(Pending(before) - todo, canSend)
        decreases |todo|
      {
        var k :| k in todo;
        var ok := canSend(k);
        r := ClosePendingChannel(k, ok, before, steps, old(sent));
        steps := steps + [Close(k, ok)];
        if r.Err? {
          return;
        }
        SendableOneMore(Pending(before), todo, k, canSend);
        todo := todo - {k};
      }
      r := Ok(Done);
    }

    // Payments

    method GetLockedBalance() returns (total: int)
      requires state.Valid()
      ensures total == ReceiverSafety.Locked(state.contents)
    {
      var channels := state.GetChannels(true);
      ghost var balances := ReceiverSafety.ConfirmedBalances(state.contents);
      total := 0;
      var todo := channels.Keys;
      assert balances - todo == map[];
      while todo != {}
        invariant todo <= channels.Keys == balances.Keys
        invariant forall k :: k in channels ==> channels[k].balance == balances[k]
        invariant total == MapSums.Sum(balances - todo)
        decreases |todo|
      {
        var k :| k in todo;
        MapSums.SumOneMore(balances, todo, k);
        total := total + channels[k].balance;
        todo := todo - {k};
      }
      assert balances - {} == balances;
    }

    method VerifyBalanceProof(k: Key, balance: int, signature: Signature) returns (r: Result<Channel, Error>)
      requires state.Valid()
      ensures r == ReceiverSpec.VerifyBalanceProof(env, state.contents, k, balance, signature)
    {
      var unconfirmed := state.GetChannels(false);
      if k in unconfirmed {
        return Err(InsufficientConfirmations);
      }
      var channels := state.GetChannels(true);
      if k !in channels {
        return Err(NoOpenChannel);
      }
      var c := channels[k];
      if c.IsClosed() {
        return Err(NoOpenChannel);
      }
      if env.recover(env.Message(k.openBlock, balance), signature) != k.sender {
        return Err(InvalidBalanceProof);
      }
      return Ok(c);
    }

    method RegisterPayment(k: Key, balance: int, signature: Signature) returns (r: Result<Reply, Error>)
      requires state.Valid()
      modifies state`rows, state`topups, state`contents, state`index
      ensures state.Valid()
      ensures var e := ReceiverSpec.RegisterPayment(env, old(state.contents), k, balance, signature);
              state.contents == e.channels && r == e.result
    {
      var verified := VerifyBalanceProof(k, balance, signature);
      if verified.Err? {
        return Err(verified.error);
      }
      state.StoredUnderOwnKey(k);
      var c := verified.value;
      if balance <= c.balance {
        return Err(InvalidBalanceAmount);
      }
      if balance > c.deposit {
        return Err(InvalidBalanceProof);
      }
      var received := balance - c.balance;
      c := c.(balance := balance, lastSignature := Some(signature));
      state.AddChannel(c);
      return Ok(Received(c.key.sender, received));
    }

    method ClearUnconfirmedTopups()
      requires state.Valid() && forall k :: k in state.contents ==> state.contents[k].confirmed
      modifies state`rows, state`topups, state`contents, state`index
      ensures state.Valid() && state.contents == Cleared(old(state.contents), old(state.contents).Keys)
    {
      ghost var base := state.contents;
      var channels := state.GetChannels(true);
      var todo := channels.Keys;
      assert todo == base.Keys;
      ghost var done := {};
      ClearNone(base);
      while todo != {}
        invariant state.Valid() && done + todo == base.Keys
        invariant state.contents == Cleared(base, done)
        decreases |todo|
      {
        var k :| k in todo;
        ClearOneMore(base, done, k);
        state.StoredUnderOwnKey(k);
        var c := channels[k].(topups := map[]);
        assert c.key == k && c == base[k].(topups := map[]);
        state.AddChannel(c);
        Collections.MoveOne(done, todo, k);
        todo, done := todo - {k}, done + {k};
      }
    }

    /** Forgets unconfirmed channels and top-ups and falls back to the confirmed head. */
    method ResetUnconfirmed()
      requires state.Valid()
      modifies state
      ensures state.Valid() && state.contents == ReceiverSpec.ResetUnconfirmed(old(state.contents))
      ensures state.confirmedHeadNumber == old(state.confirmedHeadNumber)
      ensures state.confirmedHeadHash == old(state.confirmedHeadHash)
      ensures state.unconfirmedHeadNumber ==
              old(if state.confirmedHeadNumber.Some? then state.confirmedHeadNumber else state.unconfirmedHeadNumber)
      ensures state.unconfirmedHeadHash ==
              old(if state.confirmedHeadHash.Some? then state.confirmedHeadHash else state.unconfirmedHeadHash)
    {
      state.DelUnconfirmedChannels();
      ClearAll(old(state.contents), state.contents);
      ClearUnconfirmedTopups();
      state.UpdateSyncState(None, None, state.confirmedHeadNumber, None);
      state.UpdateSyncState(None, None, None, state.confirmedHeadHash);
    }
  }

  lemma Associate<T>(a: seq<T>, b: seq<T>, c: seq<T>)
    ensures a + b + c == a + (b + c)
  {
  }

  lemma UpdateTwice(cs: Channels, k: Key, c: Channel, d: Channel)
    ensures cs[k := c][k := d] == cs[k := d]
  {
  }

  /** The channels with the top-ups of the given keys cleared. */
  ghost function Cleared(cs: Channels, keys: set<Key>): Channels {
    map k | k in cs :: if k in keys then cs[k].(topups := map[]) else cs[k]
  }

  lemma ClearNone(cs: Channels)
    ensures Cleared(cs, {}) == cs
  {
  }

  lemma ClearAll(cs: Channels, confirmed: Channels)
    requires confirmed == map k | k in cs && cs[k].confirmed :: cs[k]
    ensures Cleared(confirmed, confirmed.Keys) == ReceiverSpec.ResetUnconfirmed(cs)
  {
  }

  lemma ClearOneMore(cs: Channels, keys: set<Key>, k: Key)
    requires k in cs
    ensures Cleared(cs, keys + {k}) == Cleared(cs, keys)[k := cs[k].(topups := map[])]
  {
  }

  ghost function Pending(cs: Channels): set<Key> {
    set k | k in cs && cs[k].state == CLOSE_PENDING
  }

  ghost predicate AllSendable(keys: set<Key>, canSend: Key -> bool) {
    forall k :: k in keys ==> canSend(k)
  }

  lemma SendableOneMore(keys: set<Key>, todo: set<Key>, k: Key, canSend: Key -> bool)
    requires AllSendable(keys - todo, canSend) && canSend(k)
    ensures AllSendable(keys - (todo - {k}), canSend)
  {
  }

  lemma ClosePendingStep(env: Env, cs: Channels, steps: seq<Step>, k: Key, canSend: bool)
    requires ReceiverSafety.Inv(env, Run(env, cs, steps)) && k in Pending(Run(env, cs, steps))
    ensures var now := Run(env, cs, steps);
            var e := ReceiverSpec.CloseChannel(env, now, k, canSend);
            var longer := steps + [Close(k, canSend)];
            && Run(env, cs, longer) == e.channels
            && Sent(env, cs, longer) == Sent(env, cs, steps) + e.sent
            && ReceiverSafety.Inv(env, e.channels)
            && e.result == (if canSend then Ok(Done) else Err(InsufficientBalance))
            && Pending(e.channels) == (if canSend then Pending(now) - {k} else Pending(now))
  {
    var now, longer := Run(env, cs, steps), steps + [Close(k, canSend)];
    assert longer[..|longer| - 1] == steps;
    ReceiverSafety.StepKeepsInv(env, now, Close(k, canSend));
    assert ReceiverSafety.Good(env, k, now[k]);
  }
}
