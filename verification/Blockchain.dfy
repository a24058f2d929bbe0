/** The watcher that polls the chain and relays its events to the channel manager. */
module Blockchains {
  import opened Wrappers
  import opened ReceiverChannel
  import opened ReceiverSpec
  import opened StateTables
  import opened ChannelManagers
  import opened HeadSync
  import opened ChainLog
  import ReceiverSafety

  /** PROXY_BALANCE_LIMIT: below this the receiver does not try to pay for pending closes. */
  const BALANCE_LIMIT := 100000000

  /** What the Ethereum node answers during one update. */
  datatype ChainView = ChainView(
    height: nat,
    hashAt: nat -> BlockHash,
    known: BlockHash -> bool,
    logs: Logs)

  datatype SyncState = SyncState(
    confirmed: Option<nat>,
    confirmedHash: Option<BlockHash>,
    unconfirmed: Option<nat>,
    unconfirmedHash: Option<BlockHash>)

  /** Everything the receiver keeps: the stored channels, the heads, and the watcher's flags. */
  datatype Node = Node(
    channels: Channels,
    sync: SyncState,
    synced: bool,
    lacksFunds: bool,
    sent: seq<CooperativeClose>)
  {
    /** Heads and their hashes are known once the first synchronisation is complete. */
    predicate Consistent() {
      synced ==>
        sync.confirmed.Some? && sync.confirmedHash.Some? && sync.unconfirmed.Some? && sync.unconfirmedHash.Some?
    }
  }

  datatype Outcome = Outcome(node: Node, result: Result<Reply, Error>)

  const FRESH_NODE := Node(map[], SyncState(None, None, None, None), false, false, [])

  function FallBack(node: Node): Node
    requires node.synced && node.Consistent()
  {
    node.(channels := ResetUnconfirmed(node.channels),
          sync := node.sync.(unconfirmed := node.sync.confirmed, unconfirmedHash := node.sync.confirmedHash))
  }

  /** The two reorganisation checks. */
  function CheckReorg(node: Node, view: ChainView): (m: Node)
    requires node.synced && node.Consistent()
    ensures m.synced && m.Consistent()
  {
    var first := if view.height < node.sync.unconfirmed.value then FallBack(node) else node;
    if !view.known(first.sync.unconfirmedHash.value) then FallBack(first) else first
  }

  function OrStart(cfg: Config, head: Option<nat>): nat {
    match head
    case Some(n) => n
    case None => cfg.startBlock
  }

  function HeadsOf(cfg: Config, node: Node): Heads {
    Heads(OrStart(cfg, node.sync.confirmed), OrStart(cfg, node.sync.unconfirmed))
  }

  function WindowOf(cfg: Config, h: Heads, height: nat): Window {
    Window(h.confirmed, NewConfirmed(cfg, h, height), h.unconfirmed, NewUnconfirmed(cfg, h, height))
  }

  function WithHeads(node: Node, h: Heads): Node {
    node.(sync := node.sync.(confirmed := Some(h.confirmed), unconfirmed := Some(h.unconfirmed)))
  }

  function Relayed(node: Node, p: Progress): Node {
    node.(channels := p.channels, sent := node.sent + p.sent, lacksFunds := node.lacksFunds || p.lacksFunds)
  }

  function Finished(node: Node, view: ChainView, w: Window): Outcome {
    if !HeadsAccepted(w.c', w.u') then Outcome(node, Err(AssertionError))
    else
      Outcome(node.(sync := SyncState(Some(w.c'), Some(view.hashAt(w.c')), Some(w.u'), Some(view.hashAt(w.u'))),
                    synced := node.synced || w.u' == view.height),
              Ok(Done))
  }

  /** Relays what is new since the heads and moves them on. */
  function CatchUp(cfg: Config, env: Env, node: Node, view: ChainView): (o: Outcome)
    ensures node.Consistent() ==> o.node.Consistent()
  {
    var h := HeadsOf(cfg, node);
    var ready := WithHeads(node, h);
    if AlreadyProcessed(cfg, h, view.height) then Outcome(ready, Ok(Done))
    else
      var w := WindowOf(cfg, h, view.height);
      var p := Pass6(env, node.channels, PartsOf(view.logs, w));
      if p.result.Err? then Outcome(Relayed(ready, p), p.result)
      else Finished(Relayed(ready, p), view, w)
  }

  /** One whole update. */
  function Update(cfg: Config, env: Env, node: Node, view: ChainView): (o: Outcome)
    requires node.Consistent()
    ensures o.node.Consistent()
  {
    if node.synced then
      var checked := CheckReorg(node, view);
      if !view.known(checked.sync.confirmedHash.value) then Outcome(checked, Err(AssertionError))
      else CatchUp(cfg, env, checked, view)
    else CatchUp(cfg, env, node, view)
  }

  class Blockchain {
    const cm: ChannelManager
    const cfg: Config
    var synced: bool
    var insufficientBalance: bool

    constructor (cm: ChannelManager, cfg: Config)
      ensures this.cm == cm && this.cfg == cfg && !synced && !insufficientBalance
    {
      this.cm, this.cfg := cm, cfg;
      synced, insufficientBalance := false, false;
    }

    ghost function Abstract(): Node
      reads this, cm, cm.state
    {
      Node(cm.state.contents,
           SyncState(cm.state.confirmedHeadNumber, cm.state.confirmedHeadHash,
                     cm.state.unconfirmedHeadNumber, cm.state.unconfirmedHeadHash),
           synced, insufficientBalance, cm.sent)
    }

    /** The relay has got as far as p, starting with the given sent transactions and flag. */
    ghost predicate At(p: Progress, sent: seq<CooperativeClose>, flag: bool)
      reads this`insufficientBalance, cm`sent, cm.state`contents
    {
      && cm.state.contents == p.channels
      && cm.sent == sent + p.sent
      && insufficientBalance == (flag || p.lacksFunds)
    }

    /** One handler call. */
    method RelayEvent(step: Step, ghost p: Progress, ghost sent: seq<CooperativeClose>, ghost flag: bool)
      returns (r: Result<Reply, Error>)
      requires cm.state.Valid() && At(p, sent, flag)
      requires FromChain(step)
      modifies this`insufficientBalance, cm`sent,
               cm.state`rows, cm.state`topups, cm.state`contents, cm.state`index
      ensures cm.state.Valid() && At(RelayOne(cm.env, p, step), sent, flag)
      ensures r == RelayOne(cm.env, p, step).result
    {
      match step {
        case UnconfirmedOpened(k, deposit) => r := cm.UnconfirmedEventChannelOpened(k, deposit);
        case Opened(k, deposit) => r := cm.EventChannelOpened(k, deposit);
        case UnconfirmedTopup(k, tx, added) => r := cm.UnconfirmedEventChannelTopup(k, tx, added);
        case Topup(k, tx, added) => r := cm.EventChannelTopup(k, tx, added);
        case Settled(k) => r := cm.EventChannelSettled(k);
        case ForceClose(_, _) => r := RelayClosing(step, p, sent, flag);
        case CloseRequested(_, _, _, _) => r := RelayClosing(step, p, sent, flag);
      }
    }

    /** A handler call that may submit a transaction. */
    method RelayClosing(step: Step, ghost p: Progress, ghost sent: seq<CooperativeClose>, ghost flag: bool)
      returns (r: Result<Reply, Error>)
      requires cm.state.Valid() && At(p, sent, flag)
      requires step.ForceClose? || step.CloseRequested?
      modifies this`insufficientBalance, cm`sent,
               cm.state`rows, cm.state`topups, cm.state`contents, cm.state`index
      ensures cm.state.Valid() && At(RelayOne(cm.env, p, step), sent, flag)
      ensures r == RelayOne(cm.env, p, step).result
    {
      Associate(sent, p.sent, Apply(cm.env, p.channels, step).sent);
      match step {
        case ForceClose(k, canSend) => r := cm.ForceCloseChannel(k, canSend);
        case CloseRequested(k, balance, timeout, canSend) => r := RelayCloseRequest(k, balance, timeout, canSend);
      }
    }

    /** A close request whose challenge cannot be paid for is only noted. */
    method RelayCloseRequest(k: Key, balance: nat, timeout: nat, canSend: bool) returns (r: Result<Reply, Error>)
      requires cm.state.Valid()
      modifies this`insufficientBalance, cm`sent,
               cm.state`rows, cm.state`topups, cm.state`contents, cm.state`index
      ensures cm.state.Valid()
      ensures var e := EventCloseRequested(cm.env, old(cm.state.contents), k, balance, timeout, canSend);
              && cm.state.contents == e.channels
              && cm.sent == old(cm.sent) + e.sent
              && insufficientBalance == (old(insufficientBalance) || e.result == Err(InsufficientBalance))
              && r == if e.result == Err(InsufficientBalance) then Ok(Done) else e.result
    {
      r := cm.EventChannelCloseRequested(k, balance, timeout, canSend);
      if r == Err(InsufficientBalance) {
        insufficientBalance := true;
        r := Ok(Done);
      }
    }

    /** Hands the steps to the channel manager one by one, stopping at the first error. */
    method RelayEvents(steps: seq<Step>) returns (r: Result<Reply, Error>)
      requires cm.state.Valid()
      requires forall s :: s in steps ==> FromChain(s)
      modifies this`insufficientBalance, cm`sent,
               cm.state`rows, cm.state`topups, cm.state`contents, cm.state`index
      ensures cm.state.Valid()
      ensures At(Relay(cm.env, old(cm.state.contents), steps), old(cm.sent), old(insufficientBalance))
      ensures r == Relay(cm.env, old(cm.state.contents), steps).result
    {
      r := Ok(Done);
      ghost var before := cm.state.contents;
      for i := 0 to |steps|
        invariant cm.state.Valid()
        invariant At(Relay(cm.env, before, steps[..i]), old(cm.sent), old(insufficientBalance))
        invariant r == Relay(cm.env, before, steps[..i]).result == Ok(Done)
      {
        assert steps[..i + 1] == steps[..i] + [steps[i]];
        RelaySnoc(cm.env, before, steps[..i], steps[i]);
        r := RelayEvent(steps[i], Relay(cm.env, before, steps[..i]), old(cm.sent), old(insufficientBalance));
        if r.Err? {
          RelayStops(cm.env, before, steps, i + 1);
          return;
        }
        assert r == Ok(Done);
      }
      assert steps[..|steps|] == steps;
    }

    /** Another pass over part of the log. */
    method RelayMore(steps: seq<Step>, ghost p: Progress, ghost sent: seq<CooperativeClose>, ghost flag: bool)
      returns (r: Result<Reply, Error>)
      requires cm.state.Valid() && At(p, sent, flag) && p.result.Ok?
      requires forall s :: s in steps ==> FromChain(s)
      modifies this`insufficientBalance, cm`sent,
               cm.state`rows, cm.state`topups, cm.state`contents, cm.state`index
      ensures cm.state.Valid() && At(More(cm.env, p, steps), sent, flag)
      ensures r == More(cm.env, p, steps).result
    {
      Associate(sent, p.sent, Relay(cm.env, p.channels, steps).sent);
      r := RelayEvents(steps);
    }

    /** The six passes over the log. */
    method RelayLogs(parts: Parts) returns (r: Result<Reply, Error>)
      requires cm.state.Valid()
      modifies this`insufficientBalance, cm`sent,
               cm.state`rows, cm.state`topups, cm.state`contents, cm.state`index
      ensures cm.state.Valid()
      ensures At(Pass6(cm.env, old(cm.state.contents), parts), old(cm.sent), old(insufficientBalance))
      ensures r == Pass6(cm.env, old(cm.state.contents), parts).result
    {
      ghost var cs, sent, flag := cm.state.contents, cm.sent, insufficientBalance;
      r := RelayEvents(UnconfirmedOpenings(parts.oSeen));
      if r.Err? { return; }
      r := RelayMore(Openings(parts.oNew), Pass1(cm.env, cs, parts), sent, flag);
      if r.Err? { return; }
      r := RelayMore(UnconfirmedAdditions(parts.aSeen), Pass2(cm.env, cs, parts), sent, flag);
      if r.Err? { return; }
      r := RelayMore(Additions(parts.aNew), Pass3(cm.env, cs, parts), sent, flag);
      if r.Err? { return; }
      r := RelayMore(Settlements(parts.sNew), Pass4(cm.env, cs, parts), sent, flag);
      if r.Err? { return; }
      r := RelayMore(CloseRequests(parts.closes), Pass5(cm.env, cs, parts), sent, flag);
    }

    /** Falls back to the confirmed head if the unconfirmed one has been replaced. */
    method CheckReorganisation(view: ChainView)
      requires cm.state.Valid() && synced && Abstract().Consistent()
      modifies cm.state
      ensures cm.state.Valid() && Abstract() == CheckReorg(old(Abstract()), view)
    {
      if view.height < cm.state.unconfirmedHeadNumber.value {
        cm.ResetUnconfirmed();
      }
      if !view.known(cm.state.unconfirmedHeadHash.value) {
        cm.ResetUnconfirmed();
      }
    }

    /** The persisted heads, initialised to the start block. */
    method CurrentHeads() returns (h: Heads)
      requires cm.state.Valid()
      modifies cm.state`confirmedHeadNumber, cm.state`confirmedHeadHash,
               cm.state`unconfirmedHeadNumber, cm.state`unconfirmedHeadHash
      ensures cm.state.Valid()
      ensures h == HeadsOf(cfg, old(Abstract())) && Abstract() == WithHeads(old(Abstract()), h)
    {
      if cm.state.confirmedHeadNumber.None? {
        cm.state.UpdateSyncState(Some(cfg.startBlock), None, None, None);
      }
      if cm.state.unconfirmedHeadNumber.None? {
        cm.state.UpdateSyncState(None, None, Some(cfg.startBlock), None);
      }
      h := Heads(cm.state.confirmedHeadNumber.value, cm.state.unconfirmedHeadNumber.value);
    }

    /** Records the new heads after everything up to them has been relayed. */
    method MoveHeads(view: ChainView, w: Window) returns (r: Result<Reply, Error>)
      modifies this`synced, cm.state`confirmedHeadNumber, cm.state`confirmedHeadHash,
               cm.state`unconfirmedHeadNumber, cm.state`unconfirmedHeadHash
      ensures Outcome(Abstract(), r) == Finished(old(Abstract()), view, w)
      ensures old(cm.state.Valid()) ==> cm.state.Valid()
    {
      r := cm.SetHead(w.u', view.hashAt(w.u'), w.c', view.hashAt(w.c'));
      if r.Err? {
        return;
      }
      if !synced && w.u' == view.height {
        synced := true;
      }
    }

    method ReadOn(view: ChainView) returns (r: Result<Reply, Error>)
      requires cm.state.Valid()
      modifies this, cm`sent, cm.state
      ensures cm.state.Valid()
      ensures Outcome(Abstract(), r) == CatchUp(cfg, cm.env, old(Abstract()), view)
    {
      var h := CurrentHeads();
      if AlreadyProcessed(cfg, h, view.height) {
        return Ok(Done);
      }
      var w := WindowOf(cfg, h, view.height);
      ghost var ready := Abstract();
      r := RelayLogs(PartsOf(view.logs, w));
      assert Abstract() == Relayed(ready, Pass6(cm.env, ready.channels, PartsOf(view.logs, w)));
      if r.Err? {
        return;
      }
      r := MoveHeads(view, w);
    }

    method Poll(view: ChainView) returns (r: Result<Reply, Error>)
      requires cm.state.Valid() && Abstract().Consistent()
      modifies this, cm`sent, cm.state
      ensures cm.state.Valid()
      ensures Outcome(Abstract(), r) == Update(cfg, cm.env, old(Abstract()), view)
    {
      if synced {
        CheckReorganisation(view);
        if !view.known(cm.state.confirmedHeadHash.value) {
          return Err(AssertionError);
        }
      }
      r := ReadOn(view);
    }

    /** Retries pending closes once the receiver has funds again. */
    method InsufficientBalanceRecover(balance: nat, canSend: Key -> bool) returns (ghost steps: seq<Step>)
      requires cm.state.Valid() && ReceiverSafety.Inv(cm.env, cm.state.contents)
      modifies this`insufficientBalance, cm`sent, cm.state`rows, cm.state`topups, cm.state`contents, cm.state`index
      ensures cm.state.Valid() && ReceiverSafety.Inv(cm.env, cm.state.contents)
      ensures balance < BALANCE_LIMIT ==>
                steps == [] && insufficientBalance == old(insufficientBalance)
      ensures balance >= BALANCE_LIMIT ==>
                var all := AllSendable(Pending(old(cm.state.contents)), canSend);
                && insufficientBalance == (old(insufficientBalance) && !all)
                && (all ==> Pending(cm.state.contents) == {})
      ensures forall s :: s in steps ==> s.Close? && s.canSend == canSend(s.k)
      ensures cm.state.contents == Run(cm.env, old(cm.state.contents), steps)
      ensures cm.sent == old(cm.sent) + Sent(cm.env, old(cm.state.contents), steps)
    {
      if balance < BALANCE_LIMIT {
        return [];
      }
      var r;
      r, steps := cm.ClosePendingChannels(canSend);
      ReceiverSafety.RunKeepsInv(cm.env, old(cm.state.contents), steps);
      if r.Ok? {
        insufficientBalance := false;
      }
    }
  }

  lemma {:induction false} RelayStops(env: Env, cs: Channels, steps: seq<Step>, i: nat)
    requires i <= |steps| && Relay(env, cs, steps[..i]).result.Err?
    ensures Relay(env, cs, steps) == Relay(env, cs, steps[..i])
  {
    assert steps == steps[..i] + steps[i..];
    RelayAppend(env, cs, steps[..i], steps[i..]);
  }
}
