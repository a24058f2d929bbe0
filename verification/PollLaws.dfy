/** What one poll does, in terms of the chain it sees: hashes it stores, reorganisations it notices, and what of the
    unconfirmed part of the chain is stored afterwards. */
module PollLaws {
  import opened Wrappers
  import opened ReceiverChannel
  import opened ReceiverSpec
  import opened ReceiverSafety
  import opened ReceiverLaws
  import opened HeadSync
  import opened ChainLog
  import opened Blockchains
  import opened LogAgreement
  import opened UnconfirmedEvents
  import opened CloseAnswers
  import opened NodeRuns

  // Hashes

  /** The stored hashes are those of the stored heads on the given chain. */
  ghost predicate HashesOf(view: ChainView, sync: SyncState) {
    && sync.confirmed.Some? && sync.confirmedHash == Some(view.hashAt(sync.confirmed.value))
    && sync.unconfirmed.Some? && sync.unconfirmedHash == Some(view.hashAt(sync.unconfirmed.value))
  }

  predicate ReadsOn(cfg: Config, node: Node, view: ChainView)
    requires node.Consistent()
  {
    !AlreadyProcessed(cfg, HeadsOf(cfg, ReadsFrom(node, view)), view.height)
  }

  /** A completed poll that reads on stores the hash of each head beside it, and the node is synchronised once its
      unconfirmed head is the chain's. */
  lemma CompletedPollStoresHashes(cfg: Config, env: Env, node: Node, view: ChainView)
    requires node.Consistent() && Completes(cfg, env, node, view) && ReadsOn(cfg, node, view)
    ensures var after := Update(cfg, env, node, view).node;
            && HashesOf(view, after.sync)
            && (after.synced <==> node.synced || after.sync.unconfirmed == Some(view.height))
  {
  }

  predicate NoHashes(sync: SyncState) { sync.confirmedHash.None? && sync.unconfirmedHash.None? }

  /** Whatever else happens keeps the hashes that are stored, those of a fall-back included. */
  lemma ActKeepsHashes(cfg: Config, env: Env, node: Node, action: Action, old': ChainView)
    requires node.Consistent()
    ensures var after := Act(cfg, env, node, action).node;
            || (action.Watch? && Completes(cfg, env, node, action.view) && HashesOf(action.view, after.sync))
            || ((HashesOf(old', node.sync) ==> HashesOf(old', after.sync)) && (NoHashes(node.sync) ==> NoHashes(after.sync)))
  {
    if action.Watch? && Completes(cfg, env, node, action.view) && ReadsOn(cfg, node, action.view) {
      CompletedPollStoresHashes(cfg, env, node, action.view);
    } else if action.Watch? {
      PollWithoutReading(cfg, env, node, action.view, old');
    }
  }

  lemma PollWithoutReading(cfg: Config, env: Env, node: Node, view: ChainView, old': ChainView)
    requires node.Consistent() && !(Completes(cfg, env, node, view) && ReadsOn(cfg, node, view))
    ensures var after := Update(cfg, env, node, view).node;
            && (HashesOf(old', node.sync) ==> HashesOf(old', after.sync)) && (NoHashes(node.sync) ==> NoHashes(after.sync))
  {
  }

  /** Poll i of the run completed, and saw the chain whose hashes are stored at its end. */
  ghost predicate StoredBy(cfg: Config, env: Env, actions: seq<Action>, i: nat) {
    && i < |actions| && actions[i].Watch?
    && Completes(cfg, env, NodeRun(cfg, env, actions[..i]), actions[i].view)
    && HashesOf(actions[i].view, NodeRun(cfg, env, actions).sync)
  }

  /** Over every run: no hash is stored yet, or both are those of the stored heads on a chain that one completed poll
      saw. */
  lemma {:induction false} StoredHashesAreOfOneChain(cfg: Config, env: Env, actions: seq<Action>) returns (i: nat)
    ensures NoHashes(NodeRun(cfg, env, actions).sync) || StoredBy(cfg, env, actions, i)
  {
    i := 0;
    if actions != [] {
      var n := |actions| - 1;
      var before := actions[..n];
      var node := NodeRun(cfg, env, before);
      var j := StoredHashesAreOfOneChain(cfg, env, before);
      if NoHashes(node.sync) {
        i := n;
        if actions[n].Watch? {
          ActKeepsHashes(cfg, env, node, actions[n], actions[n].view);
        }
      } else {
        assert before[..j] == actions[..j];
        ActKeepsHashes(cfg, env, node, actions[n], before[j].view);
        i := if HashesOf(before[j].view, NodeRun(cfg, env, actions).sync) then j else n;
      }
    }
  }

  // Reorganisations

  /** The old chain's unconfirmed head has been replaced. */
  predicate Replaced(cfg: Config, node: Node, old': ChainView, view: ChainView) {
    var u := HeadsOf(cfg, node).unconfirmed;
    view.height < u || !view.known(old'.hashAt(u))
  }

  /** Everything unconfirmed that is stored is on the chain, in blocks after c and up to u. */
  ghost predicate OnChain(cs: Channels, logs: Logs, c: nat, u: nat) {
    && (forall k :: Unconfirmed(cs, k) ==> IsOpened(Between(logs.openings, c, u), k))
    && (forall k, tx :: PendingAt(cs, k, tx).Some? ==>
          exists e :: e in Between(logs.additions, c, u) && e.event == Addition(k, tx, PendingAt(cs, k, tx).value))
  }

  /** With nothing unconfirmed before, what is traced is on the chain. */
  lemma TracedIsOnChain(cs: Channels, after: Channels, logs: Logs, c: nat, u: nat)
    requires Traced(ResetUnconfirmed(cs), after, Between(logs.openings, c, u), Between(logs.additions, c, u))
    ensures OnChain(after, logs, c, u)
  {
    assert forall k :: !Unconfirmed(ResetUnconfirmed(cs), k);
    assert forall k, tx :: PendingAt(ResetUnconfirmed(cs), k, tx).None?;
  }

  /** Reading on after a fall-back leaves only what the new chain shows. */
  lemma CatchUpOnChain(cfg: Config, env: Env, node: Node, view: ChainView, cs: Channels)
    requires node.channels == ResetUnconfirmed(cs) && HeadsOf(cfg, node).unconfirmed == HeadsOf(cfg, node).confirmed
    ensures var h := HeadsOf(cfg, node);
            OnChain(CatchUp(cfg, env, node, view).node.channels, view.logs, h.confirmed, NewUnconfirmed(cfg, h, view.height))
  {
    var h := HeadsOf(cfg, node);
    var u := NewUnconfirmed(cfg, h, view.height);
    if AlreadyProcessed(cfg, h, view.height) {
      TracedIsOnChain(cs, node.channels, view.logs, h.confirmed, u);
    } else {
      var p := PartsOf(view.logs, WindowOf(cfg, h, view.height));
      PassesTraced(env, node.channels, p);
      TracedIsOnChain(cs, Pass6(env, node.channels, p).channels, view.logs, h.confirmed, u);
    }
  }

  lemma FallsBack(cfg: Config, node: Node, old': ChainView, view: ChainView) returns (cs: Channels)
    requires node.synced && node.Consistent() && HashesOf(old', node.sync) && Replaced(cfg, node, old', view)
    ensures var from := ReadsFrom(node, view);
            && from.channels == ResetUnconfirmed(cs)
            && from.sync == node.sync.(unconfirmed := node.sync.confirmed, unconfirmedHash := node.sync.confirmedHash)
  {
    cs := if view.height < node.sync.unconfirmed.value && !view.known(node.sync.confirmedHash.value)
          then ResetUnconfirmed(node.channels) else node.channels;
  }

  /** The reorganisation law. In a synchronised node whose hashes are those of a chain it saw: when the unconfirmed head
      of that chain has been replaced and its confirmed head has not, the next poll forgets everything unconfirmed that
      is not on the new chain. */
  lemma ReorganisationIsForgotten(cfg: Config, env: Env, node: Node, old': ChainView, view: ChainView)
    requires node.synced && node.Consistent() && HashesOf(old', node.sync)
    requires Replaced(cfg, node, old', view) && view.known(old'.hashAt(HeadsOf(cfg, node).confirmed))
    ensures var c := HeadsOf(cfg, node).confirmed;
            OnChain(Update(cfg, env, node, view).node.channels, view.logs, c, NewUnconfirmed(cfg, Heads(c, c), view.height))
  {
    var cs := FallsBack(cfg, node, old', view);
    CatchUpOnChain(cfg, env, ReadsFrom(node, view), view, cs);
  }

  /** Without a replacement the poll reads on from what is stored. */
  lemma OtherwiseNothingIsForgotten(cfg: Config, node: Node, old': ChainView, view: ChainView)
    requires node.synced && node.Consistent() && HashesOf(old', node.sync) && !Replaced(cfg, node, old', view)
    ensures ReadsFrom(node, view) == node
  {
  }

  /** After any faithful run: the next poll of a well-formed log that still has the confirmed part fails an assertion if
      and only if the node is synchronised and the confirmed head of the chain it saw has been replaced. */
  lemma AssertionFailsIff(cfg: Config, env: Env, actions: seq<Action>, view: ChainView, i: nat)
    requires cfg.confirmations == 1 && cfg.startBlock >= 1 && Faithful(cfg, env, actions)
    requires StoredBy(cfg, env, actions, i)
    requires WellFormed(view.logs)
    requires Upto(view.logs, HeadsOf(cfg, NodeRun(cfg, env, actions)).confirmed) == Seen(cfg, env, actions)
    ensures var node := NodeRun(cfg, env, actions);
            Update(cfg, env, node, view).result == Err(AssertionError) <==>
            node.synced && !view.known(actions[i].view.hashAt(HeadsOf(cfg, node).confirmed))
  {
    var node := NodeRun(cfg, env, actions);
    if !node.synced || view.known(node.sync.confirmedHash.value) {
      NoAssertionFails(cfg, env, actions, view);
    }
  }

  // The unconfirmed part of the chain

  /** After any faithful run, a completed poll of a trusted chain that reads on has stored the chain between its new
      heads: every opening there of a channel it did not hold, unconfirmed and with its deposit, and every top-up there
      of a confirmed channel, with the amount logged last for its transaction. */
  lemma UnconfirmedPartIsStored(cfg: Config, env: Env, actions: seq<Action>, view: ChainView)
    requires cfg.confirmations == 1 && cfg.startBlock >= 1 && Faithful(cfg, env, actions)
    requires Trusted(cfg, NodeRun(cfg, env, actions), Seen(cfg, env, actions), view)
    requires ReadsOn(cfg, NodeRun(cfg, env, actions), view) && Completes(cfg, env, NodeRun(cfg, env, actions), view)
    ensures var node := NodeRun(cfg, env, actions);
            var after := Update(cfg, env, node, view).node;
            Stored(ReadsFrom(node, view).channels, after.channels, view.logs, HeadsOf(cfg, after))
  {
    var node := NodeRun(cfg, env, actions);
    var from := ReadsFrom(node, view);
    var h := HeadsOf(cfg, from);
    var w := WindowOf(cfg, h, view.height);
    DepositsAgreeWithLog(cfg, env, actions);
    UpdateAdvancesHeads(cfg, env, node, view);
    ReadsFromBase(cfg, env, node, view);
    OneConfirmationAdvances(cfg, h, Poll(false, view.height));
    WindowIsStored(env, from.channels, view.logs, w);
  }

  ghost predicate Stored(cs: Channels, after: Channels, logs: Logs, h: Heads) {
    && (forall e :: e in logs.openings && h.confirmed < e.block <= h.unconfirmed && KeyOf(e) !in cs ==>
          Unconfirmed(after, KeyOf(e)) && after[KeyOf(e)].deposit == e.event.deposit)
    && (forall e :: e in logs.additions && h.confirmed < e.block <= h.unconfirmed && Confirmed(after, e.event.k) ==>
          && PendingAt(after, e.event.k, e.event.tx).Some?
          && PendingAt(after, e.event.k, e.event.tx) == LastAdded(logs.additions, e.event.k, e.event.tx))
  }

  lemma WindowIsStored(env: Env, cs: Channels, logs: Logs, w: Window)
    requires WellFormed(logs) && OneBehind(w) && Pass6(env, cs, PartsOf(logs, w)).result.Ok?
    ensures Stored(cs, Pass6(env, cs, PartsOf(logs, w)).channels, logs, Heads(w.c', w.u'))
  {
    var p := PartsOf(logs, w);
    forall e | e in logs.openings && w.c' < e.block <= w.u' && KeyOf(e) !in cs
      ensures Unconfirmed(Pass6(env, cs, p).channels, KeyOf(e))
      ensures Pass6(env, cs, p).channels[KeyOf(e)].deposit == e.event.deposit
    {
      OpeningInWindow(logs, w, e);
      PassesStore(env, cs, p, e);
    }
    forall e | e in logs.additions && w.c' < e.block <= w.u' && Confirmed(Pass6(env, cs, p).channels, e.event.k)
      ensures PendingAt(Pass6(env, cs, p).channels, e.event.k, e.event.tx).Some?
      ensures PendingAt(Pass6(env, cs, p).channels, e.event.k, e.event.tx) == LastAdded(logs.additions, e.event.k, e.event.tx)
    {
      AdditionInWindow(logs, w, e);
      PassesNote(env, cs, p, e.event.k, e.event.tx);
    }
  }

  lemma OpeningInWindow(logs: Logs, w: Window, e: Entry<Opening>)
    requires WellFormed(logs) && OneBehind(w) && e in logs.openings && w.c' < e.block <= w.u'
    ensures var p := PartsOf(logs, w);
            && e in p.oSeen && OpenedOnce(p.oSeen) && (forall x :: x in p.oSeen ==> x.block > 0)
            && !IsOpened(p.oNew, KeyOf(e)) && !IsSettled(p.sNew, KeyOf(e))
  {
    BetweenHas(logs.openings, w.u, w.u');
    BetweenHas(logs.openings, w.c, w.c');
    BetweenHas(logs.settlements, w.c, w.c');
  }

  lemma AdditionInWindow(logs: Logs, w: Window, e: Entry<Addition>)
    requires WellFormed(logs) && OneBehind(w) && e in logs.additions && w.c' < e.block <= w.u'
    ensures var p := PartsOf(logs, w);
            && LastAdded(p.aSeen, e.event.k, e.event.tx).Some? && !Counted(p.aNew, e.event.k, e.event.tx)
            && LastAdded(p.aSeen, e.event.k, e.event.tx) == LastAdded(logs.additions, e.event.k, e.event.tx)
  {
    BetweenHas(logs.additions, w.u, w.u');
    BetweenHas(logs.additions, w.c, w.c');
    LastAddedIn(Between(logs.additions, w.u, w.u'), e);
    LastAddedBetween(logs.additions, w.u, w.u', e.event.k, e.event.tx);
  }

  // Answers

  /** A completed poll that reads on sends what the close requests between its confirmed heads call for, and no more,
      and notes a lack of funds if and only if a dispute could not be paid for. */
  lemma PollAnswers(cfg: Config, env: Env, node: Node, view: ChainView)
    requires node.Consistent() && Inv(env, node.channels) && Completes(cfg, env, node, view) && ReadsOn(cfg, node, view)
    ensures var from := ReadsFrom(node, view);
            var p := PartsOf(view.logs, WindowOf(cfg, HeadsOf(cfg, from), view.height));
            var after := Update(cfg, env, node, view).node;
            var requests := Between(view.logs.closeRequests, HeadsOf(cfg, node).confirmed, HeadsOf(cfg, after).confirmed);
            exists q: Progress ::
              && Answered(env, Pass5(env, from.channels, p).channels, requests, q)
              && after.sent == node.sent + q.sent && after.lacksFunds == (node.lacksFunds || q.lacksFunds)
  {
    var from := ReadsFrom(node, view);
    var p := PartsOf(view.logs, WindowOf(cfg, HeadsOf(cfg, from), view.height));
    ReadsFromBacked(env, node, view);
    PassesAnswer(env, from.channels, p);
  }

  /** After a completed poll that reads on a confirmed channel is closed if and only if it was closed before or a close
      request between the confirmed heads closes it. */
  lemma PollCloses(cfg: Config, env: Env, node: Node, view: ChainView, k: Key)
    requires node.Consistent() && Inv(env, node.channels) && Completes(cfg, env, node, view) && ReadsOn(cfg, node, view)
    requires Confirmed(Update(cfg, env, node, view).node.channels, k)
    ensures var after := Update(cfg, env, node, view).node;
            var c, c' := HeadsOf(cfg, node).confirmed, HeadsOf(cfg, after).confirmed;
            ClosedAt(after.channels, k) <==>
            || ClosedAt(node.channels, k)
            || exists e :: e in view.logs.closeRequests && c < e.block <= c' && ClosesIt(node.channels, e.event, k)
  {
    var from := ReadsFrom(node, view);
    var p := PartsOf(view.logs, WindowOf(cfg, HeadsOf(cfg, from), view.height));
    ReadsFromBacked(env, node, view);
    ReadsFromSame(node, view, k);
    PassesClose(env, from.channels, p, k);
    var after := Update(cfg, env, node, view).node;
    BetweenHas(view.logs.closeRequests, HeadsOf(cfg, node).confirmed, HeadsOf(cfg, after).confirmed);
  }

  /** What a poll, complete or not, stores as unconfirmed was stored before or is in the blocks after the unconfirmed
      head it started from. */
  lemma NewUnconfirmedIsRead(cfg: Config, env: Env, node: Node, view: ChainView)
    requires node.Consistent()
    ensures var from := ReadsFrom(node, view);
            var u, u' := HeadsOf(cfg, from).unconfirmed, NewUnconfirmed(cfg, HeadsOf(cfg, from), view.height);
            Traced(from.channels, Update(cfg, env, node, view).node.channels,
                   Between(view.logs.openings, u, u'), Between(view.logs.additions, u, u'))
  {
    var from := ReadsFrom(node, view);
    PassesTraced(env, from.channels, PartsOf(view.logs, WindowOf(cfg, HeadsOf(cfg, from), view.height)));
  }

  /** A completed poll leaves both heads stored, those of the start block if it read nothing yet. */
  lemma HeadsAreStored(cfg: Config, env: Env, node: Node, view: ChainView)
    requires node.Consistent() && Completes(cfg, env, node, view)
    ensures var after := Update(cfg, env, node, view).node;
            && after.sync.confirmed == Some(HeadsOf(cfg, after).confirmed)
            && after.sync.unconfirmed == Some(HeadsOf(cfg, after).unconfirmed)
            && (NoHashes(after.sync) && NoHashes(node.sync) && node.sync.confirmed.None? && node.sync.unconfirmed.None? ==>
                  HeadsOf(cfg, after) == Heads(cfg.startBlock, cfg.startBlock))
  {
  }
}
