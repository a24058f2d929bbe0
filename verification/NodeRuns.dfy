/** Whole runs of the receiver: polls of a chain whose unconfirmed part may be reorganised at will,
    interleaved with payments, closes and restarts. */
module NodeRuns {
  import opened Wrappers
  import opened ReceiverChannel
  import opened ReceiverSpec
  import opened ReceiverSafety
  import opened HeadSync
  import opened ChainLog
  import opened Blockchains
  import opened LogAgreement
  import opened AbortedPolls

  /** A restart keeps what is stored and forgets the watcher's flags. */
  datatype Action = Watch(view: ChainView) | Call(step: Step) | Restart

  function Act(cfg: Config, env: Env, node: Node, action: Action): (o: Outcome)
    requires node.Consistent()
    ensures o.node.Consistent()
  {
    match action
    case Watch(view) => Update(cfg, env, node, view)
    case Call(step) =>
      var e := Apply(env, node.channels, step);
      Outcome(node.(channels := e.channels, sent := node.sent + e.sent), e.result)
    case Restart => Outcome(node.(synced := false, lacksFunds := false), Ok(Done))
  }

  function NodeRun(cfg: Config, env: Env, actions: seq<Action>): (node: Node)
    ensures node.Consistent()
  {
    if actions == [] then FRESH_NODE
    else Act(cfg, env, NodeRun(cfg, env, actions[..|actions| - 1]), actions[|actions| - 1]).node
  }

  function Upto(logs: Logs, c: nat): Logs {
    Logs(Between(logs.openings, 0, c), Between(logs.additions, 0, c), Between(logs.settlements, 0, c), [])
  }

  /** The confirmed part of the log as of the last poll. */
  function Seen(cfg: Config, env: Env, actions: seq<Action>): Logs {
    if actions == [] then Logs([], [], [], [])
    else
      match actions[|actions| - 1]
      case Watch(view) => Upto(view.logs, HeadsOf(cfg, NodeRun(cfg, env, actions)).confirmed)
      case _ => Seen(cfg, env, actions[..|actions| - 1])
  }

  /** The chain the poll sees is well formed and still contains the confirmed blocks. Nothing is assumed of
      the blocks above the confirmed head. */
  ghost predicate Trusted(cfg: Config, node: Node, seen: Logs, view: ChainView)
    requires node.Consistent()
  {
    && WellFormed(view.logs)
    && Upto(view.logs, HeadsOf(cfg, node).confirmed) == seen
    && (node.synced ==> view.known(node.sync.confirmedHash.value))
  }

  /** The node a poll reads on from. */
  function ReadsFrom(node: Node, view: ChainView): Node
    requires node.Consistent()
  {
    if node.synced then CheckReorg(node, view) else node
  }

  /** Whenever the poll comes to a forced close of a stored channel with a balance, the receiver can pay for it. */
  ghost predicate CanPay(cfg: Config, node: Node, view: ChainView)
    requires node.Consistent()
  {
    var from := ReadsFrom(node, view);
    var h := HeadsOf(cfg, from);
    AlreadyProcessed(cfg, h, view.height)
    || Payable(from.channels, PartsOf(view.logs, WindowOf(cfg, h, view.height)))
  }

  /** Nothing counts in what the poll reads as confirmed. */
  ghost predicate ReadsHarmless(cfg: Config, node: Node, view: ChainView)
    requires node.Consistent()
  {
    var from := ReadsFrom(node, view);
    Harmless(from.channels, PartsOf(view.logs, WindowOf(cfg, HeadsOf(cfg, from), view.height)))
  }

  /** Every poll sees a trusted chain and can pay for the forced closes it comes to, or has nothing to lose. */
  ghost predicate Faithful(cfg: Config, env: Env, actions: seq<Action>) {
    actions != [] ==>
      var before := actions[..|actions| - 1];
      var node := NodeRun(cfg, env, before);
      && Faithful(cfg, env, before)
      && match actions[|actions| - 1]
         case Watch(view) =>
           && Trusted(cfg, node, Seen(cfg, env, before), view)
           && (CanPay(cfg, node, view) || ReadsHarmless(cfg, node, view))
         case Call(step) => Local(step)
         case Restart => true
  }

  ghost predicate InStep(cfg: Config, node: Node) {
    var h := HeadsOf(cfg, node);
    cfg.startBlock <= h.confirmed <= h.unconfirmed <= h.confirmed + 1
  }

  ghost predicate NodeOk(cfg: Config, env: Env, node: Node, seen: Logs) {
    && InStep(cfg, node)
    && Inv(env, node.channels)
    && Agrees(seen.openings, seen.additions, seen.settlements, node.channels)
  }

  lemma ResetAgrees(o: seq<Entry<Opening>>, a: seq<Entry<Addition>>, s: seq<Entry<Key>>, cs: Channels)
    requires Agrees(o, a, s, cs)
    ensures Agrees(o, a, s, ResetUnconfirmed(cs))
  {
    var after := ResetUnconfirmed(cs);
    assert forall k :: Confirmed(after, k) <==> Confirmed(cs, k);
    forall k | Confirmed(after, k)
      ensures Funded(o, a, k, after[k])
    {
      assert Funded(o, a, k, cs[k]);
    }
  }

  lemma FallBackKeeps(cfg: Config, env: Env, node: Node, seen: Logs)
    requires node.synced && node.Consistent() && NodeOk(cfg, env, node, seen)
    ensures NodeOk(cfg, env, FallBack(node), seen)
  {
    ResetAgrees(seen.openings, seen.additions, seen.settlements, node.channels);
    StepKeepsInv(env, node.channels, Reset);
  }

  lemma CatchUpKeeps(cfg: Config, env: Env, node: Node, seen: Logs, view: ChainView)
    requires cfg.confirmations == 1 && cfg.startBlock >= 1
    requires node.Consistent() && NodeOk(cfg, env, node, seen) && WellFormed(view.logs)
    requires Upto(view.logs, HeadsOf(cfg, node).confirmed) == seen
    ensures var o := CatchUp(cfg, env, node, view);
            && o.result in {Ok(Done), Err(InsufficientBalance)}
            && (o.result.Ok? <==>
                  || AlreadyProcessed(cfg, HeadsOf(cfg, node), view.height)
                  || Payable(node.channels, PartsOf(view.logs, WindowOf(cfg, HeadsOf(cfg, node), view.height))))
            && (NodeOk(cfg, env, o.node, Upto(view.logs, HeadsOf(cfg, o.node).confirmed)) <==>
                  || o.result.Ok?
                  || Harmless(node.channels, PartsOf(view.logs, WindowOf(cfg, HeadsOf(cfg, node), view.height))))
  {
    var h := HeadsOf(cfg, node);
    if !AlreadyProcessed(cfg, h, view.height) {
      OneConfirmationAdvances(cfg, h, Poll(false, view.height));
      var w := WindowOf(cfg, h, view.height);
      UpdateKeepsAgreement(env, view.logs, w, node.channels);
      UpdateAgreesStillIff(env, view.logs, w, node.channels);
      PassesKeepInv(env, node.channels, PartsOf(view.logs, w));
    }
  }

  /** With one confirmation, a poll of a trusted chain never trips an assertion, and completes if and only if the
      forced closes it comes to can be paid for. The node agrees with the confirmed part of the chain afterwards if
      and only if they can or nothing counts in what the poll read. */
  lemma UpdateKeeps(cfg: Config, env: Env, node: Node, seen: Logs, view: ChainView)
    requires cfg.confirmations == 1 && cfg.startBlock >= 1
    requires node.Consistent() && NodeOk(cfg, env, node, seen) && Trusted(cfg, node, seen, view)
    ensures var o := Update(cfg, env, node, view);
            && o.result in {Ok(Done), Err(InsufficientBalance)}
            && (o.result.Ok? <==> CanPay(cfg, node, view))
            && (NodeOk(cfg, env, o.node, Upto(view.logs, HeadsOf(cfg, o.node).confirmed)) <==>
                  CanPay(cfg, node, view) || ReadsHarmless(cfg, node, view))
  {
    if node.synced {
      var first := if view.height < node.sync.unconfirmed.value then FallBack(node) else node;
      FallBackKeeps(cfg, env, node, seen);
      FallBackKeeps(cfg, env, first, seen);
      CatchUpKeeps(cfg, env, CheckReorg(node, view), seen, view);
    } else {
      CatchUpKeeps(cfg, env, node, seen, view);
    }
  }

  /** Over every faithful run with one confirmation: every balance is backed, the heads stay in step, the
      confirmed channels are those opened and not settled up to the confirmed head, each open one holds its
      opening deposit plus all its top-ups up to that head, and none of its pending top-ups is counted. */
  lemma {:induction false} DepositsAgreeWithLog(cfg: Config, env: Env, actions: seq<Action>)
    requires cfg.confirmations == 1 && cfg.startBlock >= 1 && Faithful(cfg, env, actions)
    ensures NodeOk(cfg, env, NodeRun(cfg, env, actions), Seen(cfg, env, actions))
  {
    if actions != [] {
      var before := actions[..|actions| - 1];
      var node, seen := NodeRun(cfg, env, before), Seen(cfg, env, before);
      DepositsAgreeWithLog(cfg, env, before);
      match actions[|actions| - 1]
      case Watch(view) =>
        UpdateKeeps(cfg, env, node, seen, view);
      case Call(step) =>
        var after := Apply(env, node.channels, step).channels;
        StepKeepsInv(env, node.channels, step);
        ClosingKeepsFunds(env, node.channels, step);
        SameFundsAgrees(seen.openings, seen.additions, seen.settlements, node.channels, after);
      case Restart =>
    }
  }

  /** After any faithful run, no handler assertion fails in the next poll of a trusted chain, and it completes if
      and only if the receiver can pay for the forced closes it comes to. */
  lemma NoAssertionFails(cfg: Config, env: Env, actions: seq<Action>, view: ChainView)
    requires cfg.confirmations == 1 && cfg.startBlock >= 1 && Faithful(cfg, env, actions)
    requires Trusted(cfg, NodeRun(cfg, env, actions), Seen(cfg, env, actions), view)
    ensures var o := Update(cfg, env, NodeRun(cfg, env, actions), view);
            && o.result == (if CanPay(cfg, NodeRun(cfg, env, actions), view) then Ok(Done) else Err(InsufficientBalance))
  {
    DepositsAgreeWithLog(cfg, env, actions);
    UpdateKeeps(cfg, env, NodeRun(cfg, env, actions), Seen(cfg, env, actions), view);
  }

  // What an unpaid forced close does

  /** The node reads a top-up of an open channel and, after it, an unpaid forced close of another one. */
  ghost predicate StopsAfter(cfg: Config, env: Env, node: Node, view: ChainView, t: Addition, closing: CloseRequest) {
    var h := HeadsOf(cfg, node);
    var p := PartsOf(view.logs, WindowOf(cfg, h, view.height));
    && !AlreadyProcessed(cfg, h, view.height)
    && p.oSeen == [] && p.oNew == [] && p.aSeen == [] && p.sNew == []
    && |p.aNew| == 1 && p.aNew[0].event == t
    && |p.closes| == 1 && p.closes[0].event == closing && closing.k != t.k
    && Inv(env, node.channels) && Confirmed(node.channels, t.k) && node.channels[t.k].state == OPEN
    && Unpaid(node.channels, closing)
  }

  /** It stores the top-up, leaves the heads, and would do so again. */
  lemma StopsAgain(cfg: Config, env: Env, node: Node, view: ChainView, t: Addition, closing: CloseRequest)
    requires StopsAfter(cfg, env, node, view, t, closing)
    ensures var o := CatchUp(cfg, env, node, view);
            && o.result == Err(InsufficientBalance)
            && StopsAfter(cfg, env, o.node, view, t, closing) && HeadsOf(cfg, o.node) == HeadsOf(cfg, node)
            && o.node.channels[t.k].deposit == node.channels[t.k].deposit + t.added
  {
    var p := PartsOf(view.logs, WindowOf(cfg, HeadsOf(cfg, node), view.height));
    StopsAfterTopup(env, node.channels, p, t.k, t.tx, t.added, closing);
  }

  /** A poll that stops there has not moved the heads: the first one after a restart reads the same blocks and counts
      the top-up a second time. */
  lemma AbortedPollCountsTwice(cfg: Config, env: Env, node: Node, view: ChainView, t: Addition, closing: CloseRequest)
    requires node.Consistent() && (node.synced ==> view.known(node.sync.confirmedHash.value))
    requires StopsAfter(cfg, env, ReadsFrom(node, view), view, t, closing)
    ensures var once := Update(cfg, env, node, view);
            var twice := Update(cfg, env, Act(cfg, env, once.node, Restart).node, view);
            && once.result == twice.result == Err(InsufficientBalance)
            && HeadsOf(cfg, twice.node).confirmed == HeadsOf(cfg, node).confirmed
            && t.k in node.channels && t.k in twice.node.channels
            && twice.node.channels[t.k].deposit == node.channels[t.k].deposit + 2 * t.added
  {
    var from := ReadsFrom(node, view);
    ReadsFromSame(node, view, t.k);
    StopsAgain(cfg, env, from, view, t, closing);
    var again := Act(cfg, env, CatchUp(cfg, env, from, view).node, Restart).node;
    assert StopsAfter(cfg, env, again, view, t, closing);
    StopsAgain(cfg, env, again, view, t, closing);
    UpdateAdvancesHeads(cfg, env, node, view);
  }

  /** Falling back keeps confirmed channels but for their unconfirmed top-ups. */
  lemma ReadsFromSame(node: Node, view: ChainView, k: Key)
    requires node.Consistent()
    ensures var before, after := node.channels, ReadsFrom(node, view).channels;
            && (Confirmed(after, k) <==> Confirmed(before, k))
            && (Confirmed(before, k) ==> after[k] == before[k].(topups := after[k].topups))
  {
  }

  // Backed balances

  lemma ReadsFromBacked(env: Env, node: Node, view: ChainView)
    requires node.Consistent() && Inv(env, node.channels)
    ensures Inv(env, ReadsFrom(node, view).channels)
  {
    StepKeepsInv(env, node.channels, Reset);
    StepKeepsInv(env, ResetUnconfirmed(node.channels), Reset);
  }

  lemma CatchUpBacked(cfg: Config, env: Env, node: Node, view: ChainView)
    requires Inv(env, node.channels)
    ensures Inv(env, CatchUp(cfg, env, node, view).node.channels)
  {
    PassesKeepInv(env, node.channels, PartsOf(view.logs, WindowOf(cfg, HeadsOf(cfg, node), view.height)));
  }

  lemma ActBacked(cfg: Config, env: Env, node: Node, action: Action)
    requires node.Consistent() && Inv(env, node.channels)
    ensures Inv(env, Act(cfg, env, node, action).node.channels)
  {
    match action
    case Call(step) => StepKeepsInv(env, node.channels, step);
    case Watch(view) =>
      ReadsFromBacked(env, node, view);
      CatchUpBacked(cfg, env, ReadsFrom(node, view), view);
    case Restart =>
  }

  /** Whatever chains the polls see, complete or not, every stored balance is backed by a valid proof. */
  lemma {:induction false} EveryRunIsBacked(cfg: Config, env: Env, actions: seq<Action>)
    ensures Inv(env, NodeRun(cfg, env, actions).channels)
  {
    if actions != [] {
      var before := actions[..|actions| - 1];
      EveryRunIsBacked(cfg, env, before);
      ActBacked(cfg, env, NodeRun(cfg, env, before), actions[|actions| - 1]);
    }
  }

  // Exactly-once delivery

  /** Does this poll relay the events of block b as confirmed? */
  predicate RelaysConfirmed(cfg: Config, node: Node, view: ChainView, b: nat)
    requires node.Consistent()
  {
    var h := HeadsOf(cfg, ReadsFrom(node, view));
    var w := WindowOf(cfg, h, view.height);
    !AlreadyProcessed(cfg, h, view.height) && w.c < b <= w.c'
  }

  predicate Completes(cfg: Config, env: Env, node: Node, view: ChainView)
    requires node.Consistent()
  {
    Update(cfg, env, node, view).result.Ok?
  }

  /** How many completed polls of the run relay block b as confirmed. */
  function TimesRelayed(cfg: Config, env: Env, actions: seq<Action>, b: nat): nat {
    if actions == [] then 0
    else
      var before, last := actions[..|actions| - 1], actions[|actions| - 1];
      var node := NodeRun(cfg, env, before);
      TimesRelayed(cfg, env, before, b)
      + (if last.Watch? && Completes(cfg, env, node, last.view) && RelaysConfirmed(cfg, node, last.view, b) then 1 else 0)
  }

  /** A poll as the head arithmetic sees it; one that is aborted falls back if need be and reads nothing. */
  function PollOf(cfg: Config, env: Env, node: Node, view: ChainView): Poll
    requires node.Consistent()
  {
    Poll(node.synced && (view.height < node.sync.unconfirmed.value || !view.known(node.sync.unconfirmedHash.value)),
         if Completes(cfg, env, node, view) then view.height else 0)
  }

  function Polls(cfg: Config, env: Env, actions: seq<Action>): seq<Poll> {
    if actions == [] then []
    else
      var before, last := actions[..|actions| - 1], actions[|actions| - 1];
      if last.Watch? then Polls(cfg, env, before) + [PollOf(cfg, env, NodeRun(cfg, env, before), last.view)]
      else Polls(cfg, env, before)
  }

  /** Reading on moves the heads when it completes and leaves them otherwise. */
  lemma CatchUpHeads(cfg: Config, env: Env, node: Node, view: ChainView)
    ensures var o, h := CatchUp(cfg, env, node, view), HeadsOf(cfg, node);
            HeadsOf(cfg, o.node) == if o.result.Ok? then Advance(cfg, h, Poll(false, view.height)) else h
  {
  }

  lemma ReadsFromBase(cfg: Config, env: Env, node: Node, view: ChainView)
    requires node.Consistent()
    ensures HeadsOf(cfg, ReadsFrom(node, view)) == Base(HeadsOf(cfg, node), PollOf(cfg, env, node, view))
  {
  }

  /** A fall-back and then reading on, or not, is what the head arithmetic does in one step. */
  lemma AdvanceFromBase(cfg: Config, h: Heads, poll: Poll)
    ensures Advance(cfg, h, poll) == Advance(cfg, Base(h, poll), Poll(false, poll.height))
    ensures poll.height == 0 ==> Advance(cfg, h, poll) == Base(h, poll) && !Reads(cfg, h, poll)
  {
  }

  /** A poll moves the persisted heads as the head arithmetic says, whatever the logs contain. */
  lemma UpdateAdvancesHeads(cfg: Config, env: Env, node: Node, view: ChainView)
    requires node.Consistent()
    ensures HeadsOf(cfg, Update(cfg, env, node, view).node) == Advance(cfg, HeadsOf(cfg, node), PollOf(cfg, env, node, view))
  {
    var from := ReadsFrom(node, view);
    ReadsFromBase(cfg, env, node, view);
    CatchUpHeads(cfg, env, from, view);
    AdvanceFromBase(cfg, HeadsOf(cfg, node), PollOf(cfg, env, node, view));
  }

  /** A completed poll relays the blocks that the head arithmetic delivers; for an aborted one it delivers none. */
  lemma RelaysAsDelivered(cfg: Config, env: Env, node: Node, view: ChainView, b: nat)
    requires node.Consistent()
    ensures Delivers(cfg, HeadsOf(cfg, node), PollOf(cfg, env, node, view), b)
            <==> Completes(cfg, env, node, view) && RelaysConfirmed(cfg, node, view, b)
  {
    ReadsFromBase(cfg, env, node, view);
    AdvanceFromBase(cfg, HeadsOf(cfg, node), PollOf(cfg, env, node, view));
  }

  /** The persisted heads of a run follow the head arithmetic. */
  lemma {:induction false} HeadsFollow(cfg: Config, env: Env, actions: seq<Action>, b: nat)
    ensures HeadsOf(cfg, NodeRun(cfg, env, actions)) == HeadRun(cfg, Polls(cfg, env, actions))
    ensures TimesRelayed(cfg, env, actions, b) == Deliveries(cfg, Polls(cfg, env, actions), b)
  {
    if actions != [] {
      var before, last := actions[..|actions| - 1], actions[|actions| - 1];
      HeadsFollow(cfg, env, before, b);
      if last.Watch? {
        var node := NodeRun(cfg, env, before);
        UpdateAdvancesHeads(cfg, env, node, last.view);
        RelaysAsDelivered(cfg, env, node, last.view, b);
        RunSnoc(cfg, Polls(cfg, env, before), PollOf(cfg, env, node, last.view), b);
      }
    }
  }

  /** With one confirmation, the completed polls of any run, with whatever aborted polls, calls and restarts between
      them, relay each block after the start block up to the confirmed head to the confirmed-event handlers exactly
      once, and no other block. */
  lemma ConfirmedBlocksRelayedOnce(cfg: Config, env: Env, actions: seq<Action>, b: nat)
    requires cfg.confirmations == 1
    ensures TimesRelayed(cfg, env, actions, b) ==
            if cfg.startBlock < b <= HeadsOf(cfg, NodeRun(cfg, env, actions)).confirmed then 1 else 0
  {
    HeadsFollow(cfg, env, actions, b);
    EachBlockDeliveredOnce(cfg, Polls(cfg, env, actions), b);
  }

  /** In a faithful run exactly the polls that can pay for their forced closes are completed. */
  lemma {:induction false} FaithfulPollsComplete(cfg: Config, env: Env, actions: seq<Action>, i: nat)
    requires cfg.confirmations == 1 && cfg.startBlock >= 1 && Faithful(cfg, env, actions)
    requires i < |actions| && actions[i].Watch?
    ensures var node := NodeRun(cfg, env, actions[..i]);
            Completes(cfg, env, node, actions[i].view) <==> CanPay(cfg, node, actions[i].view)
  {
    var before := actions[..|actions| - 1];
    if i == |actions| - 1 {
      DepositsAgreeWithLog(cfg, env, before);
      UpdateKeeps(cfg, env, NodeRun(cfg, env, before), Seen(cfg, env, before), actions[i].view);
    } else {
      assert before[..i] == actions[..i];
      FaithfulPollsComplete(cfg, env, before, i);
    }
  }
}
