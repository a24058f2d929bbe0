/** The contract's event log as an Ethereum node reports it, and the handler calls one update makes of it. */
module ChainLog {
  import opened Wrappers
  import opened ReceiverChannel
  import opened ReceiverSpec

  datatype Entry<+T> = Entry(block: nat, event: T)

  datatype Opening = Opening(sender: Address, deposit: nat)

  datatype Addition = Addition(k: Key, tx: TxHash, added: nat)

  /** The settle timeout is read from the contract; it is missing once the channel is gone. canSend tells
      whether the receiver can pay for a transaction at that moment. */
  datatype CloseRequest = CloseRequest(k: Key, balance: nat, settleTimeout: Option<nat>, canSend: bool)

  datatype Logs = Logs(
    openings: seq<Entry<Opening>>,
    additions: seq<Entry<Addition>>,
    settlements: seq<Entry<Key>>,
    closeRequests: seq<Entry<CloseRequest>>)

  /** The entries in blocks lo + 1 to hi, in log order. */
  function Between<T>(log: seq<Entry<T>>, lo: nat, hi: nat): seq<Entry<T>> {
    if log == [] then []
    else
      var e, rest := log[|log| - 1], Between(log[..|log| - 1], lo, hi);
      if lo < e.block <= hi then rest + [e] else rest
  }

  lemma {:induction false} BetweenHas<T(!new)>(log: seq<Entry<T>>, lo: nat, hi: nat)
    ensures forall e :: e in Between(log, lo, hi) <==> e in log && lo < e.block <= hi
  {
    if log != [] {
      BetweenHas(log[..|log| - 1], lo, hi);
      assert log == log[..|log| - 1] + [log[|log| - 1]];
    }
  }

  function KeyOf(e: Entry<Opening>): Key { Key(e.event.sender, e.block) }

  function UnconfirmedOpenings(log: seq<Entry<Opening>>): seq<Step> {
    seq(|log|, i requires 0 <= i < |log| => UnconfirmedOpened(KeyOf(log[i]), log[i].event.deposit))
  }

  function Openings(log: seq<Entry<Opening>>): seq<Step> {
    seq(|log|, i requires 0 <= i < |log| => Opened(KeyOf(log[i]), log[i].event.deposit))
  }

  function UnconfirmedAdditions(log: seq<Entry<Addition>>): seq<Step> {
    seq(|log|, i requires 0 <= i < |log| => UnconfirmedTopup(log[i].event.k, log[i].event.tx, log[i].event.added))
  }

  function Additions(log: seq<Entry<Addition>>): seq<Step> {
    seq(|log|, i requires 0 <= i < |log| => Topup(log[i].event.k, log[i].event.tx, log[i].event.added))
  }

  function Settlements(log: seq<Entry<Key>>): seq<Step> {
    seq(|log|, i requires 0 <= i < |log| => Settled(log[i].event))
  }

  function CloseRequests(log: seq<Entry<CloseRequest>>): seq<Step> {
    seq(|log|, i requires 0 <= i < |log| => CloseStep(log[i].event))
  }

  function CloseStep(r: CloseRequest): Step {
    match r.settleTimeout
    case Some(timeout) => CloseRequested(r.k, r.balance, timeout, r.canSend)
    case None => ForceClose(r.k, r.canSend)
  }

  /** What one update relays: blocks after u up to u' as unconfirmed, blocks after c up to c' as confirmed. */
  datatype Window = Window(c: nat, c': nat, u: nat, u': nat)

  /** The stretches of the log one update works on: up to c, from c to c' (new), from u to u' (seen). */
  datatype Parts = Parts(
    o: seq<Entry<Opening>>, oNew: seq<Entry<Opening>>, oSeen: seq<Entry<Opening>>,
    a: seq<Entry<Addition>>, aNew: seq<Entry<Addition>>, aSeen: seq<Entry<Addition>>,
    s: seq<Entry<Key>>, sNew: seq<Entry<Key>>,
    closes: seq<Entry<CloseRequest>>)

  function PartsOf(logs: Logs, w: Window): Parts {
    Parts(Between(logs.openings, 0, w.c), Between(logs.openings, w.c, w.c'), Between(logs.openings, w.u, w.u'),
          Between(logs.additions, 0, w.c), Between(logs.additions, w.c, w.c'), Between(logs.additions, w.u, w.u'),
          Between(logs.settlements, 0, w.c), Between(logs.settlements, w.c, w.c'),
          Between(logs.closeRequests, w.c, w.c'))
  }

  /** How far a relay got: it stops at the first error, except that a challenge the receiver cannot pay for
      is only noted. */
  datatype Progress = Progress(
    channels: Channels,
    sent: seq<CooperativeClose>,
    lacksFunds: bool,
    result: Result<Reply, Error>)

  function Relay(env: Env, cs: Channels, steps: seq<Step>): Progress {
    if steps == [] then Progress(cs, [], false, Ok(Done))
    else
      var p, last := Relay(env, cs, steps[..|steps| - 1]), steps[|steps| - 1];
      if p.result.Err? then p else RelayOne(env, p, last)
  }

  function RelayOne(env: Env, p: Progress, step: Step): Progress {
    var e := Apply(env, p.channels, step);
    var noted := step.CloseRequested? && e.result == Err(InsufficientBalance);
    Progress(e.channels, p.sent + e.sent, p.lacksFunds || noted, if noted || e.result.Ok? then Ok(Done) else e.result)
  }

  lemma RelaySnoc(env: Env, cs: Channels, steps: seq<Step>, step: Step)
    ensures var p := Relay(env, cs, steps);
            Relay(env, cs, steps + [step]) == if p.result.Err? then p else RelayOne(env, p, step)
  {
    assert (steps + [step])[..|steps|] == steps;
  }

  /** Progress p followed by progress q of a relay that started where p ended. */
  function Then(p: Progress, q: Progress): Progress {
    Progress(q.channels, p.sent + q.sent, p.lacksFunds || q.lacksFunds, q.result)
  }

  lemma RelayOneThen(env: Env, p: Progress, q: Progress, step: Step)
    requires p.result.Ok?
    ensures RelayOne(env, Then(p, q), step) == Then(p, RelayOne(env, q, step))
  {
    var sent := Apply(env, q.channels, step).sent;
    assert p.sent + q.sent + sent == p.sent + (q.sent + sent);
  }

  lemma {:induction false} RelayAppend(env: Env, cs: Channels, first: seq<Step>, second: seq<Step>)
    ensures Relay(env, cs, first + second) == More(env, Relay(env, cs, first), second)
  {
    var p := Relay(env, cs, first);
    if second == [] {
      assert first + second == first;
    } else {
      var shorter, last := second[..|second| - 1], second[|second| - 1];
      RelayAppend(env, cs, first, shorter);
      RelaySnoc(env, cs, first + shorter, last);
      RelaySnoc(env, p.channels, shorter, last);
      assert first + shorter + [last] == first + second && shorter + [last] == second;
      if p.result.Ok? {
        RelayOneThen(env, p, Relay(env, p.channels, shorter), last);
      }
    }
  }

  /** Relays more steps, unless the relay has stopped already. */
  function More(env: Env, p: Progress, steps: seq<Step>): Progress {
    if p.result.Err? then p else Then(p, Relay(env, p.channels, steps))
  }

  // The six passes over the log, in the order the watcher makes them

  function Pass1(env: Env, cs: Channels, p: Parts): Progress { Relay(env, cs, UnconfirmedOpenings(p.oSeen)) }

  function Pass2(env: Env, cs: Channels, p: Parts): Progress { More(env, Pass1(env, cs, p), Openings(p.oNew)) }

  function Pass3(env: Env, cs: Channels, p: Parts): Progress { More(env, Pass2(env, cs, p),
                 UnconfirmedAdditions(p.aSeen)) }

  function Pass4(env: Env, cs: Channels, p: Parts): Progress { More(env, Pass3(env, cs, p), Additions(p.aNew)) }

  function Pass5(env: Env, cs: Channels, p: Parts): Progress { More(env, Pass4(env, cs, p), Settlements(p.sNew)) }

  function Pass6(env: Env, cs: Channels, p: Parts): Progress { More(env, Pass5(env, cs, p), CloseRequests(p.closes)) }

  predicate FromChain(step: Step) {
    !step.Close? && !step.Sign? && !step.Pay? && !step.Reset?
  }
}
