/** What an update makes of events that are not confirmed yet: openings it stores and top-ups it notes. */
module UnconfirmedEvents {
  import opened Collections
  import opened Wrappers
  import opened ReceiverChannel
  import opened ReceiverSpec
  import opened ReceiverSafety
  import opened ChainLog
  import opened LogAgreement
  import opened AbortedPolls

  /** The amount noted for a transaction on a confirmed channel. */
  function PendingAt(cs: Channels, k: Key, tx: TxHash): Option<nat> {
    if Confirmed(cs, k) && tx in cs[k].topups then Some(cs[k].topups[tx]) else None
  }

  /** The amount the log last gives for a transaction that tops up k. */
  function LastAdded(list: seq<Entry<Addition>>, k: Key, tx: TxHash): Option<nat> {
    if list == [] then None
    else
      var t := list[|list| - 1].event;
      if t.k == k && t.tx == tx then Some(t.added) else LastAdded(list[..|list| - 1], k, tx)
  }

  lemma {:induction false} LastAddedIn(list: seq<Entry<Addition>>, e: Entry<Addition>)
    requires e in list
    ensures LastAdded(list, e.event.k, e.event.tx).Some?
  {
    var last := list[|list| - 1];
    if last.event.k != e.event.k || last.event.tx != e.event.tx {
      SplitLast([], list);
      LastAddedIn(list[..|list| - 1], e);
    }
  }

  /** A stretch of the log that has all entries of a transaction gives the same amount. */
  lemma {:induction false} LastAddedBetween(log: seq<Entry<Addition>>, lo: nat, hi: nat, k: Key, tx: TxHash)
    requires forall e :: e in log && e.event.tx == tx ==> lo < e.block <= hi
    ensures LastAdded(Between(log, lo, hi), k, tx) == LastAdded(log, k, tx)
  {
    if log != [] {
      SplitLast([], log);
      LastAddedBetween(log[..|log| - 1], lo, hi, k, tx);
      var e, rest := log[|log| - 1], Between(log[..|log| - 1], lo, hi);
      assert (rest + [e])[..|rest|] == rest;
    }
  }

  // Steps that leave the noted amount alone

  predicate LeavesPending(step: Step, k: Key) {
    FromChain(step) && step != Settled(k) && !((step.Topup? || step.UnconfirmedTopup?) && step.k == k)
  }

  lemma StepLeavesPending(env: Env, cs: Channels, step: Step, k: Key, tx: TxHash)
    requires LeavesPending(step, k)
    ensures PendingAt(Apply(env, cs, step).channels, k, tx) == PendingAt(cs, k, tx)
  {
    if step.k != k {
      OnlyItsChannelChanges(env, cs, step, k);
    }
  }

  lemma {:induction false} RelayLeavesPending(env: Env, cs: Channels, steps: seq<Step>, k: Key, tx: TxHash)
    requires forall s :: s in steps ==> LeavesPending(s, k)
    ensures PendingAt(Relay(env, cs, steps).channels, k, tx) == PendingAt(cs, k, tx)
  {
    if steps != [] {
      var before := steps[..|steps| - 1];
      SplitLast([], steps);
      RelayLeavesPending(env, cs, before, k, tx);
      StepLeavesPending(env, Relay(env, cs, before).channels, steps[|steps| - 1], k, tx);
    }
  }

  lemma MoreLeavesPending(env: Env, p: Progress, steps: seq<Step>, k: Key, tx: TxHash)
    requires forall s :: s in steps ==> LeavesPending(s, k)
    ensures PendingAt(More(env, p, steps).channels, k, tx) == PendingAt(p.channels, k, tx)
  {
    RelayLeavesPending(env, p.channels, steps, k, tx);
  }

  // The two passes over top-ups

  lemma UnconfirmedAdditionsLast(env: Env, cs: Channels, list: seq<Entry<Addition>>)
    requires list != []
    ensures var t, p := list[|list| - 1].event, Relay(env, cs, UnconfirmedAdditions(list[..|list| - 1]));
            Relay(env, cs, UnconfirmedAdditions(list)) ==
            if p.result.Err? then p else RelayOne(env, p, UnconfirmedTopup(t.k, t.tx, t.added))
  {
    assert UnconfirmedAdditions(list)[..|list| - 1] == UnconfirmedAdditions(list[..|list| - 1]);
  }

  /** Pass 3 notes the last amount of every transaction that tops up a confirmed channel. */
  lemma {:induction false} NotedPass(env: Env, cs: Channels, list: seq<Entry<Addition>>, k: Key, tx: TxHash)
    requires Confirmed(cs, k) && Relay(env, cs, UnconfirmedAdditions(list)).result.Ok?
    ensures var after := Relay(env, cs, UnconfirmedAdditions(list)).channels;
            && Confirmed(after, k)
            && PendingAt(after, k, tx) ==
               if LastAdded(list, k, tx).Some? then LastAdded(list, k, tx) else PendingAt(cs, k, tx)
  {
    if list != [] {
      var before, t := list[..|list| - 1], list[|list| - 1].event;
      UnconfirmedAdditionsLast(env, cs, list);
      NotedPass(env, cs, before, k, tx);
      if t.k != k {
        OnlyItsChannelChanges(env, Relay(env, cs, UnconfirmedAdditions(before)).channels,
                              UnconfirmedTopup(t.k, t.tx, t.added), k);
      }
    }
  }

  /** Pass 4 leaves the transactions that it does not count. */
  lemma {:induction false} UncountedStays(env: Env, cs: Channels, list: seq<Entry<Addition>>, k: Key, tx: TxHash)
    requires !Counted(list, k, tx)
    ensures PendingAt(Relay(env, cs, Additions(list)).channels, k, tx) == PendingAt(cs, k, tx)
  {
    if list != [] {
      var before, t := list[..|list| - 1], list[|list| - 1].event;
      SplitLast([], list);
      assert list[|list| - 1] in list;
      AdditionsLast(env, cs, list);
      UncountedStays(env, cs, before, k, tx);
      if t.k != k {
        OnlyItsChannelChanges(env, Relay(env, cs, Additions(before)).channels, Topup(t.k, t.tx, t.added), k);
      }
    }
  }

  // Only the opening pass confirms channels, and settled ones are gone

  predicate ConfirmsNothing(step: Step) { FromChain(step) && !step.Opened? }

  lemma StepConfirmsNothing(env: Env, cs: Channels, step: Step, k: Key)
    requires ConfirmsNothing(step)
    ensures Confirmed(Apply(env, cs, step).channels, k) ==> Confirmed(cs, k)
    ensures step == Settled(k) && Apply(env, cs, step).result.Ok? ==> k !in Apply(env, cs, step).channels
  {
    if step.k != k {
      OnlyItsChannelChanges(env, cs, step, k);
    }
  }

  lemma {:induction false} RelayConfirmsNothing(env: Env, cs: Channels, steps: seq<Step>, k: Key)
    requires forall s :: s in steps ==> ConfirmsNothing(s)
    ensures var p := Relay(env, cs, steps);
            Confirmed(p.channels, k) ==> Confirmed(cs, k) && (p.result.Ok? ==> Settled(k) !in steps)
  {
    if steps != [] {
      var before, last := steps[..|steps| - 1], steps[|steps| - 1];
      SplitLast([], steps);
      RelayConfirmsNothing(env, cs, before, k);
      StepConfirmsNothing(env, Relay(env, cs, before).channels, last, k);
    }
  }

  lemma MoreConfirmsNothing(env: Env, p: Progress, steps: seq<Step>, k: Key)
    requires forall s :: s in steps ==> ConfirmsNothing(s)
    ensures var q := More(env, p, steps);
            Confirmed(q.channels, k) ==> Confirmed(p.channels, k) && (q.result.Ok? ==> Settled(k) !in steps)
  {
    RelayConfirmsNothing(env, p.channels, steps, k);
  }

  // The six passes

  /** After a completed update, a transaction among the unconfirmed additions that is not among the confirmed ones is
      noted on its channel with the amount logged last. */
  lemma PassesNote(env: Env, cs: Channels, p: Parts, k: Key, tx: TxHash)
    requires Pass6(env, cs, p).result.Ok? && Confirmed(Pass6(env, cs, p).channels, k)
    requires LastAdded(p.aSeen, k, tx).Some? && !Counted(p.aNew, k, tx)
    ensures PendingAt(Pass6(env, cs, p).channels, k, tx) == LastAdded(p.aSeen, k, tx)
  {
    var p2, p3, p4, p5 := Pass2(env, cs, p), Pass3(env, cs, p), Pass4(env, cs, p), Pass5(env, cs, p);
    MoreConfirmsNothing(env, p5, CloseRequests(p.closes), k);
    MoreConfirmsNothing(env, p4, Settlements(p.sNew), k);
    MoreConfirmsNothing(env, p3, Additions(p.aNew), k);
    MoreConfirmsNothing(env, p2, UnconfirmedAdditions(p.aSeen), k);
    NotedPass(env, p2.channels, p.aSeen, k, tx);
    UncountedStays(env, p3.channels, p.aNew, k, tx);
    MoreLeavesPending(env, p4, Settlements(p.sNew), k, tx);
    MoreLeavesPending(env, p5, CloseRequests(p.closes), k, tx);
  }

  /** Pass 1 stores an opening of an unknown channel with the deposit logged for it. */
  lemma {:induction false} OpeningIsStored(env: Env, cs: Channels, list: seq<Entry<Opening>>, e: Entry<Opening>)
    requires e in list && OpenedOnce(list) && KeyOf(e) !in cs && forall x :: x in list ==> x.block > 0
    ensures var p := Relay(env, cs, UnconfirmedOpenings(list));
            p.result == Ok(Done) && Unconfirmed(p.channels, KeyOf(e)) && p.channels[KeyOf(e)].deposit == e.event.deposit
  {
    var before, last := list[..|list| - 1], list[|list| - 1];
    SplitLast([], list);
    assert UnconfirmedOpenings(list)[..|list| - 1] == UnconfirmedOpenings(before);
    var step, p := UnconfirmedOpened(KeyOf(last), last.event.deposit), Relay(env, cs, UnconfirmedOpenings(before));
    UnconfirmedOpeningsSucceed(env, cs, before);
    if e in before {
      OpeningIsStored(env, cs, before, e);
    } else {
      UnopenedStays(env, cs, before, KeyOf(e));
    }
  }

  lemma {:induction false} UnconfirmedOpeningsSucceed(env: Env, cs: Channels, list: seq<Entry<Opening>>)
    requires forall x :: x in list ==> x.block > 0
    ensures Relay(env, cs, UnconfirmedOpenings(list)).result == Ok(Done)
  {
    if list != [] {
      var before := list[..|list| - 1];
      SplitLast([], list);
      assert UnconfirmedOpenings(list)[..|list| - 1] == UnconfirmedOpenings(before);
      UnconfirmedOpeningsSucceed(env, cs, before);
      assert list[|list| - 1] in list;
    }
  }

  lemma {:induction false} UnopenedStays(env: Env, cs: Channels, list: seq<Entry<Opening>>, k: Key)
    requires k !in cs && !IsOpened(list, k)
    ensures k !in Relay(env, cs, UnconfirmedOpenings(list)).channels
  {
    if list != [] {
      var before := list[..|list| - 1];
      SplitLast([], list);
      assert UnconfirmedOpenings(list)[..|list| - 1] == UnconfirmedOpenings(before);
      assert list[|list| - 1] in list;
      UnopenedStays(env, cs, before, k);
    }
  }

  /** Events of other channels, and unconfirmed ones of its own, leave an unconfirmed channel as it is. */
  lemma {:induction false} UnconfirmedStays(env: Env, cs: Channels, steps: seq<Step>, k: Key)
    requires Unconfirmed(cs, k)
    requires forall s :: s in steps ==> FromChain(s) && s != Settled(k) && !(s.Opened? && s.k == k)
    ensures var after := Relay(env, cs, steps).channels; Unconfirmed(after, k) && after[k] == cs[k]
  {
    if steps != [] {
      var before, last := steps[..|steps| - 1], steps[|steps| - 1];
      SplitLast([], steps);
      UnconfirmedStays(env, cs, before, k);
      if last.k != k {
        OnlyItsChannelChanges(env, Relay(env, cs, before).channels, last, k);
      }
    }
  }

  lemma MoreUnconfirmedStays(env: Env, p: Progress, steps: seq<Step>, k: Key)
    requires Unconfirmed(p.channels, k)
    requires forall s :: s in steps ==> FromChain(s) && s != Settled(k) && !(s.Opened? && s.k == k)
    ensures var after := More(env, p, steps).channels; Unconfirmed(after, k) && after[k] == p.channels[k]
  {
    UnconfirmedStays(env, p.channels, steps, k);
  }

  /** After an update, complete or not, an opening read as unconfirmed only is stored with its deposit. */
  lemma PassesStore(env: Env, cs: Channels, p: Parts, e: Entry<Opening>)
    requires e in p.oSeen && OpenedOnce(p.oSeen) && KeyOf(e) !in cs && forall x :: x in p.oSeen ==> x.block > 0
    requires !IsOpened(p.oNew, KeyOf(e)) && !IsSettled(p.sNew, KeyOf(e))
    ensures var after := Pass6(env, cs, p).channels;
            Unconfirmed(after, KeyOf(e)) && after[KeyOf(e)].deposit == e.event.deposit
  {
    var k := KeyOf(e);
    OpeningIsStored(env, cs, p.oSeen, e);
    forall s | s in Openings(p.oNew)
      ensures s.Opened? && s.k != k
    {
      var i :| 0 <= i < |p.oNew| && s == Openings(p.oNew)[i];
      assert p.oNew[i] in p.oNew;
    }
    forall s | s in Settlements(p.sNew)
      ensures s != Settled(k)
    {
      var i :| 0 <= i < |p.sNew| && s == Settlements(p.sNew)[i];
      assert p.sNew[i] in p.sNew;
    }
    MoreUnconfirmedStays(env, Pass1(env, cs, p), Openings(p.oNew), k);
    MoreUnconfirmedStays(env, Pass2(env, cs, p), UnconfirmedAdditions(p.aSeen), k);
    MoreUnconfirmedStays(env, Pass3(env, cs, p), Additions(p.aNew), k);
    MoreUnconfirmedStays(env, Pass4(env, cs, p), Settlements(p.sNew), k);
    MoreUnconfirmedStays(env, Pass5(env, cs, p), CloseRequests(p.closes), k);
  }

  // Where unconfirmed things come from

  /** Every pending top-up and every unconfirmed channel was there before or is in the stretch read as unconfirmed. */
  ghost predicate Traced(cs: Channels, after: Channels, o: seq<Entry<Opening>>, a: seq<Entry<Addition>>) {
    && (forall k :: Unconfirmed(after, k) ==> Unconfirmed(cs, k) || IsOpened(o, k))
    && (forall k, tx :: PendingAt(after, k, tx).Some? ==>
          || PendingAt(after, k, tx) == PendingAt(cs, k, tx)
          || exists e :: e in a && e.event == Addition(k, tx, PendingAt(after, k, tx).value))
  }

  /** A step that brings nothing unconfirmed, or only what the stretch holds. */
  predicate TracedStep(step: Step, o: seq<Entry<Opening>>, a: seq<Entry<Addition>>) {
    match step
    case UnconfirmedOpened(k, _) => IsOpened(o, k)
    case UnconfirmedTopup(k, tx, added) => exists e :: e in a && e.event == Addition(k, tx, added)
    case _ => FromChain(step)
  }

  lemma StepTraced(env: Env, cs: Channels, step: Step, o: seq<Entry<Opening>>, a: seq<Entry<Addition>>)
    requires TracedStep(step, o, a)
    ensures Traced(cs, Apply(env, cs, step).channels, o, a)
  {
    var after := Apply(env, cs, step).channels;
    forall k, tx
      ensures Unconfirmed(after, k) ==> Unconfirmed(cs, k) || IsOpened(o, k)
      ensures PendingAt(after, k, tx).Some? ==>
                || PendingAt(after, k, tx) == PendingAt(cs, k, tx)
                || exists e :: e in a && e.event == Addition(k, tx, PendingAt(after, k, tx).value)
    {
      if step.k != k {
        OnlyItsChannelChanges(env, cs, step, k);
      }
    }
  }

  lemma TracedTwice(cs: Channels, mid: Channels, after: Channels, o: seq<Entry<Opening>>, a: seq<Entry<Addition>>)
    requires Traced(cs, mid, o, a) && Traced(mid, after, o, a)
    ensures Traced(cs, after, o, a)
  {
  }

  lemma {:induction false} RelayTraced(env: Env, cs: Channels, steps: seq<Step>,
                                       o: seq<Entry<Opening>>, a: seq<Entry<Addition>>)
    requires forall s :: s in steps ==> TracedStep(s, o, a)
    ensures Traced(cs, Relay(env, cs, steps).channels, o, a)
  {
    if steps != [] {
      var before := steps[..|steps| - 1];
      SplitLast([], steps);
      RelayTraced(env, cs, before, o, a);
      var mid := Relay(env, cs, before).channels;
      StepTraced(env, mid, steps[|steps| - 1], o, a);
      TracedTwice(cs, mid, Relay(env, cs, steps).channels, o, a);
    }
  }

  lemma MoreTraced(env: Env, cs: Channels, p: Progress, steps: seq<Step>, o: seq<Entry<Opening>>, a: seq<Entry<Addition>>)
    requires Traced(cs, p.channels, o, a) && forall s :: s in steps ==> TracedStep(s, o, a)
    ensures Traced(cs, More(env, p, steps).channels, o, a)
  {
    RelayTraced(env, p.channels, steps, o, a);
    TracedTwice(cs, p.channels, Relay(env, p.channels, steps).channels, o, a);
  }

  lemma SeenStepsTraced(o: seq<Entry<Opening>>, a: seq<Entry<Addition>>)
    ensures forall s :: s in UnconfirmedOpenings(o) ==> TracedStep(s, o, a)
    ensures forall s :: s in UnconfirmedAdditions(a) ==> TracedStep(s, o, a)
  {
    forall s | s in UnconfirmedOpenings(o)
      ensures TracedStep(s, o, a)
    {
      var i :| 0 <= i < |o| && s == UnconfirmedOpenings(o)[i];
      assert o[i] in o;
    }
    forall s | s in UnconfirmedAdditions(a)
      ensures TracedStep(s, o, a)
    {
      var i :| 0 <= i < |a| && s == UnconfirmedAdditions(a)[i];
      assert a[i] in a && a[i].event == Addition(a[i].event.k, a[i].event.tx, a[i].event.added);
    }
  }

  /** After an update, complete or not, whatever is unconfirmed was there before or is in what it read. */
  lemma PassesTraced(env: Env, cs: Channels, p: Parts)
    ensures Traced(cs, Pass6(env, cs, p).channels, p.oSeen, p.aSeen)
  {
    SeenStepsTraced(p.oSeen, p.aSeen);
    RelayTraced(env, cs, UnconfirmedOpenings(p.oSeen), p.oSeen, p.aSeen);
    MoreTraced(env, cs, Pass1(env, cs, p), Openings(p.oNew), p.oSeen, p.aSeen);
    MoreTraced(env, cs, Pass2(env, cs, p), UnconfirmedAdditions(p.aSeen), p.oSeen, p.aSeen);
    MoreTraced(env, cs, Pass3(env, cs, p), Additions(p.aNew), p.oSeen, p.aSeen);
    MoreTraced(env, cs, Pass4(env, cs, p), Settlements(p.sNew), p.oSeen, p.aSeen);
    MoreTraced(env, cs, Pass5(env, cs, p), CloseRequests(p.closes), p.oSeen, p.aSeen);
  }
}
