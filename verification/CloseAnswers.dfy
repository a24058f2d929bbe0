/** What an update answers to the close requests it reads. */
module CloseAnswers {
  import opened Collections
  import opened Wrappers
  import opened ReceiverChannel
  import opened ReceiverSpec
  import opened ReceiverSafety
  import opened ReceiverLaws
  import opened ChainLog
  import opened LogAgreement
  import opened AbortedPolls
  import opened UnconfirmedEvents

  /** The request understates what the receiver holds a proof for. */
  predicate Disputed(cs: Channels, r: CloseRequest) {
    r.settleTimeout.Some? && BalanceOf(cs, r.k) > r.balance
  }

  /** The receiver has something to submit: the request is disputed, or the channel is gone from the contract. */
  predicate MustSubmit(cs: Channels, r: CloseRequest) {
    Disputed(cs, r) || (r.settleTimeout.None? && BalanceOf(cs, r.k) > 0)
  }

  /** The transaction closes the channel at everything received on it. */
  ghost predicate Submits(env: Env, cs: Channels, k: Key, tx: CooperativeClose) {
    && tx.receiver == env.receiver && tx.openBlock == k.openBlock && tx.balance == BalanceOf(cs, k)
    && SignedBySender(env, k, tx.balance, tx.balanceSignature)
    && tx.closingSignature == Agreement(env, k, tx.balance)
  }

  /** Every close request that must be answered and can be is answered with everything received, nothing else is sent,
      and the lack of funds is noted if and only if a dispute could not be paid for. */
  ghost predicate Answered(env: Env, cs: Channels, list: seq<Entry<CloseRequest>>, p: Progress) {
    && (p.lacksFunds <==> exists e :: e in list && Disputed(cs, e.event) && !e.event.canSend)
    && (forall e :: e in list && MustSubmit(cs, e.event) && e.event.canSend ==>
          exists tx :: tx in p.sent && Submits(env, cs, e.event.k, tx))
    && (forall tx :: tx in p.sent ==>
          exists e :: e in list && MustSubmit(cs, e.event) && e.event.canSend && Submits(env, cs, e.event.k, tx))
  }

  lemma AnswerOne(env: Env, p: Progress, r: CloseRequest)
    requires Inv(env, p.channels)
    ensures var q := RelayOne(env, p, CloseStep(r));
            && q.lacksFunds == (p.lacksFunds || (Disputed(p.channels, r) && !r.canSend))
            && (if MustSubmit(p.channels, r) && r.canSend
                then |q.sent| == |p.sent| + 1 && q.sent[..|p.sent|] == p.sent && Submits(env, p.channels, r.k, q.sent[|p.sent|])
                else q.sent == p.sent)
  {
    if Confirmed(p.channels, r.k) {
      assert Good(env, r.k, p.channels[r.k]);
    }
  }

  lemma {:induction false} RequestsAreAnswered(env: Env, cs: Channels, list: seq<Entry<CloseRequest>>)
    requires Inv(env, cs) && Relay(env, cs, CloseRequests(list)).result.Ok?
    ensures Answered(env, cs, list, Relay(env, cs, CloseRequests(list)))
  {
    if list != [] {
      var before, r := list[..|list| - 1], list[|list| - 1].event;
      SplitLast([], list);
      assert CloseRequests(list)[..|list| - 1] == CloseRequests(before);
      RequestsAreAnswered(env, cs, before);
      RelayKeepsInv(env, cs, CloseRequests(before));
      CloseRequestsCompleteIff(env, cs, before, r.k);
      AnswerMore(env, cs, list, Relay(env, cs, CloseRequests(before)));
    }
  }

  lemma AnswerMore(env: Env, cs: Channels, list: seq<Entry<CloseRequest>>, p: Progress)
    requires list != [] && Inv(env, p.channels)
    requires BalanceOf(p.channels, list[|list| - 1].event.k) == BalanceOf(cs, list[|list| - 1].event.k)
    requires Answered(env, cs, list[..|list| - 1], p)
    ensures Answered(env, cs, list, RelayOne(env, p, CloseStep(list[|list| - 1].event)))
  {
    var last := list[|list| - 1];
    var r, q := last.event, RelayOne(env, p, CloseStep(last.event));
    SplitLast([], list);
    AnswerOne(env, p, r);
    assert last in list;
    if MustSubmit(cs, r) && r.canSend {
      assert q.sent == p.sent + [q.sent[|p.sent|]];
      assert Submits(env, cs, r.k, q.sent[|p.sent|]);
    }
  }

  lemma {:induction false} RelaySendsNothing(env: Env, cs: Channels, steps: seq<Step>)
    requires forall s :: s in steps ==> FromChain(s) && !s.CloseRequested? && !s.ForceClose?
    ensures Relay(env, cs, steps).sent == [] && !Relay(env, cs, steps).lacksFunds
  {
    if steps != [] {
      SplitLast([], steps);
      RelaySendsNothing(env, cs, steps[..|steps| - 1]);
    }
  }

  lemma MoreSendsNothing(env: Env, p: Progress, steps: seq<Step>)
    requires forall s :: s in steps ==> FromChain(s) && !s.CloseRequested? && !s.ForceClose?
    ensures More(env, p, steps).sent == p.sent && More(env, p, steps).lacksFunds == p.lacksFunds
  {
    RelaySendsNothing(env, p.channels, steps);
  }

  lemma FirstPassesSendNothing(env: Env, cs: Channels, p: Parts)
    ensures Pass5(env, cs, p).sent == [] && !Pass5(env, cs, p).lacksFunds
  {
    RelaySendsNothing(env, cs, UnconfirmedOpenings(p.oSeen));
    MoreSendsNothing(env, Pass1(env, cs, p), Openings(p.oNew));
    MoreSendsNothing(env, Pass2(env, cs, p), UnconfirmedAdditions(p.aSeen));
    MoreSendsNothing(env, Pass3(env, cs, p), Additions(p.aNew));
    MoreSendsNothing(env, Pass4(env, cs, p), Settlements(p.sNew));
  }

  /** A completed update answers its close requests, on the channels as they are after its settlements. */
  lemma PassesAnswer(env: Env, cs: Channels, p: Parts)
    requires Inv(env, cs) && Pass6(env, cs, p).result.Ok?
    ensures Answered(env, Pass5(env, cs, p).channels, p.closes, Pass6(env, cs, p))
  {
    var p5 := Pass5(env, cs, p);
    FirstPassesSendNothing(env, cs, p);
    PassesKeepInv(env, cs, p);
    RequestsAreAnswered(env, p5.channels, p.closes);
    var q := Relay(env, p5.channels, CloseRequests(p.closes));
    assert [] + q.sent == q.sent;
  }

  // Which channels are closed afterwards

  predicate ClosedAt(cs: Channels, k: Key) { Confirmed(cs, k) && cs[k].IsClosed() }

  /** The request closes the channel, pending or not, although not the stored one of a dispute that was answered. */
  predicate ClosesIt(cs: Channels, r: CloseRequest, k: Key) {
    r.k == k && (r.settleTimeout.None? || BalanceOf(cs, k) <= r.balance || !r.canSend)
  }

  lemma CloseOne(env: Env, p: Progress, r: CloseRequest, k: Key)
    requires Inv(env, p.channels) && Confirmed(p.channels, k) && RelayOne(env, p, CloseStep(r)).result.Ok?
    ensures var after := RelayOne(env, p, CloseStep(r)).channels;
            Confirmed(after, k) && (ClosedAt(after, k) <==> ClosedAt(p.channels, k) || ClosesIt(p.channels, r, k))
  {
    if r.k == k {
      assert Good(env, k, p.channels[k]);
    } else {
      OnlyItsChannelChanges(env, p.channels, CloseStep(r), k);
    }
  }

  /** After the pass over the close requests a channel is closed if and only if it was or one of them closes it. */
  lemma {:induction false} RequestsClose(env: Env, cs: Channels, list: seq<Entry<CloseRequest>>, k: Key)
    requires Inv(env, cs) && Confirmed(cs, k) && Relay(env, cs, CloseRequests(list)).result.Ok?
    ensures var after := Relay(env, cs, CloseRequests(list)).channels;
            && Confirmed(after, k)
            && (ClosedAt(after, k) <==> ClosedAt(cs, k) || exists e :: e in list && ClosesIt(cs, e.event, k))
  {
    if list != [] {
      var before, last := list[..|list| - 1], list[|list| - 1];
      SplitLast([], list);
      assert last in list;
      assert CloseRequests(list)[..|list| - 1] == CloseRequests(before);
      RequestsClose(env, cs, before, k);
      RelayKeepsInv(env, cs, CloseRequests(before));
      CloseRequestsCompleteIff(env, cs, before, k);
      CloseOne(env, Relay(env, cs, CloseRequests(before)), last.event, k);
    }
  }

  predicate LeavesClosed(step: Step, k: Key) { FromChain(step) && !Closes(step) && step != Settled(k) }

  lemma {:induction false} RelayLeavesClosed(env: Env, cs: Channels, steps: seq<Step>, k: Key)
    requires forall s :: s in steps ==> LeavesClosed(s, k)
    ensures ClosedAt(Relay(env, cs, steps).channels, k) == ClosedAt(cs, k)
  {
    if steps != [] {
      var before, last := steps[..|steps| - 1], steps[|steps| - 1];
      SplitLast([], steps);
      assert last in steps;
      RelayLeavesClosed(env, cs, before, k);
      StepLeavesClosed(env, Relay(env, cs, before).channels, last, k);
    }
  }

  lemma StepLeavesClosed(env: Env, cs: Channels, step: Step, k: Key)
    requires LeavesClosed(step, k)
    ensures ClosedAt(Apply(env, cs, step).channels, k) == ClosedAt(cs, k)
  {
    if step.k != k {
      OnlyItsChannelChanges(env, cs, step, k);
    }
  }

  lemma NotSettled(list: seq<Entry<Key>>, k: Key)
    requires Settled(k) !in Settlements(list)
    ensures !IsSettled(list, k)
  {
    forall i | 0 <= i < |list|
      ensures list[i].event != k
    {
      assert Settlements(list)[i] in Settlements(list);
    }
  }

  lemma MoreLeavesClosed(env: Env, p: Progress, steps: seq<Step>, k: Key)
    requires forall s :: s in steps ==> LeavesClosed(s, k)
    ensures ClosedAt(More(env, p, steps).channels, k) == ClosedAt(p.channels, k)
  {
    RelayLeavesClosed(env, p.channels, steps, k);
  }

  lemma FirstPassesLeaveClosed(env: Env, cs: Channels, p: Parts, k: Key)
    requires Settled(k) !in Settlements(p.sNew)
    ensures ClosedAt(Pass5(env, cs, p).channels, k) == ClosedAt(cs, k)
  {
    RelayLeavesClosed(env, cs, UnconfirmedOpenings(p.oSeen), k);
    MoreLeavesClosed(env, Pass1(env, cs, p), Openings(p.oNew), k);
    MoreLeavesClosed(env, Pass2(env, cs, p), UnconfirmedAdditions(p.aSeen), k);
    MoreLeavesClosed(env, Pass3(env, cs, p), Additions(p.aNew), k);
    MoreLeavesClosed(env, Pass4(env, cs, p), Settlements(p.sNew), k);
  }

  /** After a completed update a confirmed channel is closed if and only if it was or a request it read closes it. */
  lemma PassesClose(env: Env, cs: Channels, p: Parts, k: Key)
    requires Inv(env, cs) && Pass6(env, cs, p).result.Ok? && Confirmed(Pass6(env, cs, p).channels, k)
    ensures ClosedAt(Pass6(env, cs, p).channels, k) <==>
            ClosedAt(cs, k) || exists e :: e in p.closes && ClosesIt(cs, e.event, k)
  {
    var p4, p5 := Pass4(env, cs, p), Pass5(env, cs, p);
    MoreConfirmsNothing(env, p5, CloseRequests(p.closes), k);
    MoreConfirmsNothing(env, p4, Settlements(p.sNew), k);
    NotSettled(p.sNew, k);
    PassesKeepInv(env, cs, p);
    PassesKeepBalance(env, cs, p, k);
    FirstPassesLeaveClosed(env, cs, p, k);
    RequestsClose(env, p5.channels, p.closes, k);
  }
}
