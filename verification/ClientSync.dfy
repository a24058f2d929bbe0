/** Rebuilding the sender's list of channels from the contract's log, on values. */
module ClientSync {
  import opened ReceiverChannel
  import opened SenderChannels

  /** All channels of one client have the same sender. */
  datatype ChannelId = ChannelId(receiver: Address, block: nat)

  datatype Event = Event(id: ChannelId, amount: nat)

  /** The four logs filtered for this sender: opening deposits, top-ups, closing balances, settlements. */
  datatype SenderLogs = SenderLogs(created: seq<Event>, toppedUp: seq<Event>, closeRequested: seq<Event>, settled: seq<Event>)

  type Views = map<ChannelId, SenderView>

  predicate Has(log: seq<Event>, id: ChannelId) { exists e :: e in log && e.id == id }

  // The four loops and the final filter

  function CreateOne(m: Views, e: Event): Views {
    m[e.id := if e.id in m then m[e.id].(deposit := e.amount) else SenderView(e.amount, 0, Open, {0})]
  }

  function TopupOne(m: Views, e: Event): Views
    requires e.id in m
  {
    m[e.id := m[e.id].(deposit := m[e.id].deposit + e.amount)]
  }

  function CloseOne(m: Views, e: Event): Views
    requires e.id in m
  {
    m[e.id := SignBalance(m[e.id], e.amount).(state := Settling)]
  }

  function SettleOne(m: Views, e: Event): Views
    requires e.id in m
  {
    m[e.id := m[e.id].(state := Closed)]
  }

  function Creates(m: Views, log: seq<Event>): Views {
    if log == [] then m else CreateOne(Creates(m, log[..|log| - 1]), log[|log| - 1])
  }

  predicate Known(m: Views, log: seq<Event>) { forall e :: e in log ==> e.id in m }

  function Topups(m: Views, log: seq<Event>): (r: Views)
    requires Known(m, log)
    ensures r.Keys == m.Keys
  {
    if log == [] then m else TopupOne(Topups(m, log[..|log| - 1]), log[|log| - 1])
  }

  function Closes(m: Views, log: seq<Event>): (r: Views)
    requires Known(m, log)
    ensures r.Keys == m.Keys
  {
    if log == [] then m else CloseOne(Closes(m, log[..|log| - 1]), log[|log| - 1])
  }

  function Settles(m: Views, log: seq<Event>): (r: Views)
    requires Known(m, log)
    ensures r.Keys == m.Keys
  {
    if log == [] then m else SettleOne(Settles(m, log[..|log| - 1]), log[|log| - 1])
  }

  function Forget(m: Views): Views {
    map id | id in m && m[id].state != Closed :: m[id]
  }

  /** Every top-up, close and settlement is of a channel that was created or is held locally. */
  predicate Referenced(m: Views, logs: SenderLogs) {
    var c := Creates(m, logs.created);
    Known(c, logs.toppedUp) && Known(c, logs.closeRequested) && Known(c, logs.settled)
  }

  function Sync(m: Views, logs: SenderLogs): Views
    requires Referenced(m, logs)
  {
    Forget(Settles(Closes(Topups(Creates(m, logs.created), logs.toppedUp), logs.closeRequested), logs.settled))
  }

  // What the loops leave for each channel

  function LastAmount(log: seq<Event>, id: ChannelId): nat {
    if log == [] then 0
    else if log[|log| - 1].id == id then log[|log| - 1].amount
    else LastAmount(log[..|log| - 1], id)
  }

  function Total(log: seq<Event>, id: ChannelId): nat {
    if log == [] then 0
    else Total(log[..|log| - 1], id) + (if log[|log| - 1].id == id then log[|log| - 1].amount else 0)
  }

  function Amounts(log: seq<Event>, id: ChannelId): set<int> {
    set e | e in log && e.id == id :: e.amount as int
  }

  lemma HasSnoc(log: seq<Event>, id: ChannelId)
    requires log != []
    ensures Has(log, id) <==> Has(log[..|log| - 1], id) || log[|log| - 1].id == id
  {
    assert log == log[..|log| - 1] + [log[|log| - 1]];
    assert log[|log| - 1] in log;
  }

  lemma {:induction false} CreatesAt(m: Views, log: seq<Event>, id: ChannelId)
    ensures id in Creates(m, log) <==> id in m || Has(log, id)
    ensures id in Creates(m, log) ==>
              Creates(m, log)[id] ==
              if Has(log, id) then (if id in m then m[id] else SenderView(0, 0, Open, {0})).(deposit := LastAmount(log, id))
              else m[id]
  {
    if log != [] {
      CreatesAt(m, log[..|log| - 1], id);
      HasSnoc(log, id);
    }
  }

  lemma {:induction false} TopupsAt(m: Views, log: seq<Event>, id: ChannelId)
    requires Known(m, log) && id in m
    ensures Topups(m, log)[id] == m[id].(deposit := m[id].deposit + Total(log, id))
  {
    if log != [] {
      TopupsAt(m, log[..|log| - 1], id);
    }
  }

  lemma {:induction false} ClosesAt(m: Views, log: seq<Event>, id: ChannelId)
    requires Known(m, log) && id in m
    ensures Closes(m, log)[id] ==
            if Has(log, id) then
              m[id].(balance := LastAmount(log, id), state := Settling, signed := m[id].signed + Amounts(log, id))
            else m[id]
  {
    if log != [] {
      var before, last := log[..|log| - 1], log[|log| - 1];
      ClosesAt(m, before, id);
      HasSnoc(log, id);
      assert log == before + [last];
      if last.id == id {
        assert Amounts(log, id) == Amounts(before, id) + {last.amount as int};
        if !Has(before, id) {
          assert Amounts(before, id) == {};
        }
      } else {
        assert Amounts(log, id) == Amounts(before, id);
      }
    }
  }

  lemma {:induction false} SettlesAt(m: Views, log: seq<Event>, id: ChannelId)
    requires Known(m, log) && id in m
    ensures Settles(m, log)[id] == if Has(log, id) then m[id].(state := Closed) else m[id]
  {
    if log != [] {
      SettlesAt(m, log[..|log| - 1], id);
      HasSnoc(log, id);
    }
  }

  /** What a channel looks like after a synchronisation, read off the logs directly. */
  function Synced(m: Views, logs: SenderLogs, id: ChannelId): SenderView {
    var v := if id in m then m[id] else SenderView(0, 0, Open, {0});
    var deposit := if Has(logs.created, id) then LastAmount(logs.created, id) + Total(logs.toppedUp, id)
                   else v.deposit + Total(logs.toppedUp, id);
    if Has(logs.closeRequested, id) then
      SenderView(deposit, LastAmount(logs.closeRequested, id), Settling, v.signed + Amounts(logs.closeRequested, id))
    else v.(deposit := deposit)
  }

  /** A channel survives unless it is settled in the log or was closed locally with no close on record. */
  predicate Survives(m: Views, logs: SenderLogs, id: ChannelId) {
    && (id in m || Has(logs.created, id))
    && !Has(logs.settled, id)
    && (id in m && m[id].state == Closed ==> Has(logs.closeRequested, id))
  }

  /** Synchronisation leaves exactly the surviving channels. Each created one has its opening deposit plus all
      its top-ups, whatever it held before, and each close-requested one settles at the logged balance. */
  lemma SyncAt(m: Views, logs: SenderLogs, id: ChannelId)
    requires Referenced(m, logs)
    ensures id in Sync(m, logs) <==> Survives(m, logs, id)
    ensures id in Sync(m, logs) ==> Sync(m, logs)[id] == Synced(m, logs, id)
  {
    var c := Creates(m, logs.created);
    CreatesAt(m, logs.created, id);
    if id in c {
      TopupsAt(c, logs.toppedUp, id);
      var t := Topups(c, logs.toppedUp);
      ClosesAt(t, logs.closeRequested, id);
      SettlesAt(Closes(t, logs.closeRequested), logs.settled, id);
    }
  }

  /** What the loops make of a channel object that is held, whether or not it is kept afterwards. */
  function SyncedObject(v: SenderView, logs: SenderLogs, id: ChannelId): SenderView {
    var w := Synced(map[id := v], logs, id);
    if Has(logs.settled, id) then w.(state := Closed) else w
  }

  lemma SyncedObjectIs(m: Views, logs: SenderLogs, id: ChannelId)
    requires Referenced(m, logs) && id in m
    ensures var t := Topups(Creates(m, logs.created), logs.toppedUp);
            id in t && Settles(Closes(t, logs.closeRequested), logs.settled)[id] == SyncedObject(m[id], logs, id)
  {
    var c := Creates(m, logs.created);
    CreatesAt(m, logs.created, id);
    TopupsAt(c, logs.toppedUp, id);
    var t := Topups(c, logs.toppedUp);
    ClosesAt(t, logs.closeRequested, id);
    SettlesAt(Closes(t, logs.closeRequested), logs.settled, id);
  }

  lemma {:induction false} LastIsAmount(log: seq<Event>, id: ChannelId)
    requires Has(log, id)
    ensures LastAmount(log, id) as int in Amounts(log, id)
  {
    HasSnoc(log, id);
    var last := log[|log| - 1];
    if last.id == id {
      assert last in log;
    } else {
      LastIsAmount(log[..|log| - 1], id);
    }
  }

  /** Well-formed logs: top-ups, closes and settlements are of created channels. */
  predicate LogsWellFormed(logs: SenderLogs) {
    && (forall e :: e in logs.toppedUp ==> Has(logs.created, e.id))
    && (forall e :: e in logs.closeRequested ==> Has(logs.created, e.id))
    && (forall e :: e in logs.settled ==> Has(logs.created, e.id))
  }

  lemma WellFormedIsReferenced(m: Views, logs: SenderLogs)
    requires LogsWellFormed(logs)
    ensures Referenced(m, logs)
  {
    forall id | Has(logs.created, id)
      ensures id in Creates(m, logs.created)
    {
      CreatesAt(m, logs.created, id);
    }
  }

  /** A channel closed locally although the log records neither its close nor its settlement. */
  predicate ClosedUnrecorded(m: Views, logs: SenderLogs, id: ChannelId) {
    && id in m && m[id].state == Closed
    && Has(logs.created, id) && !Has(logs.closeRequested, id) && !Has(logs.settled, id)
  }

  lemma {:induction false} TotalNone(log: seq<Event>, id: ChannelId)
    requires !Has(log, id)
    ensures Total(log, id) == 0
  {
    if log != [] {
      HasSnoc(log, id);
      TotalNone(log[..|log| - 1], id);
    }
  }

  /** A second synchronisation over the same logs changes nothing about any channel exactly when that channel
      is not one closed locally without a record: such a channel is dropped and then comes back as open. */
  lemma SyncAgainAt(m: Views, logs: SenderLogs, id: ChannelId)
    requires LogsWellFormed(logs) && Referenced(m, logs) && Referenced(Sync(m, logs), logs)
    ensures var once := Sync(m, logs);
            var twice := Sync(once, logs);
            ((id in twice <==> id in once) && (id in once ==> twice[id] == once[id]))
            <==> !ClosedUnrecorded(m, logs, id)
  {
    var once := Sync(m, logs);
    SyncAt(m, logs, id);
    SyncAt(once, logs, id);
    if id in once && !Has(logs.created, id) {
      TotalNone(logs.toppedUp, id);
    }
  }

  /** Running the synchronisation a second time changes nothing iff no channel was closed without a record. */
  lemma SyncTwiceIff(m: Views, logs: SenderLogs)
    requires LogsWellFormed(logs)
    ensures Referenced(m, logs) && Referenced(Sync(m, logs), logs)
    ensures Sync(Sync(m, logs), logs) == Sync(m, logs) <==> forall id :: !ClosedUnrecorded(m, logs, id)
  {
    WellFormedIsReferenced(m, logs);
    var once := Sync(m, logs);
    WellFormedIsReferenced(once, logs);
    var twice := Sync(once, logs);
    forall id
      ensures ((id in twice <==> id in once) && (id in once ==> twice[id] == once[id])) <==> !ClosedUnrecorded(m, logs, id)
    {
      SyncAgainAt(m, logs, id);
    }
  }

  /** A channel closed cooperatively of which the log knows only the creation: the first synchronisation forgets it,
      the second brings it back as open. */
  lemma SyncTwiceDiffers(id: ChannelId, deposit: nat, v: SenderView)
    requires v.state == Closed
    ensures var logs := SenderLogs([Event(id, deposit)], [], [], []);
            && Referenced(map[id := v], logs) && Referenced(Sync(map[id := v], logs), logs)
            && id !in Sync(map[id := v], logs)
            && id in Sync(Sync(map[id := v], logs), logs)
            && Sync(Sync(map[id := v], logs), logs)[id] == SenderView(deposit, 0, Open, {0})
  {
    var logs := SenderLogs([Event(id, deposit)], [], [], []);
    assert Event(id, deposit) in logs.created && Has(logs.created, id);
    SyncTwiceIff(map[id := v], logs);
    SyncAt(map[id := v], logs, id);
    SyncAt(Sync(map[id := v], logs), logs, id);
  }

  /** From nothing, the client recovers exactly the unsettled channels with their deposits. */
  lemma RecoversUnsettled(logs: SenderLogs, id: ChannelId)
    requires LogsWellFormed(logs)
    ensures Referenced(map[], logs)
    ensures id in Sync(map[], logs) <==> Has(logs.created, id) && !Has(logs.settled, id)
    ensures id in Sync(map[], logs) ==>
              && Sync(map[], logs)[id].deposit == LastAmount(logs.created, id) + Total(logs.toppedUp, id)
              && Sync(map[], logs)[id].state == (if Has(logs.closeRequested, id) then Settling else Open)
  {
    WellFormedIsReferenced(map[], logs);
    SyncAt(map[], logs, id);
  }
}
