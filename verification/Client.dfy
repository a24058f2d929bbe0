/** The client and its channel objects. */
module Clients {
  import opened Wrappers
  import opened ReceiverChannel
  import opened SenderChannels
  import opened ClientSync

  type Directory = map<ChannelId, SenderChannel>

  /** Each channel is filed under its own id, so different ids never share an object. */
  ghost predicate Filed(dir: Directory)
    reads dir.Values
  {
    forall id {:trigger dir[id]} :: id in dir ==>
      dir[id].receiver == id.receiver && dir[id].block == id.block && dir[id].Valid()
  }

  ghost function ViewsOf(dir: Directory): Views
    reads dir.Values
  {
    map id | id in dir :: dir[id].View()
  }

  ghost function NotClosed(dir: Directory): Directory
    reads dir.Values
  {
    map id | id in dir && dir[id].state != Closed :: dir[id]
  }

  lemma NotClosedPart(dir: Directory, kept: seq<SenderChannel>)
    requires Filed(dir)
    requires forall i :: 0 <= i < |kept| ==> kept[i] in dir.Values && kept[i].state != Closed
    requires forall id :: id in dir && dir[id].state != Closed ==> dir[id] in kept
    ensures Filed(NotClosed(dir)) && ViewsOf(NotClosed(dir)) == Forget(ViewsOf(dir))
    ensures NotClosed(dir).Values <= dir.Values
    ensures forall c :: c in kept ==> c in NotClosed(dir).Values
    ensures forall c :: c in NotClosed(dir).Values ==> c in kept
  {
    var part := NotClosed(dir);
    assert Filed(part) by {
      assert forall id :: id in part ==> part[id] == dir[id];
    }
    forall c | c in kept
      ensures c in part.Values
    {
      var i :| 0 <= i < |kept| && kept[i] == c;
      var id :| id in dir && dir[id] == c;
      assert id in part && part[id] == c;
    }
  }

  function Max(a: nat, b: nat): nat { if a < b then b else a }

  lemma TopupsSnoc(m: Views, log: seq<Event>, i: nat)
    requires i < |log| && Known(m, log[..i])
    ensures log[i].id in m <==> Known(m, log[..i + 1])
    ensures log[i].id in m ==> Topups(m, log[..i + 1]) == TopupOne(Topups(m, log[..i]), log[i])
  {
    assert log[..i + 1] == log[..i] + [log[i]];
  }

  lemma ClosesSnoc(m: Views, log: seq<Event>, i: nat)
    requires i < |log| && Known(m, log[..i])
    ensures log[i].id in m <==> Known(m, log[..i + 1])
    ensures log[i].id in m ==> Closes(m, log[..i + 1]) == CloseOne(Closes(m, log[..i]), log[i])
  {
    assert log[..i + 1] == log[..i] + [log[i]];
  }

  lemma SettlesSnoc(m: Views, log: seq<Event>, i: nat)
    requires i < |log| && Known(m, log[..i])
    ensures log[i].id in m <==> Known(m, log[..i + 1])
    ensures log[i].id in m ==> Settles(m, log[..i + 1]) == SettleOne(Settles(m, log[..i]), log[i])
  {
    assert log[..i + 1] == log[..i] + [log[i]];
  }

  class Client {
    const signer: Signer
    var channels: seq<SenderChannel>
    /** The channels held, by id. */
    ghost var held: Directory

    ghost predicate Valid()
      reads this, held.Values
    {
      && Filed(held)
      && (forall c :: c in channels ==> c in held.Values)
      && (forall c :: c in held.Values ==> c in channels)
      && (forall c :: c in held.Values ==> c.signer == signer)
    }

    constructor (signer: Signer)
      ensures Valid() && this.signer == signer && held == map[]
    {
      this.signer, channels, held := signer, [], map[];
    }

    /** The loop over the channels held locally. */
    method FileChannels() returns (dir: Directory)
      requires Valid()
      ensures dir == held
    {
      dir := map[];
      for i := 0 to |channels|
        invariant forall id :: id in dir ==> id in held && dir[id] == held[id]
        invariant forall id :: id in held && held[id] in channels[..i] ==> id in dir
      {
        var c := channels[i];
        assert c in channels;
        ghost var id :| id in held && held[id] == c;
        assert held[id].receiver == id.receiver;
        assert channels[..i + 1] == channels[..i] + [c];
        dir := dir[ChannelId(c.receiver, c.block) := c];
        forall other | other in held && held[other] in channels[..i + 1]
          ensures other in dir
        {
          assert held[other].receiver == other.receiver;
        }
      }
      assert channels[..|channels|] == channels;
      forall id | id in held
        ensures id in dir
      {
        assert held[id] in held.Values;
      }
    }

    method OnCreated(dir: Directory, e: Event) returns (dir': Directory)
      requires Filed(dir)
      modifies dir.Values
      ensures Filed(dir') && ViewsOf(dir') == CreateOne(old(ViewsOf(dir)), e)
      ensures forall c :: c in dir'.Values ==> c in dir.Values || (fresh(c) && c.signer == signer)
    {
      if e.id in dir {
        dir' := dir;
        dir[e.id].deposit := e.amount;
      } else {
        var c := new SenderChannel(signer, e.id.receiver, e.id.block, e.amount, 0, Open);
        dir' := dir[e.id := c];
      }
    }

    method OnToppedUp(dir: Directory, e: Event) returns (found: bool)
      requires Filed(dir)
      modifies dir.Values
      ensures found <==> e.id in dir
      ensures Filed(dir) && ViewsOf(dir) == if found then TopupOne(old(ViewsOf(dir)), e) else old(ViewsOf(dir))
    {
      if e.id !in dir {
        return false;
      }
      dir[e.id].deposit := dir[e.id].deposit + e.amount;
      return true;
    }

    method OnCloseRequested(dir: Directory, e: Event) returns (found: bool)
      requires Filed(dir)
      modifies dir.Values
      ensures found <==> e.id in dir
      ensures Filed(dir) && ViewsOf(dir) == if found then CloseOne(old(ViewsOf(dir)), e) else old(ViewsOf(dir))
    {
      if e.id !in dir {
        return false;
      }
      dir[e.id].UpdateBalance(e.amount);
      dir[e.id].state := Settling;
      return true;
    }

    method OnSettled(dir: Directory, e: Event) returns (found: bool)
      requires Filed(dir)
      modifies dir.Values
      ensures found <==> e.id in dir
      ensures Filed(dir) && ViewsOf(dir) == if found then SettleOne(old(ViewsOf(dir)), e) else old(ViewsOf(dir))
    {
      if e.id !in dir {
        return false;
      }
      dir[e.id].state := Closed;
      return true;
    }

    method CreateAll(dir: Directory, log: seq<Event>) returns (dir': Directory)
      requires Filed(dir)
      modifies dir.Values
      ensures Filed(dir') && ViewsOf(dir') == Creates(old(ViewsOf(dir)), log)
      ensures forall c :: c in dir'.Values ==> c in dir.Values || (fresh(c) && c.signer == signer)
    {
      ghost var m := ViewsOf(dir);
      dir' := dir;
      for i := 0 to |log|
        invariant Filed(dir') && ViewsOf(dir') == Creates(m, log[..i])
        invariant forall c :: c in dir'.Values ==> c in dir.Values || (fresh(c) && c.signer == signer)
      {
        assert log[..i + 1][..i] == log[..i];
        dir' := OnCreated(dir', log[i]);
      }
      assert log[..|log|] == log;
    }

    method TopupAll(dir: Directory, log: seq<Event>) returns (ok: bool)
      requires Filed(dir)
      modifies dir.Values
      ensures ok <==> Known(old(ViewsOf(dir)), log)
      ensures Filed(dir) && (ok ==> ViewsOf(dir) == Topups(old(ViewsOf(dir)), log))
    {
      ghost var m := ViewsOf(dir);
      for i := 0 to |log|
        invariant Filed(dir) && Known(m, log[..i])
        invariant ViewsOf(dir) == Topups(m, log[..i])
      {
        TopupsSnoc(m, log, i);
        var found := OnToppedUp(dir, log[i]);
        if !found {
          assert log[i] in log;
          return false;
        }
      }
      assert log[..|log|] == log;
      return true;
    }

    method CloseAll(dir: Directory, log: seq<Event>) returns (ok: bool)
      requires Filed(dir)
      modifies dir.Values
      ensures ok <==> Known(old(ViewsOf(dir)), log)
      ensures Filed(dir) && (ok ==> ViewsOf(dir) == Closes(old(ViewsOf(dir)), log))
    {
      ghost var m := ViewsOf(dir);
      for i := 0 to |log|
        invariant Filed(dir) && Known(m, log[..i])
        invariant ViewsOf(dir) == Closes(m, log[..i])
      {
        ClosesSnoc(m, log, i);
        var found := OnCloseRequested(dir, log[i]);
        if !found {
          assert log[i] in log;
          return false;
        }
      }
      assert log[..|log|] == log;
      return true;
    }

    method SettleAll(dir: Directory, log: seq<Event>) returns (ok: bool)
      requires Filed(dir)
      modifies dir.Values
      ensures ok <==> Known(old(ViewsOf(dir)), log)
      ensures Filed(dir) && (ok ==> ViewsOf(dir) == Settles(old(ViewsOf(dir)), log))
    {
      ghost var m := ViewsOf(dir);
      for i := 0 to |log|
        invariant Filed(dir) && Known(m, log[..i])
        invariant ViewsOf(dir) == Settles(m, log[..i])
      {
        SettlesSnoc(m, log, i);
        var found := OnSettled(dir, log[i]);
        if !found {
          assert log[i] in log;
          return false;
        }
      }
      assert log[..|log|] == log;
      return true;
    }

    /** Keeps the channels that are not closed. */
    method Collect(dir: Directory) returns (kept: seq<SenderChannel>)
      requires Filed(dir)
      ensures forall i :: 0 <= i < |kept| ==> kept[i] in dir.Values && kept[i].state != Closed
      ensures forall id :: id in dir && dir[id].state != Closed ==> dir[id] in kept
      ensures forall i, j :: 0 <= i < j < |kept| ==> kept[i] != kept[j]
    {
      kept := [];
      var todo := dir.Keys;
      while todo != {}
        invariant todo <= dir.Keys
        invariant forall i :: 0 <= i < |kept| ==> kept[i] in dir.Values && kept[i].state != Closed
        invariant forall id :: id in dir && id !in todo && dir[id].state != Closed ==> dir[id] in kept
        invariant forall id :: id in todo ==> dir[id] !in kept
        invariant forall i, j :: 0 <= i < j < |kept| ==> kept[i] != kept[j]
        decreases |todo|
      {
        var id :| id in todo;
        if dir[id].state != Closed {
          kept := kept + [dir[id]];
        }
        todo := todo - {id};
      }
    }

    /** The four loops over the logs. */
    method MergeLogs(dir: Directory, logs: SenderLogs) returns (all: Directory, ok: bool)
      requires Filed(dir)
      modifies dir.Values
      ensures forall c :: c in all.Values ==> c in dir.Values || (fresh(c) && c.signer == signer)
      ensures ok <==> Referenced(old(ViewsOf(dir)), logs)
      ensures Filed(all) && (ok ==> Forget(ViewsOf(all)) == Sync(old(ViewsOf(dir)), logs))
    {
      ghost var m := ViewsOf(dir);
      all := CreateAll(dir, logs.created);
      ghost var c := Creates(m, logs.created);
      ok := TopupAll(all, logs.toppedUp);
      if !ok { return; }
      ghost var t := Topups(c, logs.toppedUp);
      assert Known(t, logs.closeRequested) <==> Known(c, logs.closeRequested);
      ok := CloseAll(all, logs.closeRequested);
      if !ok { return; }
      ghost var d := Closes(t, logs.closeRequested);
      assert Known(d, logs.settled) <==> Known(c, logs.settled);
      ok := SettleAll(all, logs.settled);
    }

    /** Replaces the list of channels; the channels themselves stay as they are. */
    method SetChannels(kept: seq<SenderChannel>, ghost part: Directory)
      requires Filed(part) && forall c :: c in part.Values ==> c.signer == signer
      requires forall c :: c in kept ==> c in part.Values
      requires forall c :: c in part.Values ==> c in kept
      modifies this`channels, this`held
      ensures Valid() && held == part && ViewsOf(held) == old(ViewsOf(part))
    {
      channels, held := kept, part;
    }

    /** Merges the local channels with the logs. It fails on an event of an unknown channel. */
    method SyncChannels(logs: SenderLogs) returns (ok: bool)
      requires Valid()
      modifies this, held.Values
      ensures ok <==> Referenced(old(ViewsOf(held)), logs)
      ensures ok ==> Valid() && ViewsOf(held) == Sync(old(ViewsOf(held)), logs)
    {
      var dir := FileChannels();
      var all;
      all, ok := MergeLogs(dir, logs);
      if ok {
        var kept := Collect(all);
        NotClosedPart(all, kept);
        SetChannels(kept, NotClosed(all));
      }
    }

    /** The remaining capacity. */
    static ghost function Room(c: SenderChannel): int
      reads c
    {
      c.deposit - c.balance
    }

    /** Only the one channel, if any, differs from before. */
    twostate predicate OthersKept(before: Directory, new c: SenderChannel?)
      reads before.Values
    {
      forall d {:trigger d.View()} :: d in before.Values && d != c ==> d.View() == old(d.View())
    }

    /** No channel to the receiver is held yet that was created in that block, as the contract demands. */
    static predicate IsNew(held: Directory, receiver: Address, createdIn: Option<nat>) {
      createdIn.Some? ==> ChannelId(receiver, createdIn.value) !in held
    }

    ghost predicate IsOpenTo(c: SenderChannel, receiver: Address)
      reads c
    {
      c.state == Open && c.receiver == receiver
    }

    /** The open channels to the receiver. */
    method GetOpenChannels(receiver: Address) returns (found: seq<SenderChannel>)
      ensures forall c :: c in found <==> c in channels && IsOpenTo(c, receiver)
    {
      found := [];
      for i := 0 to |channels|
        invariant forall c :: c in found <==> c in channels[..i] && IsOpenTo(c, receiver)
      {
        assert channels[..i + 1] == channels[..i] + [channels[i]];
        if channels[i].receiver == receiver && channels[i].state == Open {
          found := found + [channels[i]];
        }
      }
      assert channels[..|channels|] == channels;
    }

    /** The first channel of least (most) remaining capacity. */
    method PickByCapacity(cs: seq<SenderChannel>, most: bool) returns (c: SenderChannel)
      requires cs != []
      ensures c in cs
      ensures forall d :: d in cs ==>
                if most then d.deposit - d.balance <= c.deposit - c.balance else c.deposit - c.balance <= d.deposit - d.balance
    {
      c := cs[0];
      for i := 1 to |cs|
        invariant c in cs
        invariant forall j :: 0 <= j < i ==>
                    if most then cs[j].deposit - cs[j].balance <= c.deposit - c.balance
                    else c.deposit - c.balance <= cs[j].deposit - cs[j].balance
      {
        var capacity, best := cs[i].deposit - cs[i].balance, c.deposit - c.balance;
        if (most && best < capacity) || (!most && capacity < best) {
          c := cs[i];
        }
      }
    }

    /** A channel that can carry the value: the tightest suitable one as it is, otherwise the roomiest open one
        topped up so that its remaining capacity is exactly the larger of the value and topup, otherwise a new
        one with the larger of the value and initial as deposit. */
    method GetSuitableChannel(receiver: Address, value: nat, initial: nat, topup: nat,
                              tokens: nat, confirmed: bool, createdIn: Option<nat>)
      returns (c: SenderChannel?)
      requires Valid() && (value > 0 || initial > 0)
      modifies this, held.Values
      ensures OthersKept(old(held), c) && (IsNew(old(held), receiver, createdIn) ==> Valid())
      ensures c != null ==> c.Valid() && c in channels && IsOpenTo(c, receiver) && Suitable(c.View(), value)
      ensures (exists d :: d in old(channels) && old(IsOpenTo(d, receiver) && Suitable(d.View(), value))) ==>
                && c != null && channels == old(channels) && OthersKept(old(held), null)
                && (forall d :: d in channels && IsOpenTo(d, receiver) && Suitable(d.View(), value) ==> Room(c) <= Room(d))
      ensures c != null && fresh(c) ==>
                && (forall d :: d in old(channels) ==> !old(IsOpenTo(d, receiver)))
                && channels == old(channels) + [c] && c.View() == SenderView(Max(value, initial), 0, Open, {0})
      ensures c != null && !fresh(c) ==>
                && channels == old(channels) && c in channels && old(IsOpenTo(c, receiver))
                && c.View() == old(c.View()).(deposit := c.deposit)
                && (c.deposit != old(c.deposit) ==>
                      && Room(c) == Max(value, topup)
                      && forall d :: d in channels && old(IsOpenTo(d, receiver)) ==> old(Room(d)) <= old(Room(c)))
    {
      var candidates := GetOpenChannels(receiver);
      var suitable := [];
      for i := 0 to |candidates|
        invariant forall d :: d in suitable <==> d in candidates[..i] && Suitable(d.View(), value)
      {
        assert candidates[..i + 1] == candidates[..i] + [candidates[i]];
        if candidates[i].deposit - candidates[i].balance >= value {
          suitable := suitable + [candidates[i]];
        }
      }
      assert candidates[..|candidates|] == candidates;
      if suitable != [] {
        c := PickByCapacity(suitable, false);
      } else {
        c := FundChannel(candidates, receiver, value, initial, topup, tokens, confirmed, createdIn);
      }
    }

    /** Tops up the roomiest candidate, or opens a new channel when there is none; no result exactly when that
        fails. */
    method FundChannel(candidates: seq<SenderChannel>, receiver: Address, value: nat, initial: nat, topup: nat,
                       tokens: nat, confirmed: bool, createdIn: Option<nat>)
      returns (c: SenderChannel?)
      requires Valid() && (value > 0 || initial > 0)
      requires forall d :: d in candidates ==> d in channels && IsOpenTo(d, receiver) && !Suitable(d.View(), value)
      modifies this, held.Values
      ensures OthersKept(old(held), c) && (IsNew(old(held), receiver, createdIn) ==> Valid())
      ensures c != null ==> c.Valid() && c in channels && IsOpenTo(c, receiver) && Suitable(c.View(), value)
      ensures candidates == [] ==>
                && (c == null <==> tokens < Max(value, initial) || createdIn.None?)
                && (c != null ==> fresh(c) && channels == old(channels) + [c] && c.View() == SenderView(Max(value, initial), 0, Open, {0}))
      ensures candidates != [] ==> channels == old(channels) && held == old(held)
      ensures candidates != [] && c == null ==>
                !confirmed || forall d :: d in candidates ==> tokens < Max(value, topup) - Room(d)
      ensures candidates != [] && c != null ==>
                && c in candidates && c.View() == old(c.View()).(deposit := c.deposit) && Room(c) == Max(value, topup)
                && confirmed && Max(value, topup) - old(Room(c)) <= tokens
                && forall d :: d in candidates ==> old(Room(d)) <= old(Room(c))
    {
      if candidates != [] {
        var roomiest := PickByCapacity(candidates, true);
        var amount := Max(value, topup) - (roomiest.deposit - roomiest.balance);
        var done := roomiest.TopUp(amount, tokens, confirmed);
        c := if done then roomiest else null;
      } else {
        var deposit := Max(value, initial);
        if tokens < deposit || createdIn.None? {
          return null;
        }
        c := new SenderChannel(signer, receiver, createdIn.value, deposit, 0, Open);
        ghost var longer := held[ChannelId(receiver, createdIn.value) := c];
        forall d | d in held.Values && IsNew(held, receiver, createdIn)
          ensures d in longer.Values
        {
          var id :| id in held && held[id] == d;
          assert longer[id] == d;
        }
        channels, held := channels + [c], longer;
        assert held[ChannelId(receiver, createdIn.value)] == c;
      }
    }
  }
}
