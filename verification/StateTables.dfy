/** The SQLite tables behind the channel manager, and the proof that they implement a plain map from
    (sender, open block) to channels. Rows of `topups` point at rowids of `channels`; no statement
    cascades, so rewriting or deleting a channel row leaves its old top-up rows behind. */
module StateTables {
  import opened Wrappers
  import opened ReceiverChannel
  import opened ReceiverSpec

  type BlockHash = string

  /** One row of the `channels` table. */
  datatype Row = Row(
    key: Key,
    deposit: int,
    balance: int,
    lastSignature: Option<Signature>,
    settleTimeout: int,
    state: ChannelState,
    confirmed: bool)

  /** The `channels` table, by rowid. */
  type Rows = map<nat, Row>

  /** The `topups` table, its rows grouped by channel_rowid. */
  type TopupRows = map<nat, map<TxHash, nat>>

  function RowOf(c: Channel): Row {
    Row(c.key, c.deposit, c.balance, c.lastSignature, c.settleTimeout, c.state, c.confirmed)
  }

  function ResultToChannel(row: Row, topups: map<TxHash, nat>): Channel {
    Channel(row.key, row.deposit, row.balance, row.state, row.lastSignature, row.settleTimeout, row.confirmed, topups)
  }

  function UnconfirmedTopups(topups: TopupRows, rowid: nat): map<TxHash, nat> {
    if rowid in topups then topups[rowid] else map[]
  }

  function ChannelAt(rows: Rows, topups: TopupRows, id: nat): Channel
    requires id in rows
  {
    ResultToChannel(rows[id], UnconfirmedTopups(topups, id))
  }

  /** The tables stand for the map cs, and index is the unique index of PRIMARY KEY (sender, open_block_number). */
  ghost predicate Represents(rows: Rows, topups: TopupRows, index: map<Key, nat>, cs: Channels) {
    && index.Keys == cs.Keys
    && (forall k {:trigger index[k]} :: k in index ==>
          && k.openBlock > 0
          && index[k] in rows && rows[index[k]].key == k
          && cs[k] == ChannelAt(rows, topups, index[k]))
    && (forall id {:trigger rows[id]} :: id in rows ==> rows[id].key in index && index[rows[id].key] == id)
  }

  /** The rows determine the map. */
  lemma RepresentsOneMap(rows: Rows, topups: TopupRows, index: map<Key, nat>, cs: Channels, index': map<Key, nat>,
                         cs': Channels)
    requires Represents(rows, topups, index, cs) && Represents(rows, topups, index', cs')
    ensures cs == cs'
  {
    forall k | k in cs || k in cs'
      ensures k in cs && k in cs' && cs[k] == cs'[k]
    {
      var id := if k in cs then index[k] else index'[k];
      assert rows[id].key == k;
      assert index[k] == id && index'[k] == id;
    }
  }

  // The statements

  function InsertOrReplace(rows: Rows, row: Row, rowid: nat): Rows {
    (map id | id in rows && rows[id].key != row.key :: rows[id])[rowid := row]
  }

  /** Storing a channel changes exactly its own entry, for every rowid the database may assign and whatever
      stale top-up rows that rowid still has. */
  lemma AddChannelRefines(rows: Rows, topups: TopupRows, index: map<Key, nat>, cs: Channels, c: Channel, rowid: nat)
    requires Represents(rows, topups, index, cs) && rowid !in rows && c.key.openBlock > 0
    ensures Represents(InsertOrReplace(rows, RowOf(c), rowid), topups[rowid := c.topups],
                       index[c.key := rowid], cs[c.key := c])
  {
    var rows', index' := InsertOrReplace(rows, RowOf(c), rowid), index[c.key := rowid];
    forall k | k in index'
      ensures index'[k] in rows' && rows'[index'[k]].key == k
    {
      if k != c.key {
        assert rows[index[k]].key == k;
      }
    }
    forall id | id in rows'
      ensures rows'[id].key in index' && index'[rows'[id].key] == id
    {
      if id != rowid {
        assert rows'[id] == rows[id];
      }
    }
  }

  function KeysOf(rows: Rows, ids: set<nat>): set<Key>
    requires ids <= rows.Keys
  {
    set id | id in ids :: rows[id].key
  }

  /** Deleting channel rows removes exactly their channels, although their top-up rows stay behind. */
  lemma DeleteRowsRefines(rows: Rows, topups: TopupRows, index: map<Key, nat>, cs: Channels, gone: set<nat>)
    requires Represents(rows, topups, index, cs) && gone <= rows.Keys
    ensures Represents(rows - gone, topups, index - KeysOf(rows, gone), cs - KeysOf(rows, gone))
  {
    forall k | k in cs {
      KeysOfSelected(rows, topups, index, cs, gone, k);
    }
  }

  /** The part of the represented map found in the rows with the given ids. */
  lemma RowsSelect(rows: Rows, topups: TopupRows, index: map<Key, nat>, cs: Channels, id: nat)
    requires Represents(rows, topups, index, cs) && id in rows
    ensures rows[id].key in cs && cs[rows[id].key] == ChannelAt(rows, topups, id)
  {
    assert index[rows[id].key] == id;
  }

  lemma KeysOfOneMore(rows: Rows, ids: set<nat>, id: nat)
    requires ids <= rows.Keys && id in rows
    ensures KeysOf(rows, ids + {id}) == KeysOf(rows, ids) + {rows[id].key}
  {
  }

  ghost predicate IsPart(part: Channels, cs: Channels) {
    forall k :: k in part ==> k in cs && part[k] == cs[k]
  }

  lemma CollectOneMore(rows: Rows, topups: TopupRows, cs: Channels, part: Channels, ids: set<nat>, id: nat)
    requires ids <= rows.Keys && id in rows && part.Keys == KeysOf(rows, ids) && IsPart(part, cs)
    requires rows[id].key in cs && cs[rows[id].key] == ChannelAt(rows, topups, id)
    ensures var more := part[rows[id].key := ChannelAt(rows, topups, id)];
            more.Keys == KeysOf(rows, ids + {id}) && IsPart(more, cs)
  {
    KeysOfOneMore(rows, ids, id);
  }

  lemma KeysOfSelected(rows: Rows, topups: TopupRows, index: map<Key, nat>, cs: Channels, ids: set<nat>, k: Key)
    requires Represents(rows, topups, index, cs) && ids <= rows.Keys && k in cs
    ensures index[k] in rows && cs[k] == ChannelAt(rows, topups, index[k])
    ensures k in KeysOf(rows, ids) <==> index[k] in ids
  {
    assert rows[index[k]].key == k;
  }

  lemma WithoutUnconfirmed(rows: Rows, topups: TopupRows, index: map<Key, nat>, cs: Channels, gone: set<nat>)
    requires Represents(rows, topups, index, cs) && gone <= rows.Keys
    requires forall id :: id in rows ==> (id in gone <==> !rows[id].confirmed)
    ensures cs - KeysOf(rows, gone) == map k | k in cs && cs[k].confirmed :: cs[k]
  {
    forall k | k in cs
      ensures k in KeysOf(rows, gone) <==> !cs[k].confirmed
    {
      KeysOfSelected(rows, topups, index, cs, gone, k);
    }
  }

  /** Why storing a channel must first delete the top-up rows of the rowid it was given: the database reuses
      the rowid of a deleted last row, and without that deletion a new channel b would read the top-ups of
      the channel a that had the rowid before. */
  lemma RowidReuseMeetsOrphans(a: Channel, b: Channel)
    requires a.key.openBlock > 0 && b.key.openBlock > 0
    ensures var rows := InsertOrReplace(map[], RowOf(a), 1);
            var orphaned: TopupRows := map[1 := a.topups];
            && Represents(rows, orphaned, map[a.key := 1], map[a.key := a])
            && Represents(rows - {1}, orphaned, map[], map[])
            && Represents(InsertOrReplace(rows - {1}, RowOf(b), 1), orphaned,
                          map[b.key := 1], map[b.key := b.(topups := a.topups)])
            && Represents(InsertOrReplace(rows - {1}, RowOf(b), 1), orphaned[1 := b.topups],
                          map[b.key := 1], map[b.key := b])
  {
    var rows := InsertOrReplace(map[], RowOf(a), 1);
    assert rows - {1} == map[];
    var again := InsertOrReplace(rows - {1}, RowOf(b), 1);
    assert again == map[1 := RowOf(b)];
  }

  /** The persistent part of the channel manager. */
  class ChannelManagerState {
    var rows: Rows
    var topups: TopupRows
    var confirmedHeadNumber: Option<nat>
    var confirmedHeadHash: Option<BlockHash>
    var unconfirmedHeadNumber: Option<nat>
    var unconfirmedHeadHash: Option<BlockHash>

    /** The stored channels, confirmed or not. */
    ghost var contents: Channels
    ghost var index: map<Key, nat>

    ghost predicate Valid()
      reads this`rows, this`topups, this`contents, this`index
    {
      Represents(rows, topups, index, contents)
    }

    lemma StoredUnderOwnKey(k: Key)
      requires Valid() && k in contents
      ensures contents[k].key == k && k.openBlock > 0
    {
      assert index[k] in rows;
    }

    constructor ()
      ensures Valid() && contents == map[]
      ensures confirmedHeadNumber.None? && unconfirmedHeadNumber.None?
      ensures confirmedHeadHash.None? && unconfirmedHeadHash.None?
    {
      rows, topups, contents, index := map[], map[], map[], map[];
      confirmedHeadNumber, confirmedHeadHash := None, None;
      unconfirmedHeadNumber, unconfirmedHeadHash := None, None;
    }

    /** Writes the given components; the others keep their value. */
    method UpdateSyncState(confirmedNumber: Option<nat>, confirmedHash: Option<BlockHash>,
                           unconfirmedNumber: Option<nat>, unconfirmedHash: Option<BlockHash>)
      modifies this`confirmedHeadNumber, this`confirmedHeadHash, this`unconfirmedHeadNumber, this`unconfirmedHeadHash
      ensures confirmedHeadNumber == (if confirmedNumber.Some? then confirmedNumber else old(confirmedHeadNumber))
      ensures confirmedHeadHash == (if confirmedHash.Some? then confirmedHash else old(confirmedHeadHash))
      ensures unconfirmedHeadNumber == (if unconfirmedNumber.Some? then unconfirmedNumber else old(unconfirmedHeadNumber))
      ensures unconfirmedHeadHash == (if unconfirmedHash.Some? then unconfirmedHash else old(unconfirmedHeadHash))
      ensures old(Valid()) ==> Valid()
    {
      if confirmedNumber.Some? { confirmedHeadNumber := confirmedNumber; }
      if confirmedHash.Some? { confirmedHeadHash := confirmedHash; }
      if unconfirmedNumber.Some? { unconfirmedHeadNumber := unconfirmedNumber; }
      if unconfirmedHash.Some? { unconfirmedHeadHash := unconfirmedHash; }
    }

    /** The rowid SQLite assigns to the next insertion: one more than the largest in use. */
    method NextRowid() returns (rowid: nat)
      ensures rowid !in rows
      ensures forall id :: id in rows ==> id < rowid
    {
      rowid := 1;
      var todo := rows.Keys;
      while todo != {}
        invariant todo <= rows.Keys
        invariant forall id :: id in rows && id !in todo ==> id < rowid
        decreases |todo|
      {
        var id :| id in todo;
        if id >= rowid { rowid := id + 1; }
        todo := todo - {id};
      }
    }

    method GetChannelRowid(k: Key) returns (rowid: nat)
      requires exists id :: id in rows && rows[id].key == k
      ensures rowid in rows && rows[rowid].key == k
    {
      rowid :| rowid in rows && rows[rowid].key == k;
    }

    method SetUnconfirmedTopups(rowid: nat, added: map<TxHash, nat>)
      modifies this`topups
      ensures topups == old(topups)[rowid := added]
    {
      topups := topups[rowid := map[]];
      var todo := added.Keys;
      assert added - todo == map[];
      while todo != {}
        invariant todo <= added.Keys
        invariant topups == old(topups)[rowid := added - todo]
        decreases |todo|
      {
        var tx :| tx in todo;
        topups := topups[rowid := topups[rowid][tx := added[tx]]];
        todo := todo - {tx};
        assert topups[rowid] == added - todo;
      }
      assert added - {} == added;
    }

    method AddChannel(c: Channel)
      requires Valid() && c.key.openBlock > 0
      modifies this`rows, this`topups, this`contents, this`index
      ensures Valid() && contents == old(contents)[c.key := c]
    {
      var next := NextRowid();
      AddChannelRefines(rows, topups, index, contents, c, next);
      rows := InsertOrReplace(rows, RowOf(c), next);
      index, contents := index[c.key := next], contents[c.key := c];
      assert rows[next].key == c.key;
      var rowid := GetChannelRowid(c.key);
      SetUnconfirmedTopups(rowid, c.topups);
    }

    /** Builds the dictionary of the channels in the given rows. */
    method ResultsToChannels(ids: set<nat>) returns (cs: Channels)
      requires ids <= rows.Keys
      requires forall id :: id in ids ==> rows[id].key in contents && contents[rows[id].key] == ChannelAt(rows, topups, id)
      ensures cs.Keys == KeysOf(rows, ids) && IsPart(cs, contents)
    {
      cs := map[];
      var todo := ids;
      ghost var done := {};
      while todo != {}
        invariant done + todo == ids
        invariant cs.Keys == KeysOf(rows, done) && IsPart(cs, contents)
        decreases |todo|
      {
        var id :| id in todo;
        CollectOneMore(rows, topups, contents, cs, done, id);
        assert done + {id} + (todo - {id}) == ids;
        cs := cs[rows[id].key := ChannelAt(rows, topups, id)];
        todo, done := todo - {id}, done + {id};
      }
    }

    method GetChannels(confirmed: bool) returns (cs: Channels)
      requires Valid()
      ensures forall k :: k in cs <==> k in contents && contents[k].confirmed == confirmed
      ensures forall k :: k in cs ==> cs[k] == contents[k]
    {
      var ids := set id | id in rows && rows[id].confirmed == confirmed;
      forall id | id in ids {
        RowsSelect(rows, topups, index, contents, id);
      }
      cs := ResultsToChannels(ids);
      forall k | k in contents {
        KeysOfSelected(rows, topups, index, contents, ids, k);
      }
    }

    method PendingChannels() returns (cs: Channels)
      requires Valid()
      ensures forall k :: k in cs <==> k in contents && contents[k].state == CLOSE_PENDING
      ensures forall k :: k in cs ==> cs[k] == contents[k]
    {
      var ids := set id | id in rows && rows[id].state == CLOSE_PENDING;
      forall id | id in ids {
        RowsSelect(rows, topups, index, contents, id);
      }
      cs := ResultsToChannels(ids);
      forall k | k in contents {
        KeysOfSelected(rows, topups, index, contents, ids, k);
      }
    }

    method ChannelExists(k: Key) returns (exist: bool)
      requires Valid()
      ensures exist <==> k in contents
    {
      exist := exists id :: id in rows && rows[id].key == k;
      assert k in index ==> rows[index[k]].key == k;
    }

    method DelChannel(k: Key)
      requires Valid() && k.openBlock > 0 && k in contents
      modifies this`rows, this`contents, this`index
      ensures Valid() && contents == old(contents) - {k}
    {
      var gone := set id | id in rows && rows[id].key == k;
      DeleteRowsRefines(rows, topups, index, contents, gone);
      KeysOfSelected(rows, topups, index, contents, gone, k);
      assert KeysOf(rows, gone) == {k};
      rows, index, contents := rows - gone, index - {k}, contents - {k};
    }

    method DelUnconfirmedChannels()
      requires Valid()
      modifies this`rows, this`contents, this`index
      ensures Valid()
      ensures contents == map k | k in old(contents) && old(contents)[k].confirmed :: old(contents)[k]
    {
      var gone := set id | id in rows && !rows[id].confirmed;
      DeleteRowsRefines(rows, topups, index, contents, gone);
      WithoutUnconfirmed(rows, topups, index, contents, gone);
      ghost var keys := KeysOf(rows, gone);
      rows, index, contents := rows - gone, index - keys, contents - keys;
    }
  }
}
