/** The `conversations` table, held in memory: rows in insertion order (which is
    also `created_at` order), identifiers assigned by the store on insert, and
    the selections, orderings and deletions the query chains perform on it. */
module ConversationStore {
  import opened Sequences

  /** One exchange: what the user wrote and what the bot answered. */
  datatype Turn = Turn(userMessage: string, response: string)

  /** One stored row: identifier, partition key (channel, user), the exchange,
      and the `context_summary` snapshot ("" when the writer stores none). */
  datatype Row = Row(id: nat, channel: string, user: string, turn: Turn, summary: string)

  /** Identifiers grow with insertion order, so they are also unique. */
  predicate IdsIncreasing(rows: seq<Row>) {
    forall i, j :: 0 <= i < j < |rows| ==> rows[i].id < rows[j].id
  }

  function InPartition(channel: string, user: string): Row -> bool {
    (r: Row) => r.channel == channel && r.user == user
  }

  function OutsidePartition(channel: string, user: string): Row -> bool {
    (r: Row) => !(r.channel == channel && r.user == user)
  }

  function IdNotIn(ids: set<nat>): Row -> bool {
    (r: Row) => r.id !in ids
  }

  function Turns(rows: seq<Row>): (ts: seq<Turn>)
    ensures |ts| == |rows|
    ensures forall i :: 0 <= i < |rows| ==> ts[i] == rows[i].turn
  {
    seq(|rows|, i requires 0 <= i < |rows| => rows[i].turn)
  }

  function Ids(rows: seq<Row>): (ids: seq<nat>)
    ensures |ids| == |rows|
    ensures forall i :: 0 <= i < |rows| ==> ids[i] == rows[i].id
  {
    seq(|rows|, i requires 0 <= i < |rows| => rows[i].id)
  }

  /** `.eq('channel_id', channel).eq('user_id', user)`, in store order. */
  function Partition(rows: seq<Row>, channel: string, user: string): (p: seq<Row>)
    ensures forall r :: r in p <==> r in rows && r.channel == channel && r.user == user
  {
    Filter(InPartition(channel, user), rows)
  }

  /** `.eq(..).eq(..).order('created_at', desc).limit(limit)` followed by
      `reverse()`: the partition's newest `limit` rows, oldest first. */
  function Window(rows: seq<Row>, channel: string, user: string, limit: nat): (w: seq<Row>)
    ensures w == LastN(Partition(rows, channel, user), limit)
  {
    var p := Partition(rows, channel, user);
    var w := Reverse(Take(Reverse(p), limit));
    assert forall i :: 0 <= i < |w| ==> w[i] == p[|p| - |w| + i];
    w
  }

  /** Identifiers of the partition's rows beyond the `keep` newest:
      `select('id') ... order('created_at', desc)` then `slice(keep)`. */
  function ExcessIds(rows: seq<Row>, channel: string, user: string, keep: nat): set<nat> {
    var newestFirst := Ids(Reverse(Partition(rows, channel, user)));
    set id | id in Drop(newestFirst, keep)
  }

  /** The table after `delete().in('id', ExcessIds)`, issued only when the
      partition holds more than `keep` rows. */
  function Pruned(rows: seq<Row>, channel: string, user: string, keep: nat): (r: seq<Row>)
    ensures |r| <= |rows|
    ensures forall x :: x in r ==> x in rows
    ensures |Partition(rows, channel, user)| <= keep ==> r == rows
  {
    if |Partition(rows, channel, user)| > keep
    then Filter(IdNotIn(ExcessIds(rows, channel, user, keep)), rows)
    else rows
  }

  lemma {:induction false} FilterKeepsIdsIncreasing(p: Row -> bool, rows: seq<Row>)
    requires IdsIncreasing(rows)
    ensures IdsIncreasing(Filter(p, rows))
  {
    if rows != [] {
      FilterKeepsIdsIncreasing(p, rows[1..]);
      var rest := Filter(p, rows[1..]);
      forall r | r in rest ensures rows[0].id < r.id {
        var k :| 1 <= k < |rows| && rows[k] == r;
      }
    }
  }

  lemma DistinctRowsDistinctIds(rows: seq<Row>, x: Row, y: Row)
    requires IdsIncreasing(rows) && x in rows && y in rows && x != y
    ensures x.id != y.id
  {
    var i :| 0 <= i < |rows| && rows[i] == x;
    var j :| 0 <= j < |rows| && rows[j] == y;
  }

  /** Removing exactly the identifiers of the first j rows leaves the rest. */
  lemma {:induction false} FilterIdsDropsPrefix(p: seq<Row>, ids: set<nat>, j: nat)
    requires j <= |p|
    requires forall i :: 0 <= i < j ==> p[i].id in ids
    requires forall i :: j <= i < |p| ==> p[i].id !in ids
    ensures Filter(IdNotIn(ids), p) == p[j..]
  {
    if p != [] {
      FilterIdsDropsPrefix(p[1..], ids, if j == 0 then 0 else j - 1);
      if j == 0 {
        assert p == [p[0]] + p[1..];
      }
    }
  }

  /** The excess identifiers are exactly those of the partition's oldest rows. */
  lemma ExcessIdsAreOldest(rows: seq<Row>, channel: string, user: string, keep: nat, id: nat)
    requires |Partition(rows, channel, user)| > keep
    ensures var p := Partition(rows, channel, user);
            id in ExcessIds(rows, channel, user, keep) <==>
            exists i :: 0 <= i < |p| - keep && p[i].id == id
  {
    var p := Partition(rows, channel, user);
    var d := Drop(Ids(Reverse(p)), keep);
    assert |d| == |p| - keep;
    assert forall m :: 0 <= m < |d| ==> d[m] == p[|p| - 1 - keep - m].id;
    if id in ExcessIds(rows, channel, user, keep) {
      var m :| 0 <= m < |d| && d[m] == id;
      assert p[|p| - 1 - keep - m].id == id;
    }
    if exists i :: 0 <= i < |p| - keep && p[i].id == id {
      var i :| 0 <= i < |p| - keep && p[i].id == id;
      assert d[|p| - 1 - keep - i] == id;
    }
  }

  lemma PartitionIdsIncreasing(rows: seq<Row>, channel: string, user: string)
    requires IdsIncreasing(rows)
    ensures IdsIncreasing(Partition(rows, channel, user))
  {
    FilterKeepsIdsIncreasing(InPartition(channel, user), rows);
  }

  /** Retention: the pruned partition is exactly its `keep` newest rows. */
  lemma PrunedPartition(rows: seq<Row>, channel: string, user: string, keep: nat)
    requires IdsIncreasing(rows)
    ensures Partition(Pruned(rows, channel, user, keep), channel, user) ==
            LastN(Partition(rows, channel, user), keep)
  {
    var p := Partition(rows, channel, user);
    if |p| > keep {
      var ids := ExcessIds(rows, channel, user, keep);
      var j := |p| - keep;
      PartitionIdsIncreasing(rows, channel, user);
      forall i | 0 <= i < j ensures p[i].id in ids {
        ExcessIdsAreOldest(rows, channel, user, keep, p[i].id);
      }
      forall i | j <= i < |p| ensures p[i].id !in ids {
        ExcessIdsAreOldest(rows, channel, user, keep, p[i].id);
      }
      FilterIdsDropsPrefix(p, ids, j);
      FilterCommute(InPartition(channel, user), IdNotIn(ids), rows);
    }
  }

  /** Retention never touches another partition. */
  lemma PrunedOtherPartition(rows: seq<Row>, channel: string, user: string, keep: nat,
                             otherChannel: string, otherUser: string)
    requires IdsIncreasing(rows)
    requires otherChannel != channel || otherUser != user
    ensures Partition(Pruned(rows, channel, user, keep), otherChannel, otherUser) ==
            Partition(rows, otherChannel, otherUser)
  {
    var p := Partition(rows, channel, user);
    if |p| > keep {
      var ids := ExcessIds(rows, channel, user, keep);
      var q := Partition(rows, otherChannel, otherUser);
      forall r | r in q ensures IdNotIn(ids)(r) {
        forall i | 0 <= i < |p| - keep ensures p[i].id != r.id {
          assert p[i] in rows && p[i] != r;
          DistinctRowsDistinctIds(rows, p[i], r);
        }
        ExcessIdsAreOldest(rows, channel, user, keep, r.id);
      }
      FilterKeepsAll(IdNotIn(ids), q);
      FilterCommute(InPartition(otherChannel, otherUser), IdNotIn(ids), rows);
    }
  }

  lemma PrunedIdsIncreasing(rows: seq<Row>, channel: string, user: string, keep: nat)
    requires IdsIncreasing(rows)
    ensures IdsIncreasing(Pruned(rows, channel, user, keep))
  {
    if |Partition(rows, channel, user)| > keep {
      FilterKeepsIdsIncreasing(IdNotIn(ExcessIds(rows, channel, user, keep)), rows);
    }
  }

  /** Pruning twice is pruning once: the second call finds at most `keep` rows. */
  lemma PrunedIdempotent(rows: seq<Row>, channel: string, user: string, keep: nat)
    requires IdsIncreasing(rows)
    ensures Pruned(Pruned(rows, channel, user, keep), channel, user, keep) ==
            Pruned(rows, channel, user, keep)
  {
    PrunedPartition(rows, channel, user, keep);
  }

  lemma LastNNewest(p: seq<Row>, n: nat)
    requires IdsIncreasing(p)
    ensures IdsIncreasing(LastN(p, n))
    ensures forall i, k :: 0 <= i < |p| - |LastN(p, n)| && 0 <= k < |LastN(p, n)| ==>
              p[i].id < LastN(p, n)[k].id
  {
    var w := LastN(p, n);
    var start := |p| - |w|;
    assert forall k :: 0 <= k < |w| ==> w[k] == p[start + k];
  }

  /** The partition's last `limit` rows, stated without unfolding Window. */
  lemma NewestOfPartition(rows: seq<Row>, channel: string, user: string, limit: nat)
    requires IdsIncreasing(rows)
    ensures var w := LastN(Partition(rows, channel, user), limit);
            var p := Partition(rows, channel, user);
            && |w| == Min(limit, |p|)
            && (forall r :: r in w ==> r in rows && r.channel == channel && r.user == user)
            && IdsIncreasing(w)
            && (forall i, k :: 0 <= i < |p| - |w| && 0 <= k < |w| ==> p[i].id < w[k].id)
  {
    var p := Partition(rows, channel, user);
    PartitionIdsIncreasing(rows, channel, user);
    LastNNewest(p, limit);
    assert forall r :: r in LastN(p, limit) ==> r in p;
  }

  /** The window: at most `limit` rows, all of the partition, in store
      (oldest-first) order, and newer than every partition row left out.
      This is `NewestOfPartition` in the membership form its callers use. */
  lemma WindowIsNewestOfPartition(rows: seq<Row>, channel: string, user: string, limit: nat)
    requires IdsIncreasing(rows)
    ensures var w := Window(rows, channel, user, limit);
            var p := Partition(rows, channel, user);
            && |w| == Min(limit, |p|)
            && (forall r :: r in w ==> r in rows && r.channel == channel && r.user == user)
            && IdsIncreasing(w)
            && (forall i, k :: 0 <= i < |p| - |w| && 0 <= k < |w| ==> p[i].id < w[k].id)
  {
    NewestOfPartition(rows, channel, user, limit);
  }

  /** Deleting a partition (`delete().eq('channel_id', c).eq('user_id', u)`)
      empties it and leaves every other partition as it was. */
  lemma ClearedPartition(rows: seq<Row>, channel: string, user: string,
                         otherChannel: string, otherUser: string)
    ensures Partition(Filter(OutsidePartition(channel, user), rows), channel, user) == []
    ensures otherChannel != channel || otherUser != user ==>
              Partition(Filter(OutsidePartition(channel, user), rows), otherChannel, otherUser) ==
              Partition(rows, otherChannel, otherUser)
  {
    var p := Partition(rows, channel, user);
    FilterCommute(InPartition(channel, user), OutsidePartition(channel, user), rows);
    assert forall r :: r in Filter(OutsidePartition(channel, user), p) ==> r in p;
    if otherChannel != channel || otherUser != user {
      FilterKeepsAll(OutsidePartition(channel, user), Partition(rows, otherChannel, otherUser));
      FilterCommute(InPartition(otherChannel, otherUser), OutsidePartition(channel, user), rows);
    }
  }

  /** An insert extends the partition it belongs to at the newest end and
      leaves every other partition as it was. */
  lemma AppendedPartition(rows: seq<Row>, row: Row, channel: string, user: string)
    ensures Partition(rows + [row], channel, user) ==
            Partition(rows, channel, user) +
            (if row.channel == channel && row.user == user then [row] else [])
  {
    FilterConcat(InPartition(channel, user), rows, [row]);
    assert [row][1..] == [];
  }

  /** The store: the rows of `conversations` in insertion order and the next
      identifier the store will assign (identity column starting at 1). */
  class Table {
    var rows: seq<Row>
    var nextId: nat

    ghost predicate Valid()
      reads this
    {
      && IdsIncreasing(rows)
      && nextId >= 1
      && forall r :: r in rows ==> 1 <= r.id < nextId
    }

    constructor ()
      ensures Valid() && rows == [] && nextId == 1
    {
      rows := [];
      nextId := 1;
    }

    /** `insert({...})`: a new row with a fresh identifier at the newest end. */
    method Insert(channel: string, user: string, turn: Turn, summary: string) returns (id: nat)
      requires Valid()
      modifies this
      ensures Valid()
      ensures id == old(nextId) && nextId == old(nextId) + 1
      ensures rows == old(rows) + [Row(id, channel, user, turn, summary)]
    {
      id := nextId;
      rows := rows + [Row(id, channel, user, turn, summary)];
      nextId := nextId + 1;
    }

    /** `delete()` with a filter: keeps exactly the rows `keep` accepts. */
    method DeleteWhere(keep: Row -> bool)
      requires Valid()
      modifies this
      ensures Valid() && nextId == old(nextId)
      ensures rows == Filter(keep, old(rows))
    {
      FilterKeepsIdsIncreasing(keep, rows);
      rows := Filter(keep, rows);
    }
  }
}
