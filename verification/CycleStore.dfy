/**
 * The tables behind a match-id cycle: the match ids and player keys of each run and the anchors that
 * name runs. A command that reports an error may nevertheless have taken effect.
 */
module CycleStore {
  import opened Crawl
  import opened Results
  import opened Sequences

  datatype Pair = Pair(id: string, queueType: string)

  datatype IdRow = IdRow(run: nat, pair: Pair)

  datatype KeyRow = KeyRow(run: nat, key: PlayerKey)

  datatype Anchor = Anchor(run: nat, storedAt: int)

  datatype Snapshot = Snapshot(ids: seq<IdRow>, keys: seq<KeyRow>, anchors: seq<Anchor>)

  function IdRows(run: nat, pairs: seq<Pair>): seq<IdRow> {
    seq(|pairs|, i requires 0 <= i < |pairs| => IdRow(run, pairs[i]))
  }

  function KeyRows(run: nat, keys: seq<PlayerKey>): seq<KeyRow> {
    seq(|keys|, i requires 0 <= i < |keys| => KeyRow(run, keys[i]))
  }

  function OtherIds(run: nat): IdRow -> bool { (r: IdRow) => r.run != run }
  function OtherKeys(run: nat): KeyRow -> bool { (r: KeyRow) => r.run != run }
  function OtherAnchors(run: nat): Anchor -> bool { (a: Anchor) => a.run != run }
  function OwnIds(run: nat): IdRow -> bool { (r: IdRow) => r.run == run }
  function OwnKeys(run: nat): KeyRow -> bool { (r: KeyRow) => r.run == run }
  function OwnAnchors(run: nat): Anchor -> bool { (a: Anchor) => a.run == run }

  /** The database; `trace` records its state after every command sent, `faults` counts those that report an error. */
  class Database {
    var ids: seq<IdRow>
    var keys: seq<KeyRow>
    var anchors: seq<Anchor>
    ghost var faults: nat
    ghost var trace: seq<Snapshot>

    ghost function Now(): Snapshot
      reads this
    {
      Snapshot(ids, keys, anchors)
    }

    /** One batch of match ids. */
    method InsertIds(rows: seq<IdRow>) returns (ok: bool)
      modifies this
      ensures ids == old(ids) + rows || (!ok && ids == old(ids))
      ensures keys == old(keys) && anchors == old(anchors)
      ensures trace == old(trace) + [Now()] && faults == old(faults) + if ok then 0 else 1
    {
      var applied: bool := *;
      var reported: bool := *;
      if applied {
        ids := ids + rows;
      }
      ok := applied && reported;
      faults := faults + if ok then 0 else 1;
      trace := trace + [Now()];
    }

    /** One batch of player keys. */
    method InsertKeys(rows: seq<KeyRow>) returns (ok: bool)
      modifies this
      ensures keys == old(keys) + rows || (!ok && keys == old(keys))
      ensures ids == old(ids) && anchors == old(anchors)
      ensures trace == old(trace) + [Now()] && faults == old(faults) + if ok then 0 else 1
    {
      var applied: bool := *;
      var reported: bool := *;
      if applied {
        keys := keys + rows;
      }
      ok := applied && reported;
      faults := faults + if ok then 0 else 1;
      trace := trace + [Now()];
    }

    /** `upsert_puuid_timestamp`. */
    method InsertAnchor(anchor: Anchor) returns (ok: bool)
      modifies this
      ensures anchors == old(anchors) + [anchor] || (!ok && anchors == old(anchors))
      ensures ids == old(ids) && keys == old(keys)
      ensures trace == old(trace) + [Now()] && faults == old(faults) + if ok then 0 else 1
    {
      var applied: bool := *;
      var reported: bool := *;
      if applied {
        anchors := anchors + [anchor];
      }
      ok := applied && reported;
      faults := faults + if ok then 0 else 1;
      trace := trace + [Now()];
    }

    /** `delete_failed_puuid_timestamp`. */
    method DeleteAnchor(run: nat) returns (ok: bool)
      modifies this
      ensures anchors == Filter(old(anchors), OtherAnchors(run)) || (!ok && anchors == old(anchors))
      ensures ids == old(ids) && keys == old(keys)
      ensures trace == old(trace) + [Now()] && faults == old(faults) + if ok then 0 else 1
    {
      var applied: bool := *;
      var reported: bool := *;
      if applied {
        anchors := Filter(anchors, OtherAnchors(run));
      }
      ok := applied && reported;
      faults := faults + if ok then 0 else 1;
      trace := trace + [Now()];
    }

    /** `delete_old_puuid_timestamps`. */
    method DeleteOtherAnchors(run: nat) returns (ok: bool)
      modifies this
      ensures anchors == Filter(old(anchors), OwnAnchors(run)) || (!ok && anchors == old(anchors))
      ensures ids == old(ids) && keys == old(keys)
      ensures trace == old(trace) + [Now()] && faults == old(faults) + if ok then 0 else 1
    {
      var applied: bool := *;
      var reported: bool := *;
      if applied {
        anchors := Filter(anchors, OwnAnchors(run));
      }
      ok := applied && reported;
      faults := faults + if ok then 0 else 1;
      trace := trace + [Now()];
    }

    /** `delete_matchid_puuids`. */
    method DeleteKeys(run: nat) returns (ok: bool)
      modifies this
      ensures keys == Filter(old(keys), OtherKeys(run)) || (!ok && keys == old(keys))
      ensures ids == old(ids) && anchors == old(anchors)
      ensures trace == old(trace) + [Now()] && faults == old(faults) + if ok then 0 else 1
    {
      var applied: bool := *;
      var reported: bool := *;
      if applied {
        keys := Filter(keys, OtherKeys(run));
      }
      ok := applied && reported;
      faults := faults + if ok then 0 else 1;
      trace := trace + [Now()];
    }

    /** `delete_matchids`. */
    method DeleteIds(run: nat) returns (ok: bool)
      modifies this
      ensures ids == Filter(old(ids), OtherIds(run)) || (!ok && ids == old(ids))
      ensures keys == old(keys) && anchors == old(anchors)
      ensures trace == old(trace) + [Now()] && faults == old(faults) + if ok then 0 else 1
    {
      var applied: bool := *;
      var reported: bool := *;
      if applied {
        ids := Filter(ids, OtherIds(run));
      }
      ok := applied && reported;
      faults := faults + if ok then 0 else 1;
      trace := trace + [Now()];
    }
  }
}
