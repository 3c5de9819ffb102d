/** The push relay's registration table. `day` is the UTC day index of the daily counter,
    absent until the first send. */
module NotifyStore {
  import opened Prelude

  type Handle = string

  datatype Row = Row(
    platform: string, token: string, createdAt: int, lastSend: Option<int>,
    day: Option<int>, sends: nat, pruned: bool)

  type Table = map<Handle, Row>

  /** A known handle is refreshed in place, otherwise the minted one is inserted; inserting
      a handle that is already a key fails. */
  function Registered(t: Table, platform: string, token: string, existing: Option<Handle>,
                      minted: Handle, now: int): (r: (Table, Option<Handle>))
    // a known handle is the one returned; every row but the returned handle's is untouched
    ensures existing.Some? && existing.value in t ==> r.1 == existing
    ensures !(existing.Some? && existing.value in t) ==> r.1 == if minted in t then None else Some(minted)
    ensures forall h :: h in t && r.1 != Some(h) ==> h in r.0 && r.0[h] == t[h]
    // and no daily counter moves
    ensures forall h :: h in t ==> h in r.0 && r.0[h].day == t[h].day && r.0[h].sends == t[h].sends
    ensures forall h :: h in r.0 && h !in t ==> h == minted && r.0[h].day.None?
    // the returned row is live with the new device; its dates stay, or are those of a new row
    ensures r.1.Some? ==>
      && r.1.value in r.0
      && var row := r.0[r.1.value];
         && row.token == token && row.platform == platform && !row.pruned
         && (if r.1.value in t then row.createdAt == t[r.1.value].createdAt && row.lastSend == t[r.1.value].lastSend
             else row.createdAt == now && row.lastSend.None? && row.sends == 0)
  {
    if existing.Some? && existing.value in t then
      var h := existing.value;
      (t[h := t[h].(token := token, platform := platform, pruned := false)], Some(h))
    else if minted in t then (t, None)
    else (t[minted := Row(platform, token, now, None, None, 0, false)], Some(minted))
  }

  /** Bump today's counter, starting over on another day; no row, no effect. */
  function Recorded(t: Table, h: Handle, day: int, now: int): (r: Table)
    ensures r.Keys == t.Keys && forall g :: g in t && g != h ==> r[g] == t[g]
    // the device stays as registered, whatever was recorded for it
    ensures h in t ==> r[h].token == t[h].token && r[h].platform == t[h].platform
                       && r[h].createdAt == t[h].createdAt && r[h].pruned == t[h].pruned
    ensures h in t ==> r[h].lastSend == Some(now) && r[h].day == Some(day) && r[h].sends > 0
  {
    if h !in t then t else
    t[h := t[h].(sends := if t[h].day == Some(day) then t[h].sends + 1 else 1,
                 day := Some(day), lastSend := Some(now))]
  }

  function Pruned(t: Table, h: Handle): (r: Table)
    ensures r.Keys == t.Keys && forall g :: g in t && g != h ==> r[g] == t[g]
    ensures h in t ==> r[h].pruned && r[h].(pruned := t[h].pruned) == t[h]
  {
    if h !in t then t else t[h := t[h].(pruned := true)]
  }

  class Store {
    var rows: Table

    constructor ()
      ensures rows == map[]
    {
      rows := map[];
    }

    method Register(platform: string, token: string, existing: Option<Handle>, minted: Handle, now: int)
        returns (handle: Option<Handle>)
      modifies this
      ensures (rows, handle) == Registered(old(rows), platform, token, existing, minted, now)
    {
      if existing.Some? {
        var h := existing.value;
        if h in rows {
          rows := rows[h := rows[h].(token := token, platform := platform, pruned := false)];
          return Some(h);
        }
      }
      if minted in rows { return None; }
      rows := rows[minted := Row(platform, token, now, None, None, 0, false)];
      handle := Some(minted);
    }

    method Lookup(handle: Handle) returns (row: Option<Row>)
      ensures row == Get(rows, handle)
    {
      row := if handle in rows then Some(rows[handle]) else None;
    }

    method RecordSend(handle: Handle, day: int, now: int)
      modifies this
      ensures rows == Recorded(old(rows), handle, day, now)
    {
      if handle in rows {
        var row := rows[handle];
        var sends := if row.day == Some(day) then row.sends + 1 else 1;
        rows := rows[handle := row.(sends := sends, day := Some(day), lastSend := Some(now))];
      }
    }

    method MarkPruned(handle: Handle)
      modifies this
      ensures rows == Pruned(old(rows), handle)
    {
      if handle in rows {
        rows := rows[handle := rows[handle].(pruned := true)];
      }
    }

    method Delete(handle: Handle)
      modifies this
      ensures rows == old(rows) - {handle}
    {
      rows := rows - {handle};
    }
  }
}
