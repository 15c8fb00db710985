/** The persistent store (database.py): a flat string-keyed `global_state` table and a
    `user_data` table keyed by user id, both written with upsert semantics. */
module Store {
  import opened Wrappers
  import opened Decimal

  type UserId = int

  /** Timestamps are whole seconds. */
  type Time = int

  /** One `user_data` row. */
  datatype UserRow = UserRow(saves: int, lastCollected: Time, lockedUntil: Option<Time>, lockoutCount: int)

  const HighestCountKey := "highest_count"

  /** The row `get_or_create_user` inserts for a user it has not seen. */
  function DefaultRow(now: Time): (row: UserRow)
    ensures row.saves == 1 && row.lastCollected == now && row.lockedUntil == None && row.lockoutCount == 0
  {
    UserRow(1, now, None, 0)
  }

  function Lookup<K, V>(m: map<K, V>, k: K): Option<V> {
    if k in m then Some(m[k]) else None
  }

  /** The row a user has after `get_or_create_user`: the stored one, or the default. */
  function RowOrDefault(users: map<UserId, UserRow>, u: UserId, now: Time): (row: UserRow)
    ensures u in users ==> row == users[u]
    ensures u !in users ==> row == DefaultRow(now)
  {
    if u in users then users[u] else DefaultRow(now)
  }

  /** What `get_highest_count` returns: 0 when the key is absent or its value empty,
      otherwise the stored integer; ValueError when the stored text is not an integer. */
  function HighestOf(gs: map<string, string>): (r: Result<int>)
    ensures HighestCountKey !in gs ==> r == Ok(0)
    ensures HighestCountKey in gs && gs[HighestCountKey] == "" ==> r == Ok(0)
    ensures HighestCountKey in gs && gs[HighestCountKey] != "" ==>
              (r.Ok? <==> ParseInt(gs[HighestCountKey]).Some?)
    ensures HighestCountKey in gs && gs[HighestCountKey] != "" && ParseInt(gs[HighestCountKey]).Some? ==>
              r == Ok(ParseInt(gs[HighestCountKey]).value)
  {
    if HighestCountKey !in gs || gs[HighestCountKey] == "" then Ok(0)
    else match ParseInt(gs[HighestCountKey])
      case Some(n) => Ok(n)
      case None => ValueError
  }

  /** The table after `update_highest_count(n)`, and whether it reported a new record. */
  function RaiseRecord(gs: map<string, string>, n: int): (res: (map<string, string>, Result<bool>))
    // an unreadable record raises before anything is written
    ensures HighestOf(gs).ValueError? ==> res == (gs, ValueError)
    ensures HighestOf(gs).Ok? ==> res.1 == Ok(n > HighestOf(gs).value)
    // nothing is written unless the record is beaten
    ensures res.1 != Ok(true) ==> res.0 == gs
    ensures forall k :: k != HighestCountKey ==> Lookup(res.0, k) == Lookup(gs, k)
  {
    match HighestOf(gs)
    case ValueError => (gs, ValueError)
    case Ok(h) => if n > h then (gs[HighestCountKey := IntToString(n)], Ok(true)) else (gs, Ok(false))
  }

  /** The record never decreases: after `update_highest_count(n)` it reads back as the larger
      of the old record and n, it is reported new exactly when n beats it, and no other key moves. */
  lemma RecordNeverDecreases(gs: map<string, string>, n: int)
    requires HighestOf(gs).Ok?
    ensures var (gs', r) := RaiseRecord(gs, n);
            var h := HighestOf(gs).value;
            && HighestOf(gs') == Ok(if n > h then n else h)
            && r == Ok(n > h)
            && (forall k :: k != HighestCountKey ==> Lookup(gs', k) == Lookup(gs, k))
  {
    IntRoundTrip(n);
  }

  class Store {
    var globalState: map<string, string>
    var userData: map<UserId, UserRow>

    /** An empty database, as `init_db` leaves it on first start. */
    constructor ()
      ensures globalState == map[] && userData == map[]
    {
      globalState := map[];
      userData := map[];
    }

    /** `get_global_state`: the stored value, None for a key never set. */
    method GetGlobalState(key: string) returns (r: Option<string>)
      ensures r.Some? <==> key in globalState
      ensures r.Some? ==> r.value == globalState[key]
    {
      r := Lookup(globalState, key);
    }

    /** `set_global_state`: insert or overwrite one key; a later get returns the new value
        and every other key reads as before. */
    method SetGlobalState(key: string, value: string)
      modifies this
      ensures globalState == old(globalState)[key := value]
      ensures Lookup(globalState, key) == Some(value)
      ensures forall k :: k != key ==> Lookup(globalState, k) == old(Lookup(globalState, k))
      ensures userData == old(userData)
    {
      globalState := globalState[key := value];
    }

    /** `get_highest_count`. */
    method GetHighestCount() returns (r: Result<int>)
      ensures r == HighestOf(globalState)
    {
      var v := GetGlobalState(HighestCountKey);
      if v.None? || v.value == "" {
        r := Ok(0);
      } else {
        var n := ParseInt(v.value);
        r := if n.Some? then Ok(n.value) else ValueError;
      }
    }

    /** `update_highest_count(n)`: read, compare, write. */
    method UpdateHighestCount(n: int) returns (r: Result<bool>)
      modifies this
      ensures (globalState, r) == RaiseRecord(old(globalState), n)
      ensures old(HighestOf(globalState)).Ok? ==>
                HighestOf(globalState).Ok? && HighestOf(globalState).value >= old(HighestOf(globalState)).value
      ensures userData == old(userData)
    {
      var h := GetHighestCount();
      if h.ValueError? {
        return ValueError;
      }
      if n > h.value {
        SetGlobalState(HighestCountKey, IntToString(n));
        IntRoundTrip(n);
        r := Ok(true);
      } else {
        r := Ok(false);
      }
    }

    /** `get_user`: the row, or None. */
    method GetUser(u: UserId) returns (r: Option<UserRow>)
      ensures r.Some? <==> u in userData
      ensures r.Some? ==> r.value == userData[u]
    {
      r := Lookup(userData, u);
    }

    /** `create_or_update_user`: all four fields of u's row are replaced; other rows stay. */
    method CreateOrUpdateUser(u: UserId, row: UserRow)
      modifies this
      ensures userData == old(userData)[u := row]
      ensures forall v :: v != u ==> Lookup(userData, v) == old(Lookup(userData, v))
      ensures globalState == old(globalState)
    {
      userData := userData[u := row];
    }

    /** `UPDATE user_data SET saves = ... WHERE user_id = ...` (bot.py, decay job):
        only the saves of an existing row change; a missing row is not created. */
    method UpdateSaves(u: UserId, saves: int)
      modifies this
      ensures u in old(userData) ==> userData == old(userData)[u := old(userData)[u].(saves := saves)]
      ensures u !in old(userData) ==> userData == old(userData)
      ensures globalState == old(globalState)
    {
      if u in userData {
        userData := userData[u := userData[u].(saves := saves)];
      }
    }

    /** `get_or_create_user`: an existing row is returned unchanged; for a new user the default
        row is inserted first, and the row returned is the one read back from the table. */
    method GetOrCreateUser(u: UserId, now: Time) returns (row: UserRow)
      modifies this
      ensures row == RowOrDefault(old(userData), u, now)
      ensures userData == old(userData)[u := row]
      ensures u in userData && userData[u] == row
      ensures globalState == old(globalState)
    {
      var r := GetUser(u);
      if r.None? {
        CreateOrUpdateUser(u, DefaultRow(now));
        r := GetUser(u);
      }
      row := r.value;
    }
  }
}
