/** The counting game of bot.py: the decision taken for one message in the counting channel,
    the save economy (daily claim and decay), the state loaded at start-up, and the engine
    object that holds `current_count` and `last_counter_id` and writes through to the store. */
module Counting {
  import opened Wrappers
  import opened Decimal
  import opened Store

  type ChannelId = int

  const Hour := 3600
  const Day := 86400

  const CountChannelKey := "count_channel_id"
  const CurrentCountKey := "current_count"
  const LastCounterKey := "last_counter_id"

  /** The deployment's configuration constants (read from the environment in the source). */
  datatype Config = Config(
    saveLimit: int,
    saveCooldownHours: int,
    decayDays: int,
    lockoutHours: int,
    lockoutLimit: int)

  /** The shared counter: the next expected number and who counted last. */
  datatype Round = Round(count: int, last: Option<UserId>)

  const Reset := Round(1, None)

  /** What the bot does with one message in the counting channel. */
  datatype Outcome =
    | Ignored                            // not a number: no reaction, no reply
    | LockedOut(remaining: int)          // a number from a locked-out user: reply with the time left
    | NextIsOne                          // right after a reset, a number other than 1
    | SaveLost(savesLeft: int)           // a second turn in a row, forgiven by a save
    | Ruined                             // a second turn in a row with no save: the count resets
    | Accepted(newRecord: bool)          // the expected number; a trophy when it beats the record
    | SaveUsed(savesLeft: int)           // a wrong number, forgiven by a save
    | LockedOutReset(badCounterRole: bool)  // a wrong number with no save: reset and lockout

  predicate ResetsCount(o: Outcome) {
    o.Ruined? || o.LockedOutReset?
  }

  /** The new counter, the user's new row and the outcome of one submission. */
  datatype Verdict = Verdict(outcome: Outcome, round: Round, row: UserRow)

  /** The lockout check: `locked_until` is set and still in the future. */
  predicate Locked(row: UserRow, now: Time) {
    row.lockedUntil.Some? && now < row.lockedUntil.value
  }

  /** The consecutive-turn check; it does not apply right after a reset. */
  predicate Consecutive(r: Round, user: UserId) {
    r.last == Some(user) && r.count != 1
  }

  /** One message in the counting channel, from a user whose row is `row`, with `num` the
      message parsed as an integer (None when it is not one) and `record` what the store's
      highest count reads as. The checks run in the source's order, each one final. */
  function Judge(cfg: Config, r: Round, user: UserId, row: UserRow, num: Option<int>, now: Time,
                 record: Result<int>): (v: Verdict)
    // nothing but an accepted number, a reset or a spent save changes any state
    ensures v.outcome.Ignored? || v.outcome.LockedOut? || v.outcome.NextIsOne? ==> v.round == r && v.row == row
    // a locked-out user can do nothing; a non-number does nothing
    ensures Locked(row, now) ==> v.outcome == (if num.Some? then LockedOut(row.lockedUntil.value - now) else Ignored)
    ensures v.outcome.LockedOut? <==> Locked(row, now) && num.Some?
    ensures v.outcome.LockedOut? ==> v.outcome.remaining > 0
    ensures v.outcome.Ignored? <==> num.None?
    ensures v.outcome.NextIsOne? <==> !Locked(row, now) && num.Some? && r.count == 1 && num.value != 1
    // a second turn in a row is penalised whatever the number
    ensures !Locked(row, now) && num.Some? && Consecutive(r, user) ==> v.outcome.SaveLost? || v.outcome.Ruined?
    ensures v.outcome.Ruined? ==> v.row == row && v.round == Reset && !(row.saves > 0)
    // acceptance: exactly the expected number from someone else, and the counter moves on by one
    ensures v.outcome.Accepted? <==> !Locked(row, now) && num == Some(r.count) && !Consecutive(r, user)
    ensures v.outcome.Accepted? ==> v.round == Round(r.count + 1, Some(user)) && v.row == row
    // the record is compared with the accepted number itself
    ensures v.outcome.Accepted? ==> v.outcome.newRecord == (record.Ok? && num.value > record.value)
    // a save is spent only when there is one, and nothing else in the row or the counter moves
    ensures v.outcome.SaveLost? || v.outcome.SaveUsed? <==> v.row.saves != row.saves
    ensures v.outcome.SaveLost? || v.outcome.SaveUsed? ==>
              row.saves > 0 && v.row == row.(saves := row.saves - 1) && v.round == r
              && v.outcome.savesLeft == v.row.saves
    ensures v.outcome.SaveLost? <==> !Locked(row, now) && num.Some? && Consecutive(r, user) && row.saves > 0
    ensures v.outcome.Ruined? <==> !Locked(row, now) && num.Some? && Consecutive(r, user) && !(row.saves > 0)
    ensures v.outcome.SaveUsed? <==>
              !Locked(row, now) && num.Some? && num.value != r.count && !Consecutive(r, user)
              && r.count != 1 && row.saves > 0
    // a wrong number with no save: lockout, one more lockout, and the reset
    ensures v.outcome.LockedOutReset? <==>
              !Locked(row, now) && num.Some? && num.value != r.count && !Consecutive(r, user)
              && !(r.count == 1) && !(row.saves > 0)
    ensures v.outcome.LockedOutReset? ==>
              v.round == Reset
              && v.row == row.(lockedUntil := Some(now + cfg.lockoutHours * Hour), lockoutCount := row.lockoutCount + 1)
              && v.outcome.badCounterRole == (v.row.lockoutCount >= cfg.lockoutLimit)
    // the counter changes only by moving on one or by a reset
    ensures v.round != r ==> v.outcome.Accepted? || (ResetsCount(v.outcome) && v.round == Reset && r.count != 1)
    ensures v.row.lastCollected == row.lastCollected && v.row.lockoutCount >= row.lockoutCount
  {
    if Locked(row, now) then
      Verdict(if num.Some? then LockedOut(row.lockedUntil.value - now) else Ignored, r, row)
    else if num.None? then
      Verdict(Ignored, r, row)
    else
      var n := num.value;
      if r.count == 1 && n != 1 then
        Verdict(NextIsOne, r, row)
      else if Consecutive(r, user) then
        if row.saves > 0 then
          Verdict(SaveLost(row.saves - 1), r, row.(saves := row.saves - 1))
        else
          Verdict(Ruined, Reset, row)
      else if n == r.count then
        Verdict(Accepted(record.Ok? && n > record.value), Round(r.count + 1, Some(user)), row)
      else if row.saves > 0 then
        Verdict(SaveUsed(row.saves - 1), r, row.(saves := row.saves - 1))
      else
        var row' := row.(lockedUntil := Some(now + cfg.lockoutHours * Hour), lockoutCount := row.lockoutCount + 1);
        Verdict(LockedOutReset(row'.lockoutCount >= cfg.lockoutLimit), Reset, row')
  }

  /** Saves stay within [0, SAVE_LIMIT] across a submission. */
  lemma JudgeKeepsSavesBounded(cfg: Config, r: Round, user: UserId, row: UserRow, num: Option<int>,
                               now: Time, record: Result<int>)
    requires 0 <= row.saves <= cfg.saveLimit
    ensures var v := Judge(cfg, r, user, row, num, now, record); 0 <= v.row.saves <= cfg.saveLimit
  {
  }

  // ---------------------------------------------------------------------------------------
  // The accepted numbers since the last reset are exactly 1, 2, 3, ...

  /** `acc` lists the numbers accepted since the last reset and `count` is the next one due. */
  ghost predicate Gapless(acc: seq<int>, count: int) {
    |acc| + 1 == count && forall i :: 0 <= i < |acc| ==> acc[i] == i + 1
  }

  /** One submission as seen by the counter: who sent it, their row at that moment, the parsed
      number, the time and what the record read as. */
  datatype Turn = Turn(user: UserId, row: UserRow, num: Option<int>, now: Time, record: Result<int>)

  /** The counter and the numbers accepted since the last reset, after a run of submissions. */
  ghost function Replay(cfg: Config, r: Round, acc: seq<int>, turns: seq<Turn>): (Round, seq<int>)
    decreases |turns|
  {
    if turns == [] then (r, acc)
    else
      var t := turns[0];
      var v := Judge(cfg, r, t.user, t.row, t.num, t.now, t.record);
      var acc' := if v.outcome.Accepted? then acc + [t.num.value]
                  else if ResetsCount(v.outcome) then []
                  else acc;
      Replay(cfg, v.round, acc', turns[1..])
  }

  /** Whatever the users and their rows, the numbers accepted since the last reset form
      1, 2, ..., count - 1 with no repeat and no gap. */
  lemma {:induction false} ReplayGapless(cfg: Config, r: Round, acc: seq<int>, turns: seq<Turn>)
    requires Gapless(acc, r.count)
    ensures var (r', acc') := Replay(cfg, r, acc, turns); Gapless(acc', r'.count)
    decreases |turns|
  {
    if turns != [] {
      var t := turns[0];
      var v := Judge(cfg, r, t.user, t.row, t.num, t.now, t.record);
      var acc' := if v.outcome.Accepted? then acc + [t.num.value]
                  else if ResetsCount(v.outcome) then []
                  else acc;
      assert Gapless(acc', v.round.count);
      ReplayGapless(cfg, v.round, acc', turns[1..]);
    }
  }

  /** Right after their own accepted number, a user is penalised for any number they send next,
      the right one included: a save is lost, or with none the count is ruined. */
  lemma SecondTurnPenalised(cfg: Config, r: Round, user: UserId, row: UserRow, n: int, now: Time,
                            record: Result<int>, row2: UserRow, m: int, later: Time, record2: Result<int>)
    requires Judge(cfg, r, user, row, Some(n), now, record).outcome.Accepted?
    requires r.count != 0 && !Locked(row2, later)
    ensures var v := Judge(cfg, r, user, row, Some(n), now, record);
            var w := Judge(cfg, v.round, user, row2, Some(m), later, record2);
            (w.outcome.SaveLost? && w.round == v.round) || (w.outcome.Ruined? && w.round == Reset)
  {
  }

  /** A is due at 1 and sends 1, then sends 2: with a save, the save goes and 2 is still due;
      without one, the count goes back to 1 with no last counter. */
  lemma ConsecutiveScenario(cfg: Config, a: UserId, row: UserRow, now: Time, record: Result<int>)
    requires !Locked(row, now) && !Locked(row, now + 1)
    ensures var v := Judge(cfg, Round(1, None), a, row, Some(1), now, record);
            var w := Judge(cfg, v.round, a, v.row, Some(2), now + 1, record);
            && v.outcome.Accepted? && v.round == Round(2, Some(a))
            && (row.saves > 0 ==> w.outcome == SaveLost(row.saves - 1) && w.round == Round(2, Some(a)))
            && (!(row.saves > 0) ==> w.outcome == Ruined && w.round == Reset)
  {
  }

  /** B, with no save, sends 7 while 5 is due: locked out until LOCKOUT_HOURS later, one more
      lockout on record, and the count back at 1. */
  lemma LockoutScenario(cfg: Config, b: UserId, row: UserRow, last: Option<UserId>, now: Time, record: Result<int>)
    requires !Locked(row, now) && row.saves == 0 && last != Some(b)
    ensures var v := Judge(cfg, Round(5, last), b, row, Some(7), now, record);
            && v.outcome.LockedOutReset?
            && v.row.lockedUntil == Some(now + cfg.lockoutHours * Hour)
            && v.row.lockoutCount == row.lockoutCount + 1
            && v.round == Reset
  {
  }

  // ---------------------------------------------------------------------------------------
  // The save economy

  datatype ClaimOutcome =
    | OnCooldown(remaining: int)   // seconds until the next claim is allowed
    | AtLimit
    | Collected(saves: int)

  /** `/collectsave` on a user's row at time `now`: the outcome and the row afterwards. */
  function Claim(cfg: Config, row: UserRow, now: Time): (c: (ClaimOutcome, UserRow))
    ensures c.0.OnCooldown? <==> now - row.lastCollected < cfg.saveCooldownHours * Hour
    ensures c.0.OnCooldown? ==> c.0.remaining > 0
    ensures c.0.OnCooldown? ==> c.0.remaining == cfg.saveCooldownHours * Hour - (now - row.lastCollected)
    ensures c.0.AtLimit? <==> !c.0.OnCooldown? && row.saves >= cfg.saveLimit
    ensures !c.0.Collected? ==> c.1 == row
    ensures c.0.Collected? ==> c.1 == row.(saves := row.saves + 1, lastCollected := now) && c.0.saves == c.1.saves
    ensures 0 <= row.saves <= cfg.saveLimit ==> 0 <= c.1.saves <= cfg.saveLimit
  {
    var since := now - row.lastCollected;
    if since < cfg.saveCooldownHours * Hour then (OnCooldown(cfg.saveCooldownHours * Hour - since), row)
    else if row.saves >= cfg.saveLimit then (AtLimit, row)
    else
      var row' := row.(saves := row.saves + 1, lastCollected := now);
      (Collected(row'.saves), row')
  }

  /** A second claim within the cooldown of a successful one is refused and changes nothing. */
  lemma ClaimTwiceWithinCooldown(cfg: Config, row: UserRow, t1: Time, t2: Time)
    requires Claim(cfg, row, t1).0.Collected?
    requires t1 <= t2 < t1 + cfg.saveCooldownHours * Hour
    ensures var row1 := Claim(cfg, row, t1).1;
            Claim(cfg, row1, t2) == (OnCooldown(t1 + cfg.saveCooldownHours * Hour - t2), row1)
  {
  }

  /** A user's first `/save` stores a row collected at that moment, so a `/collectsave` within
      the cooldown after it is refused. */
  lemma FirstCheckStartsCooldown(cfg: Config, users: map<UserId, UserRow>, u: UserId, t1: Time, t2: Time)
    requires u !in users
    requires t1 <= t2 < t1 + cfg.saveCooldownHours * Hour
    ensures var row := RowOrDefault(users[u := RowOrDefault(users, u, t1)], u, t2);
            Claim(cfg, row, t2) == (OnCooldown(t1 + cfg.saveCooldownHours * Hour - t2), row)
  {
  }

  // ---------------------------------------------------------------------------------------
  // The waiting time shown in the lockout and cooldown replies

  /** Hours and minutes of a non-negative duration in seconds, as the replies mean to show it:
      the whole hours, then the whole minutes of what is left. */
  function Shown(seconds: int): (hm: (int, int))
    requires seconds >= 0
    ensures 0 <= hm.0 && 0 <= hm.1 < 60
    ensures hm.0 * Hour + hm.1 * 60 <= seconds < hm.0 * Hour + hm.1 * 60 + 60
  {
    (seconds / Hour, seconds % Hour / 60)
  }

  /** What the replies show, as written: `divmod(remaining.seconds, 3600)`, where a timedelta's
      `seconds` is only the part below one day. */
  function ShownAsWritten(seconds: int): (hm: (int, int))
    requires seconds >= 0
    ensures hm.0 < 24
  {
    var secondsField := seconds % Day;
    (secondsField / Hour, secondsField % Hour / 60)
  }

  /** From one day on, the displayed waiting time is short by whole days: 25 hours still to
      wait are shown as 1 hour (reachable with LOCKOUT_HOURS above 24). */
  lemma ShownAsWrittenDropsDays()
    ensures ShownAsWritten(25 * Hour) == (1, 0) && Shown(25 * Hour) == (25, 0)
  {
  }

  /** Below one day the two agree, so a cooldown or lockout of at most 24 hours is shown right. */
  lemma ShownAgreesBelowDay(seconds: int)
    requires 0 <= seconds < Day
    ensures ShownAsWritten(seconds) == Shown(seconds)
  {
  }

  /** A user's row after one pass of the decay job. */
  function Decayed(cfg: Config, row: UserRow, now: Time): (row': UserRow)
    ensures row'.lastCollected == row.lastCollected && row'.lockedUntil == row.lockedUntil
    ensures row'.lockoutCount == row.lockoutCount
    ensures now - row.lastCollected > cfg.decayDays * Day ==>
              row'.saves == (if row.saves > 0 then row.saves - 1 else 0)
    ensures now - row.lastCollected <= cfg.decayDays * Day ==> row' == row
    ensures 0 <= row.saves <= cfg.saveLimit ==> 0 <= row'.saves <= cfg.saveLimit
  {
    if now - row.lastCollected > cfg.decayDays * Day then
      row.(saves := if row.saves - 1 > 0 then row.saves - 1 else 0)
    else row
  }

  /** The whole user table after the decay job. */
  function DecayAll(cfg: Config, users: map<UserId, UserRow>, now: Time): (users': map<UserId, UserRow>)
    ensures users'.Keys == users.Keys
    ensures forall u :: u in users ==> users'[u] == Decayed(cfg, users[u], now)
  {
    map u | u in users :: Decayed(cfg, users[u], now)
  }

  ghost predicate SavesBounded(cfg: Config, users: map<UserId, UserRow>) {
    forall u :: u in users ==> 0 <= users[u].saves <= cfg.saveLimit
  }

  lemma StoreRowKeepsSavesBounded(cfg: Config, users: map<UserId, UserRow>, u: UserId, row: UserRow)
    requires SavesBounded(cfg, users) && 0 <= row.saves <= cfg.saveLimit
    ensures SavesBounded(cfg, users[u := row])
  {
  }

  /** A set with no member is empty (helper for choosing a row in the decay loop). */
  lemma NoMemberMeansEmpty(s: set<UserId>)
    requires forall u :: u !in s
    ensures s == {}
  {
    assert forall u :: u in s <==> u in {};
  }

  lemma SomeMember(s: set<UserId>)
    ensures s == {} || exists u :: u in s
  {
    if forall u :: u !in s {
      NoMemberMeansEmpty(s);
    }
  }

  // ---------------------------------------------------------------------------------------
  // State loaded at start-up and the write-through of the counter

  /** The counting state `on_ready` leaves in memory. `complete` is false when one of the stored
      values is not an integer: `int()` then raises part-way and the later values keep their
      initial settings (no channel, count 1, no last counter). */
  datatype Loaded = Loaded(channel: Option<ChannelId>, round: Round, complete: bool)

  /** A stored integer key: absent, present and readable, or unreadable. */
  function ReadInt(gs: map<string, string>, key: string): Result<Option<int>> {
    if key !in gs then Ok(None)
    else match ParseInt(gs[key])
      case Some(n) => Ok(Some(n))
      case None => ValueError
  }

  /** A stored integer key that `int()` can read: absent, or holding a decimal numeral. */
  predicate Readable(gs: map<string, string>, key: string) {
    key !in gs || ParseInt(gs[key]).Some?
  }

  function Load(gs: map<string, string>): (l: Loaded)
    // the load completes exactly when every value it converts is an integer ("0" needs no conversion)
    ensures l.complete <==>
              Readable(gs, CountChannelKey) && Readable(gs, CurrentCountKey)
              && (LastCounterKey in gs && gs[LastCounterKey] != "0" ==> ParseInt(gs[LastCounterKey]).Some?)
    // an unreadable channel stops the load before anything is assigned
    ensures !Readable(gs, CountChannelKey) ==> l == Loaded(None, Reset, false)
    ensures CountChannelKey !in gs ==> l.channel == None
    ensures CountChannelKey in gs && Readable(gs, CountChannelKey) ==> l.channel == ParseInt(gs[CountChannelKey])
    // an absent count leaves the initial 1, and so does an unreadable one
    ensures Readable(gs, CountChannelKey) && Readable(gs, CurrentCountKey) ==>
              l.round.count == (if CurrentCountKey in gs then ParseInt(gs[CurrentCountKey]).value else 1)
    ensures !Readable(gs, CurrentCountKey) ==> l.round.count == 1
    ensures l.complete ==> (l.round.last.None? <==> LastCounterKey !in gs || gs[LastCounterKey] == "0")
    ensures l.complete && l.round.last.Some? ==> ParseInt(gs[LastCounterKey]) == l.round.last
    // whatever fails, the values not yet reached keep their initial settings
    ensures !l.complete ==> l.round.last == None
  {
    match ReadInt(gs, CountChannelKey)
    case ValueError => Loaded(None, Reset, false)
    case Ok(channel) =>
      match ReadInt(gs, CurrentCountKey)
      case ValueError => Loaded(channel, Reset, false)
      case Ok(c) =>
        var count := c.GetOr(1);
        if LastCounterKey in gs && gs[LastCounterKey] != "0" then
          match ParseInt(gs[LastCounterKey])
          case Some(u) => Loaded(channel, Round(count, Some(u)), true)
          case None => Loaded(channel, Round(count, None), false)
        else Loaded(channel, Round(count, None), true)
  }

  /** How `last_counter_id` is stored: "0" for none, else the decimal id. */
  function EncodeLast(last: Option<UserId>): (s: string)
    // the sentinel is ambiguous only for user id 0
    ensures s == "0" <==> last.None? || last == Some(0)
    ensures last.Some? ==> ParseInt(s) == last
  {
    match last
    case None => "0"
    case Some(u) => ZeroNumeral(u); IntRoundTrip(u); IntToString(u)
  }

  /** The global-state table after the two counter writes of a ruin, an acceptance or a lockout. */
  function WriteRound(gs: map<string, string>, r: Round): (gs': map<string, string>)
    ensures ReadInt(gs', CurrentCountKey) == Ok(Some(r.count))
    ensures LastCounterKey in gs' && gs'[LastCounterKey] == EncodeLast(r.last)
    ensures forall k :: k != CurrentCountKey && k != LastCounterKey ==> Lookup(gs', k) == Lookup(gs, k)
  {
    IntRoundTrip(r.count);
    gs[CurrentCountKey := IntToString(r.count)][LastCounterKey := EncodeLast(r.last)]
  }

  /** Writing the counter and reloading gives it back: "0" reads as no last counter and any
      other id as itself, so a restart resumes where the game stopped. */
  lemma LoadAfterWriteRound(gs: map<string, string>, r: Round)
    requires Load(gs).complete
    requires r.last != Some(0)
    ensures Load(WriteRound(gs, r)) == Loaded(Load(gs).channel, r, true)
  {
  }

  /** Writing the record leaves the loaded counting state alone. */
  lemma LoadIgnoresRecord(gs: map<string, string>, v: string)
    ensures Load(gs[HighestCountKey := v]) == Load(gs)
  {
  }

  /** Setting the counting channel and reloading gives it back. */
  lemma {:induction false} LoadAfterSetChannel(gs: map<string, string>, channel: ChannelId)
    requires Load(gs).complete
    ensures Load(gs[CountChannelKey := IntToString(channel)]) == Loaded(Some(channel), Load(gs).round, true)
  {
    IntRoundTrip(channel);
    var gs' := gs[CountChannelKey := IntToString(channel)];
    assert ReadInt(gs', CurrentCountKey) == ReadInt(gs, CurrentCountKey);
    assert Lookup(gs', LastCounterKey) == Lookup(gs, LastCounterKey);
  }

  /** The global-state table after one submission. */
  function Persist(gs: map<string, string>, v: Verdict, num: Option<int>): map<string, string> {
    var gs1 := if v.outcome.Accepted? || ResetsCount(v.outcome) then WriteRound(gs, v.round) else gs;
    if v.outcome == Accepted(true) && num.Some? then gs1[HighestCountKey := IntToString(num.value)] else gs1
  }

  /** After any submission the store loads back as the new counter: a restart resumes exactly
      where the game is, provided the counter was in the store before. */
  lemma PersistReloads(cfg: Config, r: Round, user: UserId, row: UserRow, num: Option<int>,
                        now: Time, record: Result<int>, gs: map<string, string>)
    requires Load(gs).complete && Load(gs).round == r && user != 0
    ensures var v := Judge(cfg, r, user, row, num, now, record);
            Load(Persist(gs, v, num)) == Loaded(Load(gs).channel, v.round, true)
  {
  }

  /** After any submission the record reads as the larger of the old record and the accepted
      number; it moves only when an accepted number beats it. */
  lemma {:induction false} PersistRecord(cfg: Config, r: Round, user: UserId, row: UserRow, num: Option<int>,
                                         now: Time, gs: map<string, string>)
    requires HighestOf(gs).Ok?
    ensures var v := Judge(cfg, r, user, row, num, now, HighestOf(gs));
            var h := HighestOf(gs).value;
            HighestOf(Persist(gs, v, num)) == Ok(if v.outcome.Accepted? && num.value > h then num.value else h)
  {
    var v := Judge(cfg, r, user, row, num, now, HighestOf(gs));
    if v.outcome.Accepted? || ResetsCount(v.outcome) {
      var gs1 := WriteRound(gs, v.round);
      assert Lookup(gs1, HighestCountKey) == Lookup(gs, HighestCountKey);
      assert HighestOf(gs1) == HighestOf(gs);
    }
    if v.outcome.Accepted? {
      IntRoundTrip(num.value);
    }
  }

  // ---------------------------------------------------------------------------------------
  // The engine

  class CountingGame {
    const config: Config
    const store: Store

    var countChannel: Option<ChannelId>
    var currentCount: int
    var lastCounter: Option<UserId>

    /** The in-memory counter is what a restart would load from the store. */
    ghost predicate Synced()
      reads this, store
    {
      Load(store.globalState) == Loaded(countChannel, Round(currentCount, lastCounter), true)
    }

    /** `on_ready`: load the channel, the count and the last counter from the store. */
    constructor Start(config: Config, store: Store)
      ensures this.config == config && this.store == store
      ensures Loaded(countChannel, Round(currentCount, lastCounter), Load(store.globalState).complete)
              == Load(store.globalState)
      ensures Load(store.globalState).complete ==> Synced()
    {
      this.config := config;
      this.store := store;
      var ch := store.GetGlobalState(CountChannelKey);
      var chosen: Option<ChannelId> := None;
      var count := 1;
      var last: Option<UserId> := None;
      var ok := true;
      if ch.Some? {
        var n := ParseInt(ch.value);
        if n.None? { ok := false; } else { chosen := Some(n.value); }
      }
      if ok {
        var cc := store.GetGlobalState(CurrentCountKey);
        if cc.Some? {
          var n := ParseInt(cc.value);
          if n.None? { ok := false; } else { count := n.value; }
        }
      }
      if ok {
        var lc := store.GetGlobalState(LastCounterKey);
        if lc.Some? && lc.value != "0" {
          var n := ParseInt(lc.value);
          if n.None? { ok := false; } else { last := Some(n.value); }
        } else {
          last := None;
        }
      }
      countChannel, currentCount, lastCounter := chosen, count, last;
    }

    /** `/count_channel`: choose the counting channel and persist it. */
    method SetCountChannel(channel: ChannelId)
      modifies this, store
      ensures countChannel == Some(channel)
      ensures currentCount == old(currentCount) && lastCounter == old(lastCounter)
      ensures store.globalState == old(store.globalState)[CountChannelKey := IntToString(channel)]
      ensures store.userData == old(store.userData)
      ensures old(Synced()) ==> Synced()
    {
      countChannel := Some(channel);
      store.SetGlobalState(CountChannelKey, IntToString(channel));
      if old(Synced()) {
        LoadAfterSetChannel(old(store.globalState), channel);
      }
    }

    /** Set the counter and write both of its keys through to the store, as the ruin, the
        acceptance and the lockout paths do. */
    method WriteCounter(r: Round)
      modifies this, store
      ensures Round(currentCount, lastCounter) == r && countChannel == old(countChannel)
      ensures store.globalState == WriteRound(old(store.globalState), r)
      ensures store.userData == old(store.userData)
      ensures r.last != Some(0) && old(Synced()) ==> Synced()
    {
      currentCount, lastCounter := r.count, r.last;
      store.SetGlobalState(CurrentCountKey, IntToString(r.count));
      store.SetGlobalState(LastCounterKey, EncodeLast(r.last));
      if r.last != Some(0) && old(Synced()) {
        LoadAfterWriteRound(old(store.globalState), r);
      }
    }

    /** The counting branch of `on_message`: the user's row is created if missing, then the
        message is judged and the new counter, row and record are written through. */
    method Submit(user: UserId, num: Option<int>, now: Time) returns (o: Outcome)
      modifies this, store
      ensures var v := Judge(config, old(Round(currentCount, lastCounter)), user,
                             RowOrDefault(old(store.userData), user, now), num, now,
                             old(HighestOf(store.globalState)));
              && o == v.outcome
              && Round(currentCount, lastCounter) == v.round
              && store.userData == old(store.userData)[user := v.row]
              && store.globalState == Persist(old(store.globalState), v, num)
      ensures countChannel == old(countChannel)
      ensures user != 0 && old(Synced()) ==> Synced()
      ensures config.saveLimit >= 1 && old(SavesBounded(config, store.userData)) ==> SavesBounded(config, store.userData)
    {
      ghost var r0 := Round(currentCount, lastCounter);
      var row := store.GetOrCreateUser(user, now);
      ghost var users1 := store.userData;
      o := Respond(user, row, num, now);
      if config.saveLimit >= 1 && old(SavesBounded(config, store.userData)) {
        assert SavesBounded(config, users1);
        JudgeKeepsSavesBounded(config, r0, user, row, num, now, old(HighestOf(store.globalState)));
        var v := Judge(config, r0, user, row, num, now, old(HighestOf(store.globalState)));
        StoreRowKeepsSavesBounded(config, users1, user, v.row);
      }
    }

    /** The checks of the counting branch, for a user whose row is already stored. */
    method Respond(user: UserId, row: UserRow, num: Option<int>, now: Time) returns (o: Outcome)
      requires user in store.userData && store.userData[user] == row
      modifies this, store
      ensures var v := Judge(config, old(Round(currentCount, lastCounter)), user, row, num, now,
                             old(HighestOf(store.globalState)));
              && o == v.outcome
              && Round(currentCount, lastCounter) == v.round
              && store.userData == old(store.userData)[user := v.row]
              && store.globalState == Persist(old(store.globalState), v, num)
      ensures countChannel == old(countChannel)
      ensures user != 0 && old(Synced()) ==> Synced()
    {
      ghost var v := Judge(config, Round(currentCount, lastCounter), user, row, num, now, HighestOf(store.globalState));
      if row.lockedUntil.Some? && now < row.lockedUntil.value {
        o := if num.Some? then LockedOut(row.lockedUntil.value - now) else Ignored;
        assert store.userData == old(store.userData)[user := row];
        return;
      }
      if num.None? {
        assert store.userData == old(store.userData)[user := row];
        return Ignored;
      }
      var number := num.value;
      if currentCount == 1 && number != 1 {
        assert store.userData == old(store.userData)[user := row];
        return NextIsOne;
      }
      if lastCounter == Some(user) && currentCount != 1 {
        if row.saves > 0 {
          var row' := row.(saves := row.saves - 1);
          store.CreateOrUpdateUser(user, row');
          o := SaveLost(row'.saves);
        } else {
          WriteCounter(Reset);
          o := Ruined;
          assert store.userData == old(store.userData)[user := row];
        }
        return;
      }
      if number == currentCount {
        WriteCounter(Round(currentCount + 1, Some(user)));
        ghost var gs1 := store.globalState;
        // a ValueError while reading the record is swallowed by the handler's `except ValueError`
        var isNewRecord := store.UpdateHighestCount(number);
        o := Accepted(isNewRecord == Ok(true));
        if isNewRecord == Ok(true) { LoadIgnoresRecord(gs1, IntToString(number)); }
        assert store.userData == old(store.userData)[user := row];
      } else if row.saves > 0 {
        var row' := row.(saves := row.saves - 1);
        store.CreateOrUpdateUser(user, row');
        o := SaveUsed(row'.saves);
      } else {
        var row' := row.(lockedUntil := Some(now + config.lockoutHours * Hour), lockoutCount := row.lockoutCount + 1);
        store.CreateOrUpdateUser(user, row');
        WriteCounter(Reset);
        o := LockedOutReset(row'.lockoutCount >= config.lockoutLimit);
      }
    }

    /** `/collectsave`: claim one save, at most SAVE_LIMIT and once per cooldown. */
    method CollectSave(user: UserId, now: Time) returns (o: ClaimOutcome)
      modifies store
      ensures var c := Claim(config, RowOrDefault(old(store.userData), user, now), now);
              o == c.0 && store.userData == old(store.userData)[user := c.1]
      ensures store.globalState == old(store.globalState)
      ensures config.saveLimit >= 1 && old(SavesBounded(config, store.userData)) ==> SavesBounded(config, store.userData)
    {
      var row := store.GetOrCreateUser(user, now);
      var since := now - row.lastCollected;
      if since < config.saveCooldownHours * Hour {
        return OnCooldown(config.saveCooldownHours * Hour - since);
      }
      if row.saves >= config.saveLimit {
        return AtLimit;
      }
      var row' := row.(saves := row.saves + 1, lastCollected := now);
      store.CreateOrUpdateUser(user, row');
      o := Collected(row'.saves);
    }

    /** `/save`: the user's number of saves. A user without a row gets the default row stored,
        which starts their `/collectsave` cooldown and their decay clock; a stored row is left
        as it is. */
    method CheckSaves(user: UserId, now: Time) returns (saves: int)
      modifies store
      ensures saves == RowOrDefault(old(store.userData), user, now).saves
      ensures user in old(store.userData) ==> store.userData == old(store.userData)
      ensures user !in old(store.userData) ==> saves == 1 && store.userData == old(store.userData)[user := DefaultRow(now)]
      ensures store.globalState == old(store.globalState)
      ensures config.saveLimit >= 1 && old(SavesBounded(config, store.userData)) ==> SavesBounded(config, store.userData)
    {
      var row := store.GetOrCreateUser(user, now);
      saves := row.saves;
    }

    /** `decay_saves`: one pass over a snapshot of all rows, taking a save (never below zero)
        from every user who has not claimed one for more than DECAY_DAYS. */
    method DecaySaves(now: Time)
      modifies store
      ensures store.userData == DecayAll(config, old(store.userData), now)
      ensures store.globalState == old(store.globalState)
      ensures old(SavesBounded(config, store.userData)) ==> SavesBounded(config, store.userData)
    {
      var rows := store.userData;
      var pending := rows.Keys;
      while pending != {}
        invariant pending <= rows.Keys
        invariant store.userData.Keys == rows.Keys
        invariant forall u :: u in rows && u !in pending ==> store.userData[u] == Decayed(config, rows[u], now)
        invariant forall u :: u in pending ==> store.userData[u] == rows[u]
        invariant store.globalState == old(store.globalState)
        decreases pending
      {
        SomeMember(pending);
        var u :| u in pending;
        var row := rows[u];
        if now - row.lastCollected > config.decayDays * Day {
          store.UpdateSaves(u, if row.saves - 1 > 0 then row.saves - 1 else 0);
        }
        pending := pending - {u};
      }
      assert forall u :: u in rows ==> store.userData[u] == DecayAll(config, rows, now)[u];
    }
  }
}
