# Counting-game bot: a Dafny model

This project models the game logic of a Discord community bot (`bot.py`) and its PostgreSQL
store (`database.py`):

- **The counting game.** Members take turns typing the next integer in one channel. Several
  rules apply:
  - after a reset the next number is 1;
  - nobody may count twice in a row;
  - a mistake costs a *save*, and with no save left it resets the count;
  - a wrong number with no save also locks the user out for `LOCKOUT_HOURS`;
  - `LOCKOUT_LIMIT` lockouts earn a "bad counter" role;
  - the highest number ever accepted is kept as the record.
- **The save economy.** `/collectsave` grants one save per `SAVE_COOLDOWN_HOURS`, up to
  `SAVE_LIMIT`. A daily job takes one save, never below zero, from every user who has not
  collected one for more than `DECAY_DAYS`.
- **Start-up and persistence.** `on_ready` loads the counting channel, the current count and
  the last counter from the store's `global_state` table. Every change to the counter is
  written back through `set_global_state`.
- **Excessive-ping detection.** Each mentioned user has a window of recent pings. The window
  is pruned to the last `TIME_FRAME` seconds. When it reaches `PING_LIMIT` entries it raises
  an alert and is emptied.
- **The booster role.** An extra role follows "boosting and not muted".
- **The countdown's whole-month count** (`calculate_total_months`).

## Module layout

- `wrappers.dfy` (`Wrappers`): `Option` and `Result`. `Result` carries Python's `ValueError`.
- `decimal.dfy` (`Decimal`): integers as decimal text, as `str(int)` writes them and
  `int(str)` reads them. Includes the round-trip proof.
- `store.dfy` (`Store`): `database.py`. This is class `Store` over the two tables (two maps),
  with the record's pure specification `HighestOf`/`RaiseRecord`.
- `counting.dfy` (`Counting`):
  - the pure decision `Judge` for one message in the counting channel, with the source's
    cascade of checks;
  - `Claim`, `Decayed` and `DecayAll` for the save economy;
  - `Load` for `on_ready`;
  - class `CountingGame`, which holds `current_count`/`last_counter_id` and writes through
    to the store. Its methods are proved against the pure functions.
- `pings.dfy` (`Pings`): the pure `Prune`/`Mention`/`MentionAll`, and class `PingMonitor`,
  which updates the window table in place.
- `booster.dfy` (`Booster`): the role calls of `on_member_update`, and what they leave.
- `countdown.dfy` (`Countdown`): `calculate_total_months`.
- `dispatch.dfy` (`Dispatch`): the routing at the top of `on_message`.

## Modelling decisions

- **Time.** Times are whole seconds (`int`). An hour is 3600 and a day is 86400. Clocks are
  parameters: one `now` stands for `current_time()` and for `get_or_create_user`'s `utcnow()`
  in the same handler.
- **Ids.** User and channel ids are unbounded integers.
- **Number parsing.** The message text reaches the game already parsed: `Some(n)` when
  Python's `int()` would succeed, `None` when it raises `ValueError`. Stored values are parsed
  with `Decimal.ParseInt`, which accepts an optional `-` followed by ASCII digits.
- **An unreadable record.** `get_highest_count` raises `ValueError` on a stored record that is
  not an integer. In the counting branch of `on_message` that exception is caught by the
  surrounding `except ValueError` (bot.py:454-455). This happens after the counter has already
  moved on, so the model returns `Accepted(newRecord := false)`, and neither the record nor
  anything else further changes.
- **A partial start-up load.** In `on_ready` an unreadable stored value raises part-way.
  - The assignments made before it stand.
  - The later ones keep the process's initial values: no channel, count 1, no last counter.
  - `Load` reports this with its `complete` flag.
  - The exception also ends the rest of `on_ready` (bot.py:705-716). The `/count_channel` and
    `/collectsave` commands are then never registered, and the decay job never starts. The
    model does not capture this: its `CountingGame` methods stay callable after a partial load.
  - The countdown setup before the load (bot.py:640-656) can end `on_ready` even earlier, with
    nothing loaded at all; see the `Counting.CountingGame.Start` line under "Left out".
- **A count of 0 or below.** This can only come from a stored `current_count` of "0" or a
  negative value. Accepting 0 moves the count to 1, and at 1 the consecutive-turn check is off
  (bot.py:369), so the same user may count again. `Counting.SecondTurnPenalised` therefore
  requires a count other than 0.
- **The bad-counter role.** It is due on every lockout after which
  `lockout_count >= LOCKOUT_LIMIT` (bot.py:438), not only on the first such lockout. `Judge`
  records it in the same way.
- **The saves bound.** Saves stay within [0, SAVE_LIMIT] only when `SAVE_LIMIT >= 1`, because a
  new row starts with 1 save (database.py:84). The model's saves-bound properties carry that
  premise.

## Model

| member | source | states |
|---|---|---|
| Decimal.NatToString | bot.py:401 | the decimal numeral of a natural number is non-empty and all digits, with no leading zero |
| Decimal.IntToString | bot.py:401-402 | `str(n)`: a non-empty numeral that starts with `-` exactly when n is negative (read back by `IntRoundTrip`) |
| Decimal.ParseInt | bot.py:690-700 | `int(s)` on stored text: a run of ASCII digits reads as its value, a leading `-` before one negates it, and every other text, the empty one included, is refused |
| Decimal.IntRoundTrip | database.py:45-58 | reading back what `str(n)` wrote gives `n`, for every integer |
| Decimal.ZeroNumeral | bot.py:698-702 | the numeral "0" is written for 0 and for no other id, so it can serve as the "no last counter" sentinel |
| Store.DefaultRow | database.py:81-84 | a new user's row: one save, collected now, no lockout, no lockouts counted |
| Store.RowOrDefault | database.py:79-86 | the row of a known user is the stored one; an unknown user gets the default row |
| Store.HighestOf | database.py:45-48 | the record reads as 0 when absent or empty, as the stored integer otherwise, and fails exactly when the stored text is not an integer |
| Store.RaiseRecord | database.py:50-60 | an unreadable record raises before any write; otherwise the reply is whether n beats the record; nothing is written unless it does; no other key changes |
| Store.RecordNeverDecreases | database.py:50-60 | after `update_highest_count(n)` the record reads as the larger of the old record and `n`; it is reported new exactly when `n` beats it; no other key changes |
| Store.Store.constructor | database.py:11-29 | the database starts with both tables empty |
| Store.Store.GetGlobalState | database.py:32-35 | returns the stored value exactly when the key is present, None otherwise |
| Store.Store.SetGlobalState | database.py:37-43 | upsert: the key reads back as the new value and every other key is unchanged |
| Store.Store.GetHighestCount | database.py:45-48 | returns what `HighestOf` specifies for the current table |
| Store.Store.UpdateHighestCount | database.py:50-60 | the new table and the reply are `RaiseRecord` of the old table; a readable record never decreases |
| Store.Store.GetUser | database.py:62-65 | returns the row exactly when the user is present |
| Store.Store.CreateOrUpdateUser | database.py:67-77 | replaces all fields of one user's row and leaves every other row alone |
| Store.Store.UpdateSaves | bot.py:322 | changes only the saves of an existing row; a missing row is not created |
| Store.Store.GetOrCreateUser | database.py:79-86 | returns the stored or default row, and that row is then stored for the user |
| Counting.Judge | bot.py:344-455 | the check cascade, each outcome with the exact condition that yields it: a locked user's number gets the time left; a non-number is ignored; after a reset only 1 is taken; a second turn in a row costs a save, or with none ruins the count; exactly the expected number from someone else is accepted and moves the count on by one; a wrong number costs a save when there is one, and otherwise locks the user out for LOCKOUT_HOURS, counts one more lockout, resets the count and grants the role from LOCKOUT_LIMIT on; saves change only when one is spent |
| Counting.JudgeKeepsSavesBounded | bot.py:369-434 | a submission keeps a user's saves within [0, SAVE_LIMIT] |
| Counting.ReplayGapless | bot.py:362-436 | over any run of submissions, the numbers accepted since the last reset are exactly 1, 2, ..., count - 1 |
| Counting.SecondTurnPenalised | bot.py:369-394 | right after their own accepted number, a user's next number is penalised, right or wrong |
| Counting.ConsecutiveScenario | bot.py:369-402 | from 1, A sends 1 then 2: a save is lost and 2 is still due, or with no save the count is reset |
| Counting.LockoutScenario | bot.py:409-436 | with 5 due and no save, a 7 locks the user out, counts a lockout and resets the count |
| Counting.Shown | bot.py:348-350 | hours and minutes of a waiting time, with at most a minute left over (the corrected display) |
| Counting.ShownAsWritten | bot.py:348-350 | the display as written, from `timedelta.seconds`, never shows 24 hours or more |
| Counting.ShownAsWrittenDropsDays | bot.py:348-350 | 25 hours still to wait are shown as 1 hour by the written display, as 25 by the corrected one |
| Counting.ShownAgreesBelowDay | bot.py:236-238 | below one day the written and corrected displays agree |
| Counting.Claim | bot.py:228-258 | refused while within the cooldown, with exactly the seconds left until it ends; refused at SAVE_LIMIT; otherwise one more save and `last_collected` set to now; a refused claim changes nothing; a bounded balance stays bounded |
| Counting.FirstCheckStartsCooldown | bot.py:260-265 | a user's first `/save` stores a row collected at that moment, so a `/collectsave` within the cooldown after it is refused and changes nothing |
| Counting.ClaimTwiceWithinCooldown | bot.py:233-242 | a second claim within the cooldown of a successful one is refused and changes nothing |
| Counting.Decayed | bot.py:319-322 | a user idle for more than DECAY_DAYS loses one save, never going below 0; anyone else is unchanged; only saves ever change |
| Counting.DecayAll | bot.py:313-322 | the decay job keeps every user and applies `Decayed` to each |
| Counting.StoreRowKeepsSavesBounded | bot.py:372-377 | storing a bounded row keeps every balance bounded |
| Counting.EncodeLast | bot.py:391-402 | `last_counter_id` is stored as "0" exactly for no last counter (or the impossible id 0), and any id reads back as itself |
| Counting.WriteRound | bot.py:389-392 | the two counter writes: the count reads back as itself, the last counter is stored as `EncodeLast`, and no other key changes |
| Counting.Load | bot.py:689-702 | `on_ready`'s load completes exactly when every stored value it converts is an integer; an unreadable channel stops it before any assignment; an absent channel means none; an absent or unreadable count means 1, and a readable one is kept even when the last counter then fails; "0" or an absent key means no last counter; after a failure the values not yet reached keep their initial settings |
| Counting.PersistReloads | bot.py:389-436 | after any submission the store loads back as the new counter and the same channel, so a restart resumes where the game is |
| Counting.PersistRecord | bot.py:404-407 | after any submission the record reads as the larger of the old record and the accepted number |
| Counting.LoadAfterWriteRound | bot.py:689-702 | after the two counter writes, a restart loads exactly that counter (any last counter other than id 0) and the same channel |
| Counting.LoadIgnoresRecord | bot.py:689-702 | writing the record does not change what a restart loads |
| Counting.LoadAfterSetChannel | bot.py:217-220 | after `/count_channel`, a restart loads the new channel and the same counter |
| Counting.CountingGame.Start | bot.py:689-702 | `on_ready` sets the channel, count and last counter to what `Load` specifies, and a complete load leaves memory and store in agreement |
| Counting.CountingGame.SetCountChannel | bot.py:217-221 | sets and persists the channel; the counter and the users are unchanged; memory and store stay in agreement |
| Counting.CountingGame.WriteCounter | bot.py:389-392 | sets the counter and writes both of its keys; memory and store stay in agreement |
| Counting.CountingGame.Submit | bot.py:336-458 | the outcome, the new counter, the user's new row and the new global state are those `Judge` decides, on the stored or default row; memory and store stay in agreement; the channel is unchanged; bounded saves stay bounded |
| Counting.CountingGame.Respond | bot.py:344-455 | the same, for a user whose row is already stored |
| Counting.CountingGame.CollectSave | bot.py:228-258 | the outcome and the stored row are `Claim` on the stored or default row; global state is unchanged; bounded saves stay bounded |
| Counting.CountingGame.CheckSaves | bot.py:260-265 | `/save` reports the saves of the stored or default row; a stored row is left as it is, a user without one gets the default row stored; global state is unchanged; bounded saves stay bounded |
| Counting.CountingGame.DecaySaves | bot.py:312-322 | the user table becomes `DecayAll` of the snapshot; global state is unchanged; bounded saves stay bounded |
| Pings.Prune | bot.py:468-469 | keeps, in their order, only pings at most TIME_FRAME seconds old, and every recent one |
| Pings.PruneKeepsCopies | bot.py:468-469 | every recent ping is kept as many times as it occurs and every stale one is dropped, so the window's length counts all recent pings |
| Pings.Mention | bot.py:463-490 | only the target's window changes; what stays is recent and in order; an alert fires exactly when the pruned window reaches PING_LIMIT, lists its pingers and empties the window; a window afterwards is below the limit |
| Pings.AlertAtLimit | bot.py:465-490 | PING_LIMIT mentions within TIME_FRAME raise the alert with PING_LIMIT pingers and leave the window empty |
| Pings.MentionAll | bot.py:461-490 | one result for each mention of the message |
| Pings.MentionAllWindows | bot.py:461-490 | after a message, users it did not mention keep their windows, every mentioned window holds only recent pings, and no window reaches the limit |
| Pings.PingMonitor.constructor | bot.py:66 | the windows start empty |
| Pings.PingMonitor.OnMention | bot.py:463-490 | the window table and the result are those `Mention` specifies; windows stay below the limit |
| Pings.PingMonitor.OnMentions | bot.py:461-490 | the window table and the results are those `MentionAll` specifies; unmentioned windows are untouched |
| Booster.BoosterActions | bot.py:103-145 | no role call without the role; at most two calls; each add or remove is decided on the pre-update snapshot |
| Booster.HoldsAfter | bot.py:112-145 | whether the role is held after the calls depends only on the last call |
| Booster.BoosterHeld | bot.py:101-145 | a muted member ends without the role; an unmuted booster ends with it; stopping boosting removes it; otherwise the role is left as it was |
| Booster.DoubleAddOnBoostStart | bot.py:112-145 | starting to boost unmuted without the role adds it twice, and the member ends with it |
| Booster.BoosterSettled | bot.py:101-145 | handling the resulting state again makes no role call |
| Countdown.TotalMonths | bot.py:626-627 | the result is the largest k such that k months after the start, on the same day, is not later than the end |
| Countdown.TotalMonthsUnique | bot.py:626-627 | no other k meets both conditions |
| Dispatch.Bot.OnMessage | bot.py:326-492 | a bot's message does nothing; a message in the counting channel acts as `Submit` and leaves the ping windows alone; any other message acts as `OnMentions` and leaves the game and store alone; memory and store stay in agreement, and the saves and window bounds are kept |

## Findings

| source | as written | input that shows it | evidently intended | confidence | as-written member | corrected member |
|---|---|---|---|---|---|---|
| bot.py:348-350 | the lockout reply computes hours and minutes from `remaining_time.seconds`, which leaves out whole days (the cooldown reply at bot.py:236-238 does the same) | LOCKOUT_HOURS = 48 and a lock with 25 hours left: the reply says 1 hour(s) and 0 minute(s) | the full remaining time, 25 hours | medium, not executed | Counting.ShownAsWritten, Counting.ShownAsWrittenDropsDays | Counting.Shown |

`Judge`'s `LockedOut` outcome and `Claim`'s `OnCooldown` outcome carry the exact seconds
left. The text of the reply is not modelled.

## Left out

- Discord I/O: reactions, reply texts, embeds, role assignment calls, fetching members and
  roles, and the audit message of `log_bad_counter`. Outcomes say what would be sent. For
  the bad-counter role, the model records only that it is due, not whether the member and
  role were found.
- `bot.process_commands` and the slash-command registration, the reply texts of `/save` and
  `/count_record`, and the record progress percentage. `/count_record` only reads the
  record, and the percentage is a float. `/save` is modelled by
  `Counting.CountingGame.CheckSaves`, which creates the row lazily as `get_or_create_user`
  does.
- The administrator permission check on `/count_channel`. It is enforced by the library
  before the handler runs.
- Caching of media attachments, the deleted-message log, the reaction logs, `/ping` (uptime
  and system information), `/listboosters` and its button view. These are pure I/O with no
  game state.
- The countdown message loop, `relativedelta`'s days/hours/minutes breakdown and the stored
  countdown message id. Only the whole-month count is modelled.
- Counting.CountingGame.Start: the model assumes that `on_ready` reaches the load at
  bot.py:690-702. In the source, the countdown setup at bot.py:640-656 runs first and can end
  the handler before then. If the countdown channel is not found, `get_channel` returns None
  and the `fetch_message` or `send` call on it raises `AttributeError`. If the stored
  `countdown_message_id` is text `int()` cannot read, the `ValueError` at bot.py:650 escapes,
  because only `discord.NotFound` is caught. Either way nothing is loaded: the channel stays
  None, so the game ignores every message, no cogs are added and the decay job never starts.
- Countdown.TotalMonths: the time of day of `now` is not modelled. The source compares only
  year, month and day.
- Scheduling (`tasks.loop`, `asyncio` tasks), the connection pool, SQL text, `init_db`'s
  schema creation and environment loading. Configuration is the `Config` value and the
  monitor's constants.
- Concurrency and the atomicity of the sequential store writes. Handlers are modelled as run
  one at a time, to completion, and store writes never fail.
- Python `int()` syntax beyond an optional `-` and ASCII digits: surrounding whitespace, `+`,
  underscores and non-ASCII digits.
- Integer widths: the BIGINT/INTEGER columns are modelled as unbounded integers.
- Every Discord call is modelled as succeeding. In the source a failing reaction, reply or
  alert aborts the handler part-way, before the writes that follow it:
  - on the ruin path the reply (bot.py:385-388) comes before the reset (389-392);
  - on the accept path the reaction (398) comes before the increment (399-402);
  - on the wrong-number path the reaction (410) comes before the save is spent (411-418) and
    before the lockout writes (425-436);
  - a failing alert build or send (487-489) skips the clear at 490.
- Sub-second time. The microsecond gap between the handler's clock and
  `get_or_create_user`'s `utcnow()` is not modelled; with SAVE_COOLDOWN_HOURS = 0 it could
  decide a claim.
- Pings.PingMonitor.OnMentions: every mention of one message is stamped with the same `now`.
  The source reads `time.time()` again for each mention.
- A failing `int(MUTED_ROLE_ID)` in `on_member_update`, and failures of the role calls, which
  the source logs and ignores. `BoosterHeld` assumes each call succeeds.
- A second run of `on_ready`, which would start from the values already in memory rather
  than the initial ones.
- Counting.CountingGame.Submit: memory and store are proved to stay in agreement only for
  user ids other than 0, because the stored sentinel "0" cannot tell user 0 from "no last
  counter". Discord ids are never 0.
- Counting.CountingGame.Start: memory and store are proved to agree only when the load is
  complete. After a partial load the source's state also disagrees with the store.
- Pings.MentionAll: its own contract states only the number of results. The windows'
  properties are proved in `Pings.MentionAllWindows`.
