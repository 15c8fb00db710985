/** The booster-role rule of bot.py's `on_member_update`: the extra booster role follows
    "boosting and not muted", decided from one snapshot of the member after the update. */
module Booster {

  datatype RoleAction = AddBooster | RemoveBooster

  /** What the handler knows about one member update. The role list is the snapshot
      `after.roles`, which the handler does not re-read after adding or removing a role. */
  datatype MemberUpdate = MemberUpdate(
    boosterRoleFound: bool,   // the booster role exists in the guild
    wasBoosting: bool,        // `before.premium_since` is set
    isBoosting: bool,         // `after.premium_since` is set
    mutedRoleFound: bool,     // MUTED_ROLE_ID is configured and that role exists
    isMuted: bool,            // the muted role is in the snapshot
    hasBooster: bool)         // the booster role is in the snapshot

  predicate Muted(m: MemberUpdate) {
    m.mutedRoleFound && m.isMuted
  }

  /** The role calls the handler makes, in order: first the boost transition, then the mute rule. */
  function BoosterActions(m: MemberUpdate): (acts: seq<RoleAction>)
    ensures !m.boosterRoleFound ==> acts == []
    ensures |acts| <= 2
    // every call is decided on the snapshot: add only when absent there, remove only when present
    ensures forall i :: 0 <= i < |acts| ==> (acts[i] == AddBooster <==> !m.hasBooster)
  {
    if !m.boosterRoleFound then []
    else
      var onTransition :=
        if !m.wasBoosting && m.isBoosting then (if !m.hasBooster && !Muted(m) then [AddBooster] else [])
        else if m.wasBoosting && !m.isBoosting then (if m.hasBooster then [RemoveBooster] else [])
        else [];
      var onMute :=
        if Muted(m) then (if m.hasBooster then [RemoveBooster] else [])
        else if m.isBoosting && !m.hasBooster then [AddBooster]
        else [];
      onTransition + onMute
  }

  /** Whether the member holds the role after the calls; adding and removing are idempotent,
      so only the last call matters. */
  function HoldsAfter(has: bool, acts: seq<RoleAction>): (held: bool)
    ensures acts == [] ==> held == has
    ensures acts != [] ==> held == (acts[|acts| - 1] == AddBooster)
    decreases |acts|
  {
    if acts == [] then has else HoldsAfter(acts[0] == AddBooster, acts[1..])
  }

  /** Whether the member holds the booster role once the handler is done. */
  function BoosterHeld(m: MemberUpdate): (held: bool)
    ensures !m.boosterRoleFound ==> held == m.hasBooster
    // a muted member ends without the role
    ensures m.boosterRoleFound && Muted(m) ==> !held
    // a booster who is not muted ends with it
    ensures m.boosterRoleFound && !Muted(m) && m.isBoosting ==> held
    // stopping boosting removes it
    ensures m.boosterRoleFound && m.wasBoosting && !m.isBoosting ==> !held
    // with no boost and no mute the handler leaves the role as it was
    ensures m.boosterRoleFound && !m.wasBoosting && !m.isBoosting && !Muted(m) ==> held == m.hasBooster
  {
    HoldsAfter(m.hasBooster, BoosterActions(m))
  }

  /** Starting to boost while unmuted and without the role makes the handler add it twice
      (the snapshot is stale for the second check); the member ends with the role. */
  lemma DoubleAddOnBoostStart(m: MemberUpdate)
    requires m.boosterRoleFound && !m.wasBoosting && m.isBoosting && !Muted(m) && !m.hasBooster
    ensures BoosterActions(m) == [AddBooster, AddBooster] && BoosterHeld(m)
  {
  }

  /** Once handled, the same member state handled again needs no role call: the rule is settled. */
  lemma BoosterSettled(m: MemberUpdate)
    requires m.boosterRoleFound
    ensures var again := m.(wasBoosting := m.isBoosting, hasBooster := BoosterHeld(m));
            BoosterActions(again) == [] && BoosterHeld(again) == BoosterHeld(m)
  {
  }
}
