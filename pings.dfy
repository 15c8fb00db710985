/** Excessive-ping detection (the mention branch of bot.py's `on_message`): for every mentioned
    user a window of recent (time, pinger) pairs, pruned to the last TIME_FRAME seconds on each
    mention and emptied whenever it reaches PING_LIMIT entries. */
module Pings {
  import opened Wrappers
  import opened Store

  datatype Ping = Ping(time: Time, pinger: UserId)

  /** What one mention produced: nothing, or an alert listing the pingers in the window
      (`delivered` is false when the log channel could not be found). */
  datatype PingResult = Quiet | Alert(pingers: seq<UserId>, delivered: bool)

  /** `a` is `b` with some entries left out and the rest in their original order. */
  predicate Subsequence<T(==)>(a: seq<T>, b: seq<T>)
    decreases |b|
  {
    if a == [] then true
    else if b == [] then false
    else (a[0] == b[0] && Subsequence(a[1..], b[1..])) || Subsequence(a, b[1..])
  }

  /** Keep only the pings no more than `frame` seconds older than `now`. */
  function Prune(w: seq<Ping>, now: Time, frame: int): (r: seq<Ping>)
    ensures Subsequence(r, w)
    ensures forall i :: 0 <= i < |r| ==> now - r[i].time <= frame
    ensures forall i :: 0 <= i < |w| && now - w[i].time <= frame ==> w[i] in r
    ensures (forall i :: 0 <= i < |w| ==> now - w[i].time <= frame) ==> r == w
    decreases |w|
  {
    if w == [] then []
    else
      var rest := Prune(w[1..], now, frame);
      if now - w[0].time <= frame then [w[0]] + rest else rest
  }

  /** Every recent ping is kept as often as it occurs and every stale one is dropped, so the
      pruned window's length counts all recent pings. */
  lemma {:induction false} PruneKeepsCopies(w: seq<Ping>, now: Time, frame: int)
    ensures forall p :: multiset(Prune(w, now, frame))[p] == (if now - p.time <= frame then multiset(w)[p] else 0)
    decreases |w|
  {
    if w != [] {
      PruneKeepsCopies(w[1..], now, frame);
      assert w == [w[0]] + w[1..];
    }
  }

  function WindowOf(logs: map<UserId, seq<Ping>>, u: UserId): seq<Ping> {
    if u in logs then logs[u] else []
  }

  function Pingers(w: seq<Ping>): seq<UserId> {
    seq(|w|, i requires 0 <= i < |w| => w[i].pinger)
  }

  /** Every window is shorter than the limit. */
  ghost predicate Bounded(logs: map<UserId, seq<Ping>>, limit: int) {
    forall u :: u in logs ==> |logs[u]| < limit
  }

  /** One mention of `target` by `pinger` at `now`: the new table and what it produced. */
  function Mention(logs: map<UserId, seq<Ping>>, target: UserId, pinger: UserId, now: Time,
                   frame: int, limit: int, logChannelFound: bool): (res: (map<UserId, seq<Ping>>, PingResult))
    // only the target's window changes
    ensures res.0.Keys == logs.Keys + {target}
    ensures forall u :: u != target ==> Lookup(res.0, u) == Lookup(logs, u)
    // what stays in the window is recent and in its original order
    ensures forall i :: 0 <= i < |res.0[target]| ==> now - res.0[target][i].time <= frame
    ensures Subsequence(res.0[target], WindowOf(logs, target) + [Ping(now, pinger)])
    // reaching the limit raises one alert and empties the window, whether or not it was delivered
    ensures var recent := Prune(WindowOf(logs, target) + [Ping(now, pinger)], now, frame);
            && (res.1.Alert? <==> |recent| >= limit)
            && (res.1.Alert? ==> res.0[target] == [] && res.1 == Alert(Pingers(recent), logChannelFound))
            && (res.1.Quiet? ==> res.0[target] == recent)
    ensures limit >= 1 ==> |res.0[target]| < limit
  {
    var recent := Prune(WindowOf(logs, target) + [Ping(now, pinger)], now, frame);
    if |recent| >= limit then (logs[target := []], Alert(Pingers(recent), logChannelFound))
    else (logs[target := recent], Quiet)
  }

  /** PING_LIMIT mentions within TIME_FRAME seconds trip the alert: a window already holding
      PING_LIMIT - 1 recent pings alerts on the next mention, and is then empty. */
  lemma AlertAtLimit(logs: map<UserId, seq<Ping>>, target: UserId, pinger: UserId,
                     now: Time, frame: int, limit: int, found: bool)
    requires frame >= 0 && limit >= 1
    requires |WindowOf(logs, target)| == limit - 1
    requires forall i :: 0 <= i < |WindowOf(logs, target)| ==> now - WindowOf(logs, target)[i].time <= frame
    ensures var res := Mention(logs, target, pinger, now, frame, limit, found);
            res.1.Alert? && |res.1.pingers| == limit && res.0[target] == []
  {
  }

  /** All mentions of one message, in order, by the same author at the same time. */
  function MentionAll(logs: map<UserId, seq<Ping>>, targets: seq<UserId>, pinger: UserId, now: Time,
                      frame: int, limit: int, logChannelFound: bool): (res: (map<UserId, seq<Ping>>, seq<PingResult>))
    ensures |res.1| == |targets|
    decreases |targets|
  {
    if targets == [] then (logs, [])
    else
      var prev := MentionAll(logs, targets[..|targets| - 1], pinger, now, frame, limit, logChannelFound);
      var step := Mention(prev.0, targets[|targets| - 1], pinger, now, frame, limit, logChannelFound);
      (step.0, prev.1 + [step.1])
  }

  /** After a message's mentions: users it did not mention keep their windows, every mentioned
      user's window holds only recent pings, and no window reaches the limit. */
  lemma {:induction false} MentionAllWindows(logs: map<UserId, seq<Ping>>, targets: seq<UserId>, pinger: UserId,
                                             now: Time, frame: int, limit: int, found: bool)
    ensures var m := MentionAll(logs, targets, pinger, now, frame, limit, found).0;
            && (forall u :: u !in targets ==> Lookup(m, u) == Lookup(logs, u))
            && (forall u :: u in targets ==> u in m && forall i :: 0 <= i < |m[u]| ==> now - m[u][i].time <= frame)
            && (limit >= 1 && Bounded(logs, limit) ==> Bounded(m, limit))
    decreases |targets|
  {
    if targets != [] {
      var init := targets[..|targets| - 1];
      var t := targets[|targets| - 1];
      MentionAllWindows(logs, init, pinger, now, frame, limit, found);
      var prev: map<UserId, seq<Ping>> := MentionAll(logs, init, pinger, now, frame, limit, found).0;
      var m: map<UserId, seq<Ping>> := Mention(prev, t, pinger, now, frame, limit, found).0;
      assert m == MentionAll(logs, targets, pinger, now, frame, limit, found).0;
      forall u: UserId | u !in targets
        ensures Lookup(m, u) == Lookup(logs, u)
      {
        assert u !in init && u != t;
      }
      forall u: UserId | u in targets
        ensures u in m && forall i :: 0 <= i < |m[u]| ==> now - m[u][i].time <= frame
      {
        if u != t {
          assert u in init;
          assert Lookup(m, u) == Lookup(prev, u);
        }
      }
    }
  }

  /** Handling one more mention extends the run over the earlier ones by one step. */
  lemma MentionAllStep(logs: map<UserId, seq<Ping>>, targets: seq<UserId>, k: int, pinger: UserId, now: Time,
                       frame: int, limit: int, found: bool)
    requires 0 <= k < |targets|
    ensures var prev := MentionAll(logs, targets[..k], pinger, now, frame, limit, found);
            var step := Mention(prev.0, targets[k], pinger, now, frame, limit, found);
            MentionAll(logs, targets[..k + 1], pinger, now, frame, limit, found) == (step.0, prev.1 + [step.1])
  {
    assert targets[..k + 1][..k] == targets[..k];
  }

  /** A second update of the same key overrides the first. */
  lemma UpdateTwice(m: map<UserId, seq<Ping>>, k: UserId, a: seq<Ping>, b: seq<Ping>)
    ensures m[k := a][k := b] == m[k := b]
  {
  }

  class PingMonitor {
    const timeFrame: int
    const pingLimit: int
    var logs: map<UserId, seq<Ping>>

    /** The windows start empty at every start of the process. */
    constructor (timeFrame: int, pingLimit: int)
      ensures this.timeFrame == timeFrame && this.pingLimit == pingLimit && logs == map[]
    {
      this.timeFrame := timeFrame;
      this.pingLimit := pingLimit;
      logs := map[];
    }

    /** One mention: append, prune, and alert and clear at the limit. */
    method OnMention(target: UserId, pinger: UserId, now: Time, logChannelFound: bool) returns (r: PingResult)
      modifies this
      ensures (logs, r) == Mention(old(logs), target, pinger, now, timeFrame, pingLimit, logChannelFound)
      ensures pingLimit >= 1 && old(Bounded(logs, pingLimit)) ==> Bounded(logs, pingLimit)
    {
      ghost var recent := Prune(WindowOf(logs, target) + [Ping(now, pinger)], now, timeFrame);
      if target !in logs {
        logs := logs[target := []];
      }
      logs := logs[target := logs[target] + [Ping(now, pinger)]];
      logs := logs[target := Prune(logs[target], now, timeFrame)];
      UpdateTwice(old(logs), target, [], recent);
      assert logs == old(logs)[target := recent];
      if |logs[target]| >= pingLimit {
        r := Alert(Pingers(logs[target]), logChannelFound);
        UpdateTwice(old(logs), target, recent, []);
        logs := logs[target := []];
      } else {
        r := Quiet;
      }
    }

    /** Every user mentioned by one message, in order. */
    method OnMentions(targets: seq<UserId>, pinger: UserId, now: Time, logChannelFound: bool)
      returns (results: seq<PingResult>)
      modifies this
      ensures (logs, results) == MentionAll(old(logs), targets, pinger, now, timeFrame, pingLimit, logChannelFound)
      ensures forall u :: u !in targets ==> Lookup(logs, u) == Lookup(old(logs), u)
      ensures pingLimit >= 1 && old(Bounded(logs, pingLimit)) ==> Bounded(logs, pingLimit)
    {
      results := [];
      for k := 0 to |targets|
        invariant (logs, results) == MentionAll(old(logs), targets[..k], pinger, now, timeFrame, pingLimit, logChannelFound)
      {
        MentionAllStep(old(logs), targets, k, pinger, now, timeFrame, pingLimit, logChannelFound);
        var r := OnMention(targets[k], pinger, now, logChannelFound);
        results := results + [r];
      }
      assert targets[..|targets|] == targets;
      MentionAllWindows(old(logs), targets, pinger, now, timeFrame, pingLimit, logChannelFound);
    }
  }
}
