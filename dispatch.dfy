/** The routing at the top of bot.py's `on_message`: messages from bots are dropped, messages in
    the counting channel go to the counting game, and all others feed the ping windows. */
module Dispatch {
  import opened Wrappers
  import opened Store
  import opened Counting
  import opened Pings

  /** An incoming message; `number` is its text read as an integer, None when it is not one. */
  datatype Message = Message(author: UserId, fromBot: bool, channel: ChannelId, number: Option<int>,
                             mentions: seq<UserId>)

  datatype Handled = FromBot | Counted(outcome: Outcome) | Pinged(results: seq<PingResult>)

  class Bot {
    const game: CountingGame
    const monitor: PingMonitor

    constructor (game: CountingGame, monitor: PingMonitor)
      ensures this.game == game && this.monitor == monitor
    {
      this.game := game;
      this.monitor := monitor;
    }

    /** One message. `logChannelFound` says whether the ping-alert channel can be fetched. */
    method OnMessage(msg: Message, now: Time, logChannelFound: bool) returns (h: Handled)
      modifies game, game.store, monitor
      ensures msg.fromBot ==> h == FromBot
      ensures msg.fromBot || old(game.countChannel) != Some(msg.channel) ==>
                unchanged(game) && unchanged(game.store)
      ensures msg.fromBot || old(game.countChannel) == Some(msg.channel) ==> unchanged(monitor)
      ensures !msg.fromBot && old(game.countChannel) == Some(msg.channel) ==>
                var v := Judge(game.config, old(Round(game.currentCount, game.lastCounter)), msg.author,
                               RowOrDefault(old(game.store.userData), msg.author, now), msg.number, now,
                               old(HighestOf(game.store.globalState)));
                && h == Counted(v.outcome)
                && Round(game.currentCount, game.lastCounter) == v.round
                && game.store.userData == old(game.store.userData)[msg.author := v.row]
                && game.store.globalState == Persist(old(game.store.globalState), v, msg.number)
                && game.countChannel == old(game.countChannel)
      ensures msg.author != 0 && old(game.Synced()) ==> game.Synced()
      ensures monitor.pingLimit >= 1 && old(Bounded(monitor.logs, monitor.pingLimit)) ==>
                Bounded(monitor.logs, monitor.pingLimit)
      ensures game.config.saveLimit >= 1 && old(SavesBounded(game.config, game.store.userData)) ==>
                SavesBounded(game.config, game.store.userData)
      ensures !msg.fromBot && old(game.countChannel) != Some(msg.channel) ==>
                var (logs, results) := MentionAll(old(monitor.logs), msg.mentions, msg.author, now,
                                                  monitor.timeFrame, monitor.pingLimit, logChannelFound);
                h == Pinged(results) && monitor.logs == logs
    {
      if msg.fromBot {
        return FromBot;
      }
      if game.countChannel.Some? && msg.channel == game.countChannel.value {
        var o := game.Submit(msg.author, msg.number, now);
        return Counted(o);
      }
      var results := monitor.OnMentions(msg.mentions, msg.author, now, logChannelFound);
      h := Pinged(results);
    }
  }
}
