/**
 * The message dispatcher (the `messageCreate` event): a chain of early exits (bot or
 * direct-message filter, prefix, tokenising, command resolution, channel restriction,
 * permissions) followed by the per-command, per-user cooldown table and the hand-over
 * to the command's handler. The clock, the member's channel permissions and the
 * guild's channel cache are parameters; replies are outcome values.
 */
module Dispatch {
  import opened Wrappers
  import opened JsText
  import opened Platform
  import opened Registry
  import opened Store

  /** The parts of an inbound message the dispatcher reads. */
  datatype Message = Message(
    authorId: string,
    authorBot: bool,
    guildId: Option<string>,
    channelId: string,
    content: string)

  datatype Outcome =
    | Ignored
    | Restricted(channelId: string)
    | Denied
    | OnCooldown(name: string, waitMs: int)
    | Run(command: Command, token: string, args: seq<string>)

  // ---------------------------------------------------------------- tokenising

  /** `content.slice(prefix.length).trim().split(/ +/)`. */
  function Pieces(content: string): (r: seq<string>)
    requires StartsWith(content, Prefix)
    ensures |r| >= 1 && forall i :: 0 <= i < |r| ==> ' ' !in r[i]
  {
    Split(Trim(content[|Prefix|..]))
  }

  /** The command token: the first piece, lower-cased. */
  function Token(content: string): (t: string)
    requires StartsWith(content, Prefix)
    ensures ' ' !in t
  {
    var t := ToLower(Pieces(content)[0]);
    assert forall i :: 0 <= i < |t| ==> t[i] == LowerChar(Pieces(content)[0][i]);
    t
  }

  /** The arguments: the remaining pieces, with their case kept. */
  function Args(content: string): (args: seq<string>)
    requires StartsWith(content, Prefix)
    ensures forall i :: 0 <= i < |args| ==> ' ' !in args[i]
  {
    Pieces(content)[1..]
  }

  /**
   * The token is the lower-cased text after the prefix up to the first space, once the
   * surrounding whitespace is trimmed; the arguments are the remaining pieces, unchanged,
   * so they keep their case.
   */
  lemma TokenIsFirstWord(content: string)
    requires StartsWith(content, Prefix)
    ensures Token(content) == ToLower(TakeWord(Trim(content[|Prefix|..])))
    ensures [Pieces(content)[0]] + Args(content) == Pieces(content)
  {
    SplitFirst(Trim(content[|Prefix|..]));
  }

  // ---------------------------------------------------------------- the checks

  /**
   * The channel that blocks the command, if any: the command has a category, the guild
   * restricts that category to a channel, the message is elsewhere, and the restricted
   * channel still exists. A restriction to a channel that has since been deleted lets the
   * command through.
   */
  function Blocking(settings: SettingsView, category: string, channelId: string, cached: set<string>): (r: Option<string>)
    ensures r.Some? <==>
      && category != ""
      && Truthy(settings.RestrictedChannel(category))
      && channelId != settings.RestrictedChannel(category).value
      && settings.RestrictedChannel(category).value in cached
    ensures r.Some? ==> r.value == settings.RestrictedChannel(category).value
  {
    var restricted := settings.RestrictedChannel(category);
    if category != "" && Truthy(restricted) && channelId != restricted.value && restricted.value in cached
    then Some(restricted.value)
    else None
  }

  /**
   * The permission check: the developer, and a command without required permissions, pass;
   * anyone else needs the channel permissions to be known and to hold EVERY listed flag.
   */
  predicate Permitted(authorId: string, required: seq<Permission>, granted: Option<set<Permission>>) {
    || required == []
    || authorId == DeveloperId
    || (granted.Some? && forall p :: p in required ==> p in granted.value)
  }

  /** Holding one of two required flags is not enough. */
  lemma EveryPermissionNeeded(authorId: string, required: seq<Permission>, granted: set<Permission>, p: Permission)
    requires authorId != DeveloperId && p in required && p !in granted
    ensures !Permitted(authorId, required, Some(granted))
    ensures required == [ManageChannels, ManageGuild] && p == ManageGuild && ManageChannels in granted ==>
      !Permitted(authorId, required, Some(granted))
  {
  }

  /**
   * Everything up to the cooldown table, once the message has passed the bot/guild filter:
   * the prefix, resolution by name then alias, the restriction check, the permission check.
   * `Run` means the command goes on to the cooldown table.
   */
  function Precheck(settings: SettingsView, commands: seq<Command>, msg: Message,
                    granted: Option<set<Permission>>, cached: set<string>): (r: Outcome)
    ensures !r.OnCooldown?
    ensures !StartsWith(msg.content, Prefix) ==> r == Ignored
    ensures StartsWith(msg.content, Prefix) && Resolve(commands, Token(msg.content)).None? ==> r == Ignored
    ensures r.Restricted? <==>
      && StartsWith(msg.content, Prefix) && Resolve(commands, Token(msg.content)).Some?
      && Blocking(settings, Resolve(commands, Token(msg.content)).value.category, msg.channelId, cached).Some?
    ensures r.Denied? <==>
      && StartsWith(msg.content, Prefix) && Resolve(commands, Token(msg.content)).Some?
      && Blocking(settings, Resolve(commands, Token(msg.content)).value.category, msg.channelId, cached).None?
      && !Permitted(msg.authorId, Resolve(commands, Token(msg.content)).value.permissions, granted)
    ensures r.Run? ==>
      && StartsWith(msg.content, Prefix)
      && Resolve(commands, Token(msg.content)) == Some(r.command)
      && r.token == Token(msg.content) && r.args == Args(msg.content)
      && Permitted(msg.authorId, r.command.permissions, granted)
  {
    if !StartsWith(msg.content, Prefix) then Ignored
    else
      var token := Token(msg.content);
      match Resolve(commands, token)
      case None => Ignored
      case Some(c) =>
        match Blocking(settings, c.category, msg.channelId, cached)
        case Some(ch) => Restricted(ch)
        case None =>
          if !Permitted(msg.authorId, c.permissions, granted) then Denied
          else Run(c, token, Args(msg.content))
  }

  /**
   * The guild's own prefix is read but plays no part: only the global prefix is compared,
   * so two guilds that differ only in their prefix see the same outcome.
   */
  lemma GuildPrefixIgnored(settings: SettingsView, prefix: string, commands: seq<Command>, msg: Message,
                           granted: Option<set<Permission>>, cached: set<string>)
    ensures Precheck(settings.(prefix := prefix), commands, msg, granted, cached)
         == Precheck(settings, commands, msg, granted, cached)
  {
    if StartsWith(msg.content, Prefix) && Resolve(commands, Token(msg.content)).Some? {
      var c := Resolve(commands, Token(msg.content)).value;
      assert settings.(prefix := prefix).RestrictedChannel(c.category) == settings.RestrictedChannel(c.category);
    }
  }

  /**
   * With the games category restricted to channel `x` and `x` still present, a games
   * command sent in any other channel is refused, whoever sends it.
   */
  lemma RestrictionRejects(settings: SettingsView, commands: seq<Command>, msg: Message,
                           granted: Option<set<Permission>>, cached: set<string>, x: string)
    requires StartsWith(msg.content, Prefix)
    requires Resolve(commands, Token(msg.content)).Some?
    requires Resolve(commands, Token(msg.content)).value.category == "games"
    requires settings.RestrictedChannel("games") == Some(x) && x != "" && x in cached && msg.channelId != x
    ensures Precheck(settings, commands, msg, granted, cached) == Restricted(x)
  {
  }

  // ---------------------------------------------------------------- cooldowns

  /** `(command.cooldown || defaultCooldown) * 1000`: a cooldown of 0 falls back to the default. */
  function CooldownMs(cooldown: nat): (ms: nat)
    ensures ms >= 1000
    ensures cooldown != 0 ==> ms == cooldown * 1000
    ensures cooldown == 0 ==> ms == DefaultCooldown * 1000
  {
    (if cooldown != 0 then cooldown else DefaultCooldown) * 1000
  }

  /** The last accepted invocation of `name` by `userId`, if the table holds one. */
  function Stamp(stamps: map<string, map<string, int>>, name: string, userId: string): Option<int> {
    if name in stamps && userId in stamps[name] then Some(stamps[name][userId]) else None
  }

  /** The timestamps of one command; the table creates an empty collection on first use. */
  function TimestampsOf(stamps: map<string, map<string, int>>, name: string): map<string, int> {
    if name in stamps then stamps[name] else map[]
  }

  /** Whether a call at `now` falls inside the window opened by the last accepted one. */
  predicate Cooling(stamps: map<string, map<string, int>>, name: string, userId: string, now: int, cooldown: nat) {
    Stamp(stamps, name, userId).Some? && now < Stamp(stamps, name, userId).value + CooldownMs(cooldown)
  }

  /**
   * One pass through the cooldown table: a call inside the window is refused with the time
   * left and leaves the table as it was; any other call records `now` for this user and
   * command and nothing else.
   */
  function CooldownStep(stamps: map<string, map<string, int>>, name: string, userId: string, now: int, cooldown: nat)
    : (r: (Option<int>, map<string, map<string, int>>))
    ensures r.0.Some? <==> Cooling(stamps, name, userId, now, cooldown)
    ensures r.0.Some? ==> r.1 == stamps && r.0.value == Stamp(stamps, name, userId).value + CooldownMs(cooldown) - now
    ensures r.0.Some? ==> r.0.value > 0
    ensures r.0.None? ==> Stamp(r.1, name, userId) == Some(now)
    ensures r.0.None? ==> forall n, u :: (n != name || u != userId) ==> Stamp(r.1, n, u) == Stamp(stamps, n, u)
    ensures r.1.Keys == stamps.Keys + {name}
  {
    if Cooling(stamps, name, userId, now, cooldown) then
      (Some(Stamp(stamps, name, userId).value + CooldownMs(cooldown) - now), stamps)
    else
      (None, stamps[name := TimestampsOf(stamps, name)[userId := now]])
  }

  /**
   * Two calls of a command by one user: after a call accepted at `t0`, a call at `t1` is
   * refused exactly while `t1 < t0 + cooldown`, with a wait of at most the cooldown when
   * the clock has not gone back; once the window has passed the call is accepted again.
   */
  lemma {:induction false} CooldownWindow(stamps: map<string, map<string, int>>, name: string, userId: string,
                                         t0: int, t1: int, cooldown: nat)
    requires CooldownStep(stamps, name, userId, t0, cooldown).0.None?
    ensures var after := CooldownStep(stamps, name, userId, t0, cooldown).1;
      && (CooldownStep(after, name, userId, t1, cooldown).0.Some? <==> t1 < t0 + CooldownMs(cooldown))
      && (t0 <= t1 < t0 + CooldownMs(cooldown) ==>
            0 < CooldownStep(after, name, userId, t1, cooldown).0.value <= CooldownMs(cooldown))
  {
    var after := CooldownStep(stamps, name, userId, t0, cooldown).1;
    assert Stamp(after, name, userId) == Some(t0);
  }

  /** A refused call never moves the recorded time, so waiting is never extended by retrying. */
  lemma RefusalKeepsStamp(stamps: map<string, map<string, int>>, name: string, userId: string, now: int, cooldown: nat)
    requires Cooling(stamps, name, userId, now, cooldown)
    ensures Stamp(CooldownStep(stamps, name, userId, now, cooldown).1, name, userId) == Stamp(stamps, name, userId)
  {
  }

  /** The bot's cooldown table `client.cooldowns`: command name to user id to the last accepted time. */
  class Cooldowns {
    var stamps: map<string, map<string, int>>

    constructor ()
      ensures stamps == map[]
    {
      stamps := map[];
    }

    /** The table step of the dispatcher: create the command's collection, test, record. */
    method Check(name: string, userId: string, now: int, cooldown: nat) returns (wait: Option<int>)
      modifies this
      ensures (wait, stamps) == CooldownStep(old(stamps), name, userId, now, cooldown)
    {
      // A command's collection starts empty; it is stored together with the first timestamp.
      var timestamps := if name in stamps then stamps[name] else map[];
      var amount := CooldownMs(cooldown);
      if userId in timestamps {
        var expiration := timestamps[userId] + amount;
        if now < expiration {
          return Some(expiration - now);
        }
      }
      stamps := stamps[name := timestamps[userId := now]];
      wait := None;
    }

    /**
     * The steps after the settings fetch: the checks of `Precheck` on the fetched settings,
     * then, for a command that passes them, the cooldown table.
     */
    method Admit(settings: SettingsView, commands: seq<Command>, msg: Message,
                 granted: Option<set<Permission>>, cached: set<string>, now: int) returns (out: Outcome)
      modifies this
      ensures var pre := Precheck(settings, commands, msg, granted, cached);
        && (!pre.Run? ==> out == pre && stamps == old(stamps))
        && (pre.Run? ==>
              var step := CooldownStep(old(stamps), pre.command.name, msg.authorId, now, pre.command.cooldown);
              && stamps == step.1
              && out == (if step.0.Some? then OnCooldown(pre.command.name, step.0.value) else pre))
    {
      var pre := Precheck(settings, commands, msg, granted, cached);
      if !pre.Run? {
        return pre;
      }
      var wait := Check(pre.command.name, msg.authorId, now, pre.command.cooldown);
      if wait.Some? {
        return OnCooldown(pre.command.name, wait.value);
      }
      out := pre;
    }
  }

  // ---------------------------------------------------------------- the pipeline

  /**
   * `messageCreate.execute` up to the handler call. Bot messages and direct messages are
   * dropped before anything is read. Every other message fetches (and so may create) the
   * guild's settings record before the prefix is compared. Restriction and permission
   * refusals return before the cooldown table is touched.
   */
  method Execute(db: Database, cooldowns: Cooldowns, commands: seq<Command>, msg: Message,
                 granted: Option<set<Permission>>, cached: set<string>, now: int) returns (out: Outcome)
    requires db.Valid()
    modifies db, cooldowns
    ensures db.Valid() && db.users == old(db.users)
    ensures forall g :: db.SettingsOf(g) == old(db.SettingsOf(g))
    ensures msg.authorBot || msg.guildId.None? ==>
      out == Ignored && db.guildSettings == old(db.guildSettings) && cooldowns.stamps == old(cooldowns.stamps)
    ensures !msg.authorBot && msg.guildId.Some? ==>
      var pre := Precheck(old(db.SettingsOf(msg.guildId.value)), commands, msg, granted, cached);
      && msg.guildId.value in db.guildSettings
      && (!pre.Run? ==> out == pre && cooldowns.stamps == old(cooldowns.stamps))
      && (pre.Run? ==>
            var step := CooldownStep(old(cooldowns.stamps), pre.command.name, msg.authorId, now, pre.command.cooldown);
            && cooldowns.stamps == step.1
            && out == (if step.0.Some? then OnCooldown(pre.command.name, step.0.value) else pre))
  {
    if msg.authorBot || msg.guildId.None? {
      return Ignored;
    }
    var settings := db.GetGuildSettings(msg.guildId.value);
    out := cooldowns.Admit(settings.View(), commands, msg, granted, cached, now);
  }
}
