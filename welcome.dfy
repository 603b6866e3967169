/**
 * The standalone `welcome` command: `!welcome set-channel|set-message|dm-message [value]`.
 * Every sub-command writes through the store's `setWelcomeChannel` or `setWelcomeDm`,
 * which store a message only when it is non-empty. As written, `set-message` passes no
 * channel to `setWelcomeChannel`, which always writes its channel, so changing the message
 * turns welcome messages off; the corrected sub-command passes the current channel along.
 * `channel` is the id of the mentioned channel, or else of the channel whose id is the
 * first value, when either exists.
 */
module WelcomeCommand {
  import opened Wrappers
  import opened JsText
  import opened Store

  datatype Reply =
    | Usage
    | InvalidSubcommand
    | ChannelNotFound
    | ChannelUpdated(channelShown: Option<string>, messageShown: Option<string>)
    | MessageMissing
    | MessageUpdated(message: string)
    | DmMessageMissing
    | DmUpdated(enabled: bool, dmShown: Option<string>)

  /** A reply and the guild's settings after the command. */
  datatype Outcome = Outcome(reply: Reply, after: SettingsView)

  /** What `setWelcomeChannel` does to the settings. */
  function WelcomeChannelWrite(s: SettingsView, channelId: Option<string>, message: Option<string>): SettingsView {
    s.(welcomeChannel := channelId, welcomeMessage := if Truthy(message) then message.value else s.welcomeMessage)
  }

  /** What `setWelcomeDm` does to the settings. */
  function WelcomeDmWrite(s: SettingsView, enabled: bool, message: Option<string>): SettingsView {
    s.(welcomeDmEnabled := enabled, welcomeDmMessage := if Truthy(message) then message.value else s.welcomeDmMessage)
  }

  /** `args.join(' ')`, with JavaScript's `x || null` for the empty string. */
  function NonEmpty(text: string): (r: Option<string>)
    ensures Truthy(r) <==> text != []
    ensures r.Some? ==> r.value == text
  {
    if text == [] then None else Some(text)
  }

  // ---------------------------------------------------------------- set-channel

  /**
   * `set-channel <#channel|none> [message]`: only the exact text `none` disables; the
   * message after the channel is stored only when it is non-empty.
   */
  function SetChannelSpec(s: SettingsView, args: seq<string>, channel: Option<string>): (r: Outcome)
    ensures r.reply == ChannelNotFound <==> channel.None? && (args == [] || args[0] != "none")
    ensures r.reply != ChannelNotFound ==>
      && r.reply.ChannelUpdated? && r.reply.channelShown == channel
      && r.after.welcomeChannel == (if args != [] && args[0] == "none" then None else channel)
      && (r.reply.messageShown.Some? <==> |args| > 1 && Join(args[1..], " ") != [])
      && r.after.welcomeMessage == (if r.reply.messageShown.Some? then r.reply.messageShown.value else s.welcomeMessage)
      && r.after == s.(welcomeChannel := r.after.welcomeChannel, welcomeMessage := r.after.welcomeMessage)
    ensures r.reply == ChannelNotFound ==> r.after == s
  {
    if channel.None? && (args == [] || args[0] != "none") then Outcome(ChannelNotFound, s)
    else
      var message := NonEmpty(if args == [] then "" else Join(args[1..], " "));
      var stored := if args != [] && args[0] == "none" then None else channel;
      Outcome(ChannelUpdated(channel, message), WelcomeChannelWrite(s, stored, message))
  }

  /** Unlike `!admin setwelcome`, the word `none` is matched exactly: `None` is looked up as a channel. */
  lemma NoneIsCaseSensitive(s: SettingsView)
    ensures SetChannelSpec(s, ["None"], None).reply == ChannelNotFound
    ensures SetChannelSpec(s, ["none"], None).after.welcomeChannel == None
  {
  }

  method SetChannel(db: Database, guildId: string, args: seq<string>, channel: Option<string>) returns (out: Reply)
    requires db.Valid()
    modifies db, db.guildSettings.Values
    ensures db.Valid() && db.users == old(db.users)
    ensures Outcome(out, db.SettingsOf(guildId)) == SetChannelSpec(old(db.SettingsOf(guildId)), args, channel)
    ensures forall g :: g != guildId ==> db.SettingsOf(g) == old(db.SettingsOf(g))
  {
    if channel.None? && (args == [] || args[0] != "none") {
      return ChannelNotFound;
    }
    var message := NonEmpty(if args == [] then "" else Join(args[1..], " "));
    db.SetWelcomeChannel(guildId, if args != [] && args[0] == "none" then None else channel, message);
    out := ChannelUpdated(channel, message);
  }

  // ---------------------------------------------------------------- set-message

  /** `set-message <text>` as written: the channel is overwritten with `null`. */
  function SetMessageSpecAsWritten(s: SettingsView, args: seq<string>): (r: Outcome)
    ensures r.reply == MessageMissing <==> args == []
    ensures r.reply != MessageMissing ==> r.after.welcomeChannel == None
  {
    if args == [] then Outcome(MessageMissing, s)
    else Outcome(MessageUpdated(Join(args, " ")), WelcomeChannelWrite(s, None, Some(Join(args, " "))))
  }

  /** `set-message <text>` as intended: only the message changes. */
  function SetMessageSpec(s: SettingsView, args: seq<string>): (r: Outcome)
    ensures r.reply == MessageMissing <==> args == []
    ensures r.reply == MessageMissing ==> r.after == s
    ensures r.reply != MessageMissing ==>
      && r.reply == MessageUpdated(Join(args, " "))
      && r.after == s.(welcomeMessage := if Join(args, " ") != [] then Join(args, " ") else s.welcomeMessage)
  {
    if args == [] then Outcome(MessageMissing, s)
    else Outcome(MessageUpdated(Join(args, " ")), WelcomeChannelWrite(s, s.welcomeChannel, Some(Join(args, " "))))
  }

  /**
   * The finding: with welcome messages on, changing the message as written switches them
   * off, while the intended sub-command keeps the channel; otherwise the two agree.
   */
  lemma SetMessageAsWrittenDisables(s: SettingsView, args: seq<string>)
    requires args != [] && s.welcomeChannel.Some?
    ensures SetMessageSpecAsWritten(s, args).after.welcomeChannel == None
    ensures SetMessageSpec(s, args).after.welcomeChannel == s.welcomeChannel
    ensures SetMessageSpecAsWritten(s, args).reply == SetMessageSpec(s, args).reply
    ensures SetMessageSpecAsWritten(s, args).after == SetMessageSpec(s, args).after.(welcomeChannel := None)
  {
  }

  method SetMessageAsWritten(db: Database, guildId: string, args: seq<string>) returns (out: Reply)
    requires db.Valid()
    modifies db, db.guildSettings.Values
    ensures db.Valid() && db.users == old(db.users)
    ensures Outcome(out, db.SettingsOf(guildId)) == SetMessageSpecAsWritten(old(db.SettingsOf(guildId)), args)
    ensures forall g :: g != guildId ==> db.SettingsOf(g) == old(db.SettingsOf(g))
  {
    if args == [] {
      return MessageMissing;
    }
    var message := Join(args, " ");
    db.SetWelcomeChannel(guildId, None, Some(message));
    out := MessageUpdated(message);
  }

  /** The corrected sub-command: the stored channel is passed back to `setWelcomeChannel`. */
  method SetMessage(db: Database, guildId: string, args: seq<string>) returns (out: Reply)
    requires db.Valid()
    modifies db, db.guildSettings.Values
    ensures db.Valid() && db.users == old(db.users)
    ensures Outcome(out, db.SettingsOf(guildId)) == SetMessageSpec(old(db.SettingsOf(guildId)), args)
    ensures forall g :: g != guildId ==> db.SettingsOf(g) == old(db.SettingsOf(g))
  {
    if args == [] {
      return MessageMissing;
    }
    var message := Join(args, " ");
    var current := db.SettingsOf(guildId).welcomeChannel;
    db.SetWelcomeChannel(guildId, current, Some(message));
    out := MessageUpdated(message);
  }

  // ---------------------------------------------------------------- dm-message

  /**
   * `dm-message <text|none>`: `none` in any case turns welcome DMs off and keeps the stored
   * message; any other text turns them on with that message.
   */
  function DmMessageSpec(s: SettingsView, args: seq<string>): (r: Outcome)
    ensures r.reply == DmMessageMissing <==> args == []
    ensures r.reply == DmMessageMissing ==> r.after == s
    ensures r.reply != DmMessageMissing ==>
      && r.reply.DmUpdated?
      && (r.reply.enabled <==> ToLower(Join(args, " ")) != "none")
      && r.after.welcomeDmEnabled == r.reply.enabled
      && (r.reply.enabled ==>
            && r.reply.dmShown == Some(Join(args, " "))
            && r.after == s.(welcomeDmEnabled := true,
                             welcomeDmMessage := if Join(args, " ") != [] then Join(args, " ") else s.welcomeDmMessage))
      && (!r.reply.enabled ==> r.reply.dmShown == None && r.after == s.(welcomeDmEnabled := false))
  {
    if args == [] then Outcome(DmMessageMissing, s)
    else
      var text := Join(args, " ");
      var disable := ToLower(text) == "none";
      var message := if disable then None else Some(text);
      Outcome(DmUpdated(!disable, message), WelcomeDmWrite(s, !disable, message))
  }

  /** Turning DMs off and on again with the same text leaves them on with that text. */
  lemma DmOffThenOn(s: SettingsView, off: seq<string>, on: seq<string>)
    requires off != [] && ToLower(Join(off, " ")) == "none"
    requires on != [] && ToLower(Join(on, " ")) != "none" && Join(on, " ") != []
    ensures var after := DmMessageSpec(DmMessageSpec(s, off).after, on).after;
      after == s.(welcomeDmEnabled := true, welcomeDmMessage := Join(on, " "))
  {
  }

  method DmMessage(db: Database, guildId: string, args: seq<string>) returns (out: Reply)
    requires db.Valid()
    modifies db, db.guildSettings.Values
    ensures db.Valid() && db.users == old(db.users)
    ensures Outcome(out, db.SettingsOf(guildId)) == DmMessageSpec(old(db.SettingsOf(guildId)), args)
    ensures forall g :: g != guildId ==> db.SettingsOf(g) == old(db.SettingsOf(g))
  {
    if args == [] {
      return DmMessageMissing;
    }
    var text := Join(args, " ");
    var disable := ToLower(text) == "none";
    db.SetWelcomeDm(guildId, !disable, if disable then None else Some(text));
    out := DmUpdated(!disable, if disable then None else Some(text));
  }

  // ---------------------------------------------------------------- routing

  datatype Subcommand = NoSubcommand | UnknownSubcommand | SetChannelSub | SetMessageSub | DmMessageSub

  /** The first argument, lower-cased, picks the sub-command. */
  function SubcommandOf(args: seq<string>): (r: Subcommand)
    ensures r == NoSubcommand <==> args == []
    ensures r == SetChannelSub <==> args != [] && ToLower(args[0]) == "set-channel"
    ensures r == SetMessageSub <==> args != [] && ToLower(args[0]) == "set-message"
    ensures r == DmMessageSub <==> args != [] && ToLower(args[0]) == "dm-message"
  {
    if args == [] then NoSubcommand
    else
      var sub := ToLower(args[0]);
      if sub == "set-channel" then SetChannelSub
      else if sub == "set-message" then SetMessageSub
      else if sub == "dm-message" then DmMessageSub
      else UnknownSubcommand
  }

  /** The whole command, with the corrected set-message. */
  function Spec(s: SettingsView, args: seq<string>, channel: Option<string>): (r: Outcome)
    ensures r.reply == Usage <==> args == []
    ensures r.reply == InvalidSubcommand <==> SubcommandOf(args) == UnknownSubcommand
    ensures r.reply in {Usage, InvalidSubcommand} ==> r.after == s
  {
    match SubcommandOf(args)
    case NoSubcommand => Outcome(Usage, s)
    case UnknownSubcommand => Outcome(InvalidSubcommand, s)
    case SetChannelSub => SetChannelSpec(s, args[1..], channel)
    case SetMessageSub => SetMessageSpec(s, args[1..])
    case DmMessageSub => DmMessageSpec(s, args[1..])
  }

  /** No sub-command of `welcome` touches anything but the welcome fields. */
  lemma OnlyWelcomeFields(s: SettingsView, args: seq<string>, channel: Option<string>)
    ensures var a := Spec(s, args, channel).after;
      a == s.(welcomeChannel := a.welcomeChannel, welcomeMessage := a.welcomeMessage,
              welcomeDmEnabled := a.welcomeDmEnabled, welcomeDmMessage := a.welcomeDmMessage)
  {
  }

  method Execute(db: Database, guildId: string, args: seq<string>, channel: Option<string>) returns (out: Reply)
    requires db.Valid()
    modifies db, db.guildSettings.Values
    ensures db.Valid() && db.users == old(db.users)
    ensures Outcome(out, db.SettingsOf(guildId)) == Spec(old(db.SettingsOf(guildId)), args, channel)
    ensures forall g :: g != guildId ==> db.SettingsOf(g) == old(db.SettingsOf(g))
  {
    var sub := SubcommandOf(args);
    match sub
    case NoSubcommand => out := Usage;
    case UnknownSubcommand => out := InvalidSubcommand;
    case SetChannelSub => out := SetChannel(db, guildId, args[1..], channel);
    case SetMessageSub => out := SetMessage(db, guildId, args[1..]);
    case DmMessageSub => out := DmMessage(db, guildId, args[1..]);
  }
}
