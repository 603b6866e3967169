/**
 * The `admin` command: a gate (the developer, or a member with Manage Server), then one of
 * ten sub-options. The ones that change the guild's settings are modelled: setchannel,
 * setmodlogs, custommessage, resetmessage, setwelcome, welcomedm and automod. Each is a
 * method that changes the stored settings record in place, proved against a function
 * from the settings before to the reply and the settings after.
 */
module Admin {
  import opened Wrappers
  import opened JsText
  import opened Store
  import opened Platform
  import Moderation

  const MaxMessageLength: nat := 1000
  const MessageTypes: set<string> := {"ban", "mute", "warn", "timeout"}
  const AutomodSettings: set<string> := {"enabled", "profanity", "mentions", "emojis", "spam"}
  const AdminOptions: set<string> := {
    "announce", "embed", "setchannel", "settings", "setmodlogs",
    "custommessage", "resetmessage", "setwelcome", "welcomedm", "automod"
  }

  // ---------------------------------------------------------------- routing

  datatype Route = AdminDenied | AdminHelp | UnknownOption(option: string) | Run(option: string, rest: seq<string>)

  /** `announcement` is another name for `announce`. */
  function Canonical(option: string): string {
    if option == "announcement" then "announce" else option
  }

  /** The gate, then the lower-cased sub-option. */
  function RouteAdmin(args: seq<string>, authorId: string, granted: set<Permission>): (r: Route)
    ensures r == AdminDenied <==> authorId != DeveloperId && ManageGuild !in granted
    ensures r == AdminHelp <==> (authorId == DeveloperId || ManageGuild in granted) && args == []
    ensures r.UnknownOption? <==>
      (authorId == DeveloperId || ManageGuild in granted) && args != [] && Canonical(ToLower(args[0])) !in AdminOptions
    ensures r.Run? ==> r.option == Canonical(ToLower(args[0])) && r.option in AdminOptions && r.rest == args[1..]
  {
    if authorId != DeveloperId && ManageGuild !in granted then AdminDenied
    else if args == [] then AdminHelp
    else
      var option := Canonical(ToLower(args[0]));
      if option !in AdminOptions then UnknownOption(ToLower(args[0])) else Run(option, args[1..])
  }

  /** `announce` and `announcement` reach the same handler with the same arguments. */
  lemma AnnouncementAlias(a: string, b: string, rest: seq<string>, authorId: string, granted: set<Permission>)
    requires ToLower(a) == "announce" && ToLower(b) == "announcement"
    ensures RouteAdmin([a] + rest, authorId, granted) == RouteAdmin([b] + rest, authorId, granted)
    ensures authorId == DeveloperId ==> RouteAdmin([a] + rest, authorId, granted) == Run("announce", rest)
  {
    assert ([a] + rest)[1..] == rest && ([b] + rest)[1..] == rest;
  }

  // ---------------------------------------------------------------- replies

  datatype Reply =
    | Usage
    | InvalidCategory
    | ChannelNotFound
    | InvalidType
    | TooLong
    | NothingToReset
    | NoCustomMessage(kind: string)
    | InvalidOption
    | InvalidSetting
    | InvalidValue
    | RestrictionSet(category: string, channelId: Option<string>)
    | ModLogsSet(channelId: Option<string>)
    | CustomMessageSet(kind: string, message: string, placeholders: string)
    | AllMessagesReset
    | MessageReset(kind: string)
    | WelcomeDisabled
    | WelcomeSet(welcomeChannelId: string, welcomeShown: string)
    | WelcomeDmSet(enabled: bool, dmShown: Option<string>)
    | AutomodSet(setting: string, value: string)

  /** A reply and the guild's settings after the command. */
  datatype Outcome = Outcome(reply: Reply, after: SettingsView)

  /** A message is given and its `length`, in UTF-16 code units, is over the limit. */
  predicate OverLong(args: seq<string>) {
    |args| > 1 && Utf16Length(MessageArg(args)) > MaxMessageLength
  }

  /** The message of a sub-option: the arguments after the first, joined by spaces. */
  function MessageArg(args: seq<string>): string
    requires |args| >= 1
  {
    Join(args[1..], " ")
  }

  // ---------------------------------------------------------------- setchannel

  /** `!admin setchannel <category> <channel|none>`. */
  function SetChannelSpec(s: SettingsView, args: seq<string>, channel: Option<string>): (r: Outcome)
    ensures r.reply == Usage <==> |args| < 2
    ensures r.reply == InvalidCategory <==> |args| >= 2 && ToLower(args[0]) !in RestrictableCategories
    ensures r.reply.RestrictionSet? <==>
      |args| >= 2 && ToLower(args[0]) in RestrictableCategories && (ToLower(args[1]) == "none" || channel.Some?)
    ensures r.reply.RestrictionSet? ==>
      && r.reply.category == ToLower(args[0])
      && r.reply.channelId == (if ToLower(args[1]) == "none" then None else channel)
      && r.after == s.(restrictedChannels := s.restrictedChannels[r.reply.category := r.reply.channelId])
    ensures !r.reply.RestrictionSet? ==> r.after == s
  {
    if |args| < 2 then Outcome(Usage, s)
    else
      var category := ToLower(args[0]);
      if category !in RestrictableCategories then Outcome(InvalidCategory, s)
      else
        var target := if ToLower(args[1]) == "none" then None else channel;
        if ToLower(args[1]) != "none" && channel.None? then Outcome(ChannelNotFound, s)
        else Outcome(RestrictionSet(category, target), s.(restrictedChannels := s.restrictedChannels[category := target]))
  }

  /** Setting a restriction changes only that category's channel. */
  lemma SetChannelOnlyThatCategory(s: SettingsView, args: seq<string>, channel: Option<string>, c: string)
    requires SetChannelSpec(s, args, channel).reply.RestrictionSet?
    ensures var r := SetChannelSpec(s, args, channel);
      && r.after.RestrictedChannel(r.reply.category) == r.reply.channelId
      && (c != r.reply.category ==> r.after.RestrictedChannel(c) == s.RestrictedChannel(c))
  {
  }

  method SetChannel(db: Database, guildId: string, args: seq<string>, channel: Option<string>) returns (out: Reply)
    requires db.Valid()
    modifies db, db.guildSettings.Values
    ensures db.Valid() && db.users == old(db.users)
    ensures Outcome(out, db.SettingsOf(guildId)) == SetChannelSpec(old(db.SettingsOf(guildId)), args, channel)
    ensures forall g :: g != guildId ==> db.SettingsOf(g) == old(db.SettingsOf(g))
  {
    if |args| < 2 {
      return Usage;
    }
    var category := ToLower(args[0]);
    if category !in RestrictableCategories {
      return InvalidCategory;
    }
    if ToLower(args[1]) == "none" {
      var _ := db.SetRestrictedChannel(guildId, category, None);
      return RestrictionSet(category, None);
    }
    if channel.None? {
      return ChannelNotFound;
    }
    var _ := db.SetRestrictedChannel(guildId, category, channel);
    out := RestrictionSet(category, channel);
  }

  // ---------------------------------------------------------------- setmodlogs

  /** `!admin setmodlogs <channel|none>`. */
  function SetModLogsSpec(s: SettingsView, args: seq<string>, channel: Option<string>): (r: Outcome)
    ensures r.reply == Usage <==> args == []
    ensures r.reply == ModLogsSet(None) <==> args != [] && ToLower(args[0]) == "none"
    ensures r.reply == ChannelNotFound <==> args != [] && ToLower(args[0]) != "none" && channel.None?
    ensures r.reply.ModLogsSet? ==> r.after == s.(moderationLogs := r.reply.channelId)
    ensures r.reply.ModLogsSet? && ToLower(args[0]) != "none" ==> r.reply.channelId == channel
    ensures !r.reply.ModLogsSet? ==> r.after == s
  {
    if args == [] then Outcome(Usage, s)
    else if ToLower(args[0]) == "none" then Outcome(ModLogsSet(None), s.(moderationLogs := None))
    else if channel.None? then Outcome(ChannelNotFound, s)
    else Outcome(ModLogsSet(channel), s.(moderationLogs := channel))
  }

  method SetModLogs(db: Database, guildId: string, args: seq<string>, channel: Option<string>) returns (out: Reply)
    requires db.Valid()
    modifies db, db.guildSettings.Values
    ensures db.Valid() && db.users == old(db.users)
    ensures Outcome(out, db.SettingsOf(guildId)) == SetModLogsSpec(old(db.SettingsOf(guildId)), args, channel)
    ensures forall g :: g != guildId ==> db.SettingsOf(g) == old(db.SettingsOf(g))
  {
    if args == [] {
      return Usage;
    }
    if ToLower(args[0]) == "none" {
      var s := db.GetGuildSettings(guildId);
      s.moderationLogs := None;
      db.UpdateGuildSettings(guildId, s);
      return ModLogsSet(None);
    }
    if channel.None? {
      return ChannelNotFound;
    }
    var s := db.GetGuildSettings(guildId);
    s.moderationLogs := channel;
    db.UpdateGuildSettings(guildId, s);
    out := ModLogsSet(channel);
  }

  // ---------------------------------------------------------------- custommessage

  /** The placeholders the reply lists for a message type. */
  function Placeholders(kind: string): string {
    if kind == "warn" then "`{user}`, `{reason}`, `{moderator}`, `{warning_id}`, `{total_warnings}`"
    else if kind == "timeout" then "`{user}`, `{reason}`, `{moderator}`, `{duration}`"
    else "`{user}`, `{reason}`, `{moderator}`"
  }

  /** `!admin custommessage <type> <message>`. */
  function CustomMessageSpec(s: SettingsView, args: seq<string>): (r: Outcome)
    ensures r.reply == Usage <==> |args| < 2
    ensures r.reply == InvalidType <==> |args| >= 2 && ToLower(args[0]) !in MessageTypes
    ensures r.reply == TooLong <==> |args| >= 2 && ToLower(args[0]) in MessageTypes && Utf16Length(MessageArg(args)) > MaxMessageLength
    ensures r.reply.CustomMessageSet? ==>
      && r.reply.kind == ToLower(args[0]) && r.reply.message == MessageArg(args)
      && Utf16Length(r.reply.message) <= MaxMessageLength
      && r.after == s.(customMessages := Some(s.customMessages.GetOr(map[])[r.reply.kind := r.reply.message]))
    ensures !r.reply.CustomMessageSet? ==> r.after == s
  {
    if |args| < 2 then Outcome(Usage, s)
    else
      var kind := ToLower(args[0]);
      if kind !in MessageTypes then Outcome(InvalidType, s)
      else
        var message := MessageArg(args);
        if Utf16Length(message) > MaxMessageLength then Outcome(TooLong, s)
        else Outcome(CustomMessageSet(kind, message, Placeholders(kind)),
          s.(customMessages := Some(s.customMessages.GetOr(map[])[kind := message])))
  }

  /**
   * The limit counts UTF-16 code units: a message of more than 500 emoji (each outside
   * the Basic Multilingual Plane) is refused although it has fewer than 1000 characters.
   */
  lemma {:induction false} AstralMessageRefused(s: SettingsView, args: seq<string>)
    requires |args| >= 2 && ToLower(args[0]) in MessageTypes
    requires forall i :: 0 <= i < |MessageArg(args)| ==> Astral(MessageArg(args)[i])
    requires |MessageArg(args)| > MaxMessageLength / 2
    ensures CustomMessageSpec(s, args) == Outcome(TooLong, s)
  {
    Utf16LengthAstral(MessageArg(args));
  }

  /**
   * A custom message that is set is the one the next moderation action of that type
   * uses, and the messages of the other types are kept.
   */
  lemma CustomMessageIsUsed(s: SettingsView, args: seq<string>, other: string)
    requires CustomMessageSpec(s, args).reply.CustomMessageSet?
    requires MessageArg(args) != ""
    ensures var r := CustomMessageSpec(s, args);
      && Moderation.CustomTemplate(r.after, r.reply.kind) == Some(MessageArg(args))
      && (other != r.reply.kind ==> Moderation.CustomTemplate(r.after, other) == Moderation.CustomTemplate(s, other))
  {
  }

  method CustomMessage(db: Database, guildId: string, args: seq<string>) returns (out: Reply)
    requires db.Valid()
    modifies db, db.guildSettings.Values
    ensures db.Valid() && db.users == old(db.users)
    ensures Outcome(out, db.SettingsOf(guildId)) == CustomMessageSpec(old(db.SettingsOf(guildId)), args)
    ensures forall g :: g != guildId ==> db.SettingsOf(g) == old(db.SettingsOf(g))
  {
    if |args| < 2 {
      return Usage;
    }
    var kind := ToLower(args[0]);
    if kind !in MessageTypes {
      return InvalidType;
    }
    var message := MessageArg(args);
    if Utf16Length(message) > MaxMessageLength {
      return TooLong;
    }
    WriteCustomMessage(db, guildId, kind, message);
    out := CustomMessageSet(kind, message, Placeholders(kind));
  }

  /** The accepted part of custommessage: the map is created when missing and the message stored under its type. */
  method WriteCustomMessage(db: Database, guildId: string, kind: string, message: string)
    requires db.Valid()
    modifies db, db.guildSettings.Values
    ensures db.Valid() && db.users == old(db.users)
    ensures db.SettingsOf(guildId) == old(db.SettingsOf(guildId)).(
      customMessages := Some(old(db.SettingsOf(guildId)).customMessages.GetOr(map[])[kind := message]))
    ensures forall g :: g != guildId ==> db.SettingsOf(g) == old(db.SettingsOf(g))
  {
    var s := db.GetGuildSettings(guildId);
    if s.customMessages.None? {
      s.customMessages := Some(map[]);
    }
    s.customMessages := Some(s.customMessages.value[kind := message]);
    db.UpdateGuildSettings(guildId, s);
  }

  // ---------------------------------------------------------------- resetmessage

  /** `!admin resetmessage <type|all>`. */
  function ResetMessageSpec(s: SettingsView, args: seq<string>): (r: Outcome)
    ensures r.reply == Usage <==> args == []
    ensures r.reply == InvalidType <==> args != [] && ToLower(args[0]) !in MessageTypes + {"all"}
    ensures r.reply == NothingToReset <==> args != [] && ToLower(args[0]) in MessageTypes + {"all"} && s.customMessages.None?
    ensures r.reply == AllMessagesReset ==> ToLower(args[0]) == "all" && r.after == s.(customMessages := Some(map[]))
    ensures r.reply.NoCustomMessage? ==>
      s.customMessages.Some? && Moderation.CustomTemplate(s, r.reply.kind).None? && r.reply.kind == ToLower(args[0])
    ensures r.reply.MessageReset? ==>
      && r.reply.kind == ToLower(args[0]) && s.customMessages.Some?
      && Moderation.CustomTemplate(s, r.reply.kind).Some?
      && r.after == s.(customMessages := Some(s.customMessages.value - {r.reply.kind}))
    ensures !(r.reply == AllMessagesReset || r.reply.MessageReset?) ==> r.after == s
  {
    if args == [] then Outcome(Usage, s)
    else
      var kind := ToLower(args[0]);
      if kind !in MessageTypes + {"all"} then Outcome(InvalidType, s)
      else match s.customMessages
        case None => Outcome(NothingToReset, s)
        case Some(m) =>
          if kind == "all" then Outcome(AllMessagesReset, s.(customMessages := Some(map[])))
          else if kind !in m || m[kind] == "" then Outcome(NoCustomMessage(kind), s)
          else Outcome(MessageReset(kind), s.(customMessages := Some(m - {kind})))
  }

  /**
   * Setting a message of a type that had none and then resetting that type gives back
   * the messages as they were (an empty map when there was none).
   */
  lemma ResetUndoesSet(s: SettingsView, setArgs: seq<string>, resetArgs: seq<string>)
    requires CustomMessageSpec(s, setArgs).reply.CustomMessageSet? && MessageArg(setArgs) != ""
    requires resetArgs != [] && ToLower(resetArgs[0]) == ToLower(setArgs[0])
    requires Moderation.CustomTemplate(s, ToLower(setArgs[0])).None?
    requires s.customMessages.Some? ==> ToLower(setArgs[0]) !in s.customMessages.value
    ensures var after := ResetMessageSpec(CustomMessageSpec(s, setArgs).after, resetArgs);
      && after.reply == MessageReset(ToLower(setArgs[0]))
      && after.after == s.(customMessages := Some(s.customMessages.GetOr(map[])))
  {
    var kind := ToLower(setArgs[0]);
    var m := s.customMessages.GetOr(map[]);
    assert m[kind := MessageArg(setArgs)] - {kind} == m;
  }

  /** After a reset of one type the next moderation action of that type falls back to the built-in message. */
  lemma ResetFallsBack(s: SettingsView, args: seq<string>)
    requires ResetMessageSpec(s, args).reply.MessageReset?
    ensures Moderation.CustomTemplate(ResetMessageSpec(s, args).after, ToLower(args[0])).None?
  {
  }

  method ResetMessage(db: Database, guildId: string, args: seq<string>) returns (out: Reply)
    requires db.Valid()
    modifies db, db.guildSettings.Values
    ensures db.Valid() && db.users == old(db.users)
    ensures Outcome(out, db.SettingsOf(guildId)) == ResetMessageSpec(old(db.SettingsOf(guildId)), args)
    ensures forall g :: g != guildId ==> db.SettingsOf(g) == old(db.SettingsOf(g))
  {
    if args == [] {
      return Usage;
    }
    var kind := ToLower(args[0]);
    if kind !in MessageTypes + {"all"} {
      return InvalidType;
    }
    var s := db.GetGuildSettings(guildId);
    if s.customMessages.None? {
      return NothingToReset;
    }
    if kind == "all" {
      s.customMessages := Some(map[]);
      db.UpdateGuildSettings(guildId, s);
      return AllMessagesReset;
    }
    var m := s.customMessages.value;
    if kind !in m || m[kind] == "" {
      return NoCustomMessage(kind);
    }
    s.customMessages := Some(m - {kind});
    db.UpdateGuildSettings(guildId, s);
    out := MessageReset(kind);
  }

  // ---------------------------------------------------------------- setwelcome

  /** After the channel is found: an over-long message is rejected, otherwise the message (when given) and the channel are stored. */
  function WelcomeChannelStep(s: SettingsView, args: seq<string>, channelId: string): (r: Outcome)
    requires args != []
    ensures r.reply == TooLong <==> OverLong(args)
    ensures r.reply == TooLong ==> r.after == s
    ensures r.reply != TooLong ==>
      && r.after == s.(welcomeChannel := Some(channelId), welcomeMessage := if |args| > 1 then MessageArg(args) else s.welcomeMessage)
      && r.reply == WelcomeSet(channelId, if r.after.welcomeMessage == "" then DefaultWelcomeMessage else r.after.welcomeMessage)
  {
    if OverLong(args) then Outcome(TooLong, s)
    else
      var message := if |args| > 1 then MessageArg(args) else s.welcomeMessage;
      Outcome(WelcomeSet(channelId, if message == "" then DefaultWelcomeMessage else message),
        s.(welcomeChannel := Some(channelId), welcomeMessage := message))
  }

  /** `!admin setwelcome <channel|none> [message]`. */
  function SetWelcomeSpec(s: SettingsView, args: seq<string>, channel: Option<string>): (r: Outcome)
    ensures r.reply == Usage <==> args == []
    ensures r.reply == WelcomeDisabled <==> args != [] && ToLower(args[0]) == "none"
    ensures r.reply == WelcomeDisabled ==> r.after == s.(welcomeChannel := None)
    ensures r.reply == TooLong <==>
      args != [] && ToLower(args[0]) != "none" && channel.Some? && OverLong(args)
    ensures r.reply.WelcomeSet? ==>
      && channel == Some(r.reply.welcomeChannelId)
      && r.after == s.(welcomeChannel := channel, welcomeMessage := if |args| > 1 then MessageArg(args) else s.welcomeMessage)
      && (|args| > 1 ==> Utf16Length(r.after.welcomeMessage) <= MaxMessageLength)
    ensures !(r.reply == WelcomeDisabled || r.reply.WelcomeSet?) ==> r.after == s
  {
    if args == [] then Outcome(Usage, s)
    else if ToLower(args[0]) == "none" then Outcome(WelcomeDisabled, s.(welcomeChannel := None))
    else if channel.None? then Outcome(ChannelNotFound, s)
    else WelcomeChannelStep(s, args, channel.value)
  }

  method SetWelcome(db: Database, guildId: string, args: seq<string>, channel: Option<string>) returns (out: Reply)
    requires db.Valid()
    modifies db, db.guildSettings.Values
    ensures db.Valid() && db.users == old(db.users)
    ensures Outcome(out, db.SettingsOf(guildId)) == SetWelcomeSpec(old(db.SettingsOf(guildId)), args, channel)
    ensures forall g :: g != guildId ==> db.SettingsOf(g) == old(db.SettingsOf(g))
  {
    if args == [] {
      return Usage;
    }
    var s := db.GetGuildSettings(guildId);
    if ToLower(args[0]) == "none" {
      s.welcomeChannel := None;
      db.UpdateGuildSettings(guildId, s);
      return WelcomeDisabled;
    }
    if channel.None? {
      return ChannelNotFound;
    }
    out := WriteWelcome(db, guildId, s, args, channel.value);
  }

  /** The part after the channel is found: the length check, then the message (when given) and the channel are written. */
  method WriteWelcome(db: Database, guildId: string, s: GuildSettings, args: seq<string>, channelId: string)
    returns (out: Reply)
    requires db.Valid() && guildId in db.guildSettings && db.guildSettings[guildId] == s && args != []
    modifies db, s
    ensures db.Valid() && db.users == old(db.users)
    ensures Outcome(out, db.SettingsOf(guildId)) == WelcomeChannelStep(old(db.SettingsOf(guildId)), args, channelId)
    ensures forall g :: g != guildId ==> db.SettingsOf(g) == old(db.SettingsOf(g))
  {
    if |args| > 1 {
      var message := MessageArg(args);
      if Utf16Length(message) > MaxMessageLength {
        return TooLong;
      }
      s.welcomeMessage := message;
    }
    s.welcomeChannel := Some(channelId);
    db.UpdateGuildSettings(guildId, s);
    out := WelcomeSet(channelId, if s.welcomeMessage == "" then DefaultWelcomeMessage else s.welcomeMessage);
  }

  // ---------------------------------------------------------------- welcomedm

  /** The reply of a welcome DM update: the message is shown only when DMs are on. */
  function WelcomeDmReply(after: SettingsView): Reply {
    WelcomeDmSet(after.welcomeDmEnabled,
      if !after.welcomeDmEnabled then None
      else if after.welcomeDmMessage == "" then Some(DefaultWelcomeDmMessage)
      else Some(after.welcomeDmMessage))
  }

  /** What follows the flag: an over-long message is rejected, otherwise it is stored (when given). */
  function DmMessageStep(flagged: SettingsView, args: seq<string>): (r: Outcome)
    requires args != []
    ensures r.reply == TooLong <==> OverLong(args)
    ensures r.reply == TooLong ==> r.after == flagged
    ensures r.reply != TooLong ==>
      && r.after == flagged.(welcomeDmMessage := if |args| > 1 then MessageArg(args) else flagged.welcomeDmMessage)
      && r.reply == WelcomeDmReply(r.after)
  {
    if OverLong(args) then Outcome(TooLong, flagged)
    else
      var after := if |args| > 1 then flagged.(welcomeDmMessage := MessageArg(args)) else flagged;
      Outcome(WelcomeDmReply(after), after)
  }

  /**
   * `!admin welcomedm <on|off> [message]` as written: the flag is assigned on the stored
   * record before the length check, so a rejected message leaves the flag changed.
   */
  function WelcomeDmSpecAsWritten(s: SettingsView, args: seq<string>): (r: Outcome)
    ensures r.reply == TooLong ==> |args| > 1 && r.after == s.(welcomeDmEnabled := ToLower(args[0]) == "on")
  {
    if args == [] then Outcome(Usage, s)
    else
      var option := ToLower(args[0]);
      if option != "on" && option != "off" then Outcome(InvalidOption, s)
      else DmMessageStep(s.(welcomeDmEnabled := option == "on"), args)
  }

  /** The same command with the length checked before anything is written. */
  function WelcomeDmSpec(s: SettingsView, args: seq<string>): (r: Outcome)
    ensures r.reply == Usage <==> args == []
    ensures r.reply == InvalidOption <==> args != [] && ToLower(args[0]) !in {"on", "off"}
    ensures r.reply == TooLong <==>
      args != [] && ToLower(args[0]) in {"on", "off"} && OverLong(args)
    ensures r.reply.WelcomeDmSet? <==> !(r.reply in {Usage, InvalidOption, TooLong})
    ensures r.reply.WelcomeDmSet? ==>
      && r.after == s.(welcomeDmEnabled := ToLower(args[0]) == "on",
                       welcomeDmMessage := if |args| > 1 then MessageArg(args) else s.welcomeDmMessage)
      && (r.reply.enabled <==> ToLower(args[0]) == "on")
      && (r.reply.dmShown.Some? <==> r.reply.enabled)
    ensures !r.reply.WelcomeDmSet? ==> r.after == s
  {
    if args == [] then Outcome(Usage, s)
    else
      var option := ToLower(args[0]);
      if option != "on" && option != "off" then Outcome(InvalidOption, s)
      else if OverLong(args) then Outcome(TooLong, s)
      else DmMessageStep(s.(welcomeDmEnabled := option == "on"), args)
  }

  /**
   * The finding: turning DMs on with an over-long message is rejected, yet as written the
   * flag is on afterwards; with the check first the settings are left alone.
   */
  lemma WelcomeDmAsWrittenEnablesOnReject(s: SettingsView, args: seq<string>)
    requires |args| > 1 && ToLower(args[0]) == "on" && Utf16Length(MessageArg(args)) > MaxMessageLength
    requires !s.welcomeDmEnabled
    ensures WelcomeDmSpecAsWritten(s, args).reply == TooLong && WelcomeDmSpecAsWritten(s, args).after.welcomeDmEnabled
    ensures WelcomeDmSpec(s, args) == Outcome(TooLong, s)
  {
  }

  /** The two versions differ only on a rejected over-long message. */
  lemma WelcomeDmAgreesOtherwise(s: SettingsView, args: seq<string>)
    ensures WelcomeDmSpecAsWritten(s, args).reply == WelcomeDmSpec(s, args).reply
    ensures WelcomeDmSpec(s, args).reply != TooLong ==> WelcomeDmSpecAsWritten(s, args) == WelcomeDmSpec(s, args)
  {
  }

  /** The handler as written: the flag lands on the stored record even when the message is rejected. */
  method WelcomeDmAsWritten(db: Database, guildId: string, args: seq<string>) returns (out: Reply)
    requires db.Valid()
    modifies db, db.guildSettings.Values
    ensures db.Valid() && db.users == old(db.users)
    ensures Outcome(out, db.SettingsOf(guildId)) == WelcomeDmSpecAsWritten(old(db.SettingsOf(guildId)), args)
    ensures forall g :: g != guildId ==> db.SettingsOf(g) == old(db.SettingsOf(g))
  {
    if args == [] {
      return Usage;
    }
    var s := db.GetGuildSettings(guildId);
    var option := ToLower(args[0]);
    if option != "on" && option != "off" {
      return InvalidOption;
    }
    s.welcomeDmEnabled := option == "on";
    out := WriteDmMessage(db, guildId, s, args);
  }

  /** The handler as intended: nothing is written unless the whole command is accepted. */
  method WelcomeDm(db: Database, guildId: string, args: seq<string>) returns (out: Reply)
    requires db.Valid()
    modifies db, db.guildSettings.Values
    ensures db.Valid() && db.users == old(db.users)
    ensures Outcome(out, db.SettingsOf(guildId)) == WelcomeDmSpec(old(db.SettingsOf(guildId)), args)
    ensures forall g :: g != guildId ==> db.SettingsOf(g) == old(db.SettingsOf(g))
  {
    if args == [] {
      return Usage;
    }
    var s := db.GetGuildSettings(guildId);
    var option := ToLower(args[0]);
    if option != "on" && option != "off" {
      return InvalidOption;
    }
    if OverLong(args) {
      return TooLong;
    }
    s.welcomeDmEnabled := option == "on";
    out := WriteDmMessage(db, guildId, s, args);
  }

  /** The part after the flag: the length check, then the message (when given) is written and the record stored. */
  method WriteDmMessage(db: Database, guildId: string, s: GuildSettings, args: seq<string>) returns (out: Reply)
    requires db.Valid() && guildId in db.guildSettings && db.guildSettings[guildId] == s && args != []
    modifies db, s
    ensures db.Valid() && db.users == old(db.users)
    ensures Outcome(out, db.SettingsOf(guildId)) == DmMessageStep(old(db.SettingsOf(guildId)), args)
    ensures forall g :: g != guildId ==> db.SettingsOf(g) == old(db.SettingsOf(g))
  {
    if |args| > 1 {
      var message := MessageArg(args);
      if Utf16Length(message) > MaxMessageLength {
        return TooLong;
      }
      s.welcomeDmMessage := message;
    }
    db.UpdateGuildSettings(guildId, s);
    out := WelcomeDmReply(s.View());
  }

  // ---------------------------------------------------------------- automod

  /** The five automod settings a command can name. */
  datatype Setting = Enabled | Profanity | Mentions | Emojis | Spam

  function SettingOf(name: string): (r: Option<Setting>)
    ensures r.Some? <==> name in AutomodSettings
  {
    if name == "enabled" then Some(Enabled)
    else if name == "profanity" then Some(Profanity)
    else if name == "mentions" then Some(Mentions)
    else if name == "emojis" then Some(Emojis)
    else if name == "spam" then Some(Spam)
    else None
  }

  predicate IsSwitch(setting: Setting) { setting != Mentions && setting != Emojis }

  /** What an automod value stands for: a switch or a limit. */
  datatype SettingValue = Switch(on: bool) | Limit(n: int)

  /** The switches take only on/off, the limits only a number from 1 up. */
  function SettingValueOf(setting: Setting, value: string): (r: Option<SettingValue>)
    ensures IsSwitch(setting) ==>
      (r.Some? <==> value in {"on", "off"}) && (r.Some? ==> r.value == Switch(value == "on"))
    ensures !IsSwitch(setting) ==>
      (r.Some? <==> ParseInt(value).Some? && ParseInt(value).value >= 1) && (r.Some? ==> r.value == Limit(ParseInt(value).value))
  {
    if IsSwitch(setting) then
      if value != "on" && value != "off" then None else Some(Switch(value == "on"))
    else
      match ParseInt(value)
      case None => None
      case Some(n) => if n < 1 then None else Some(Limit(n))
  }

  /** The automod record with the field that belongs to `setting` set to `v`. */
  function WithSetting(a: Automod, setting: Setting, v: SettingValue): Automod {
    match v
    case Switch(on) =>
      if setting == Enabled then a.(enabled := on)
      else if setting == Profanity then a.(filterProfanity := on)
      else a.(antiSpam := on)
    case Limit(n) =>
      if setting == Mentions then a.(maxMentions := n) else a.(maxEmojis := n)
  }

  /** The automod settings after `<setting> <value>` (both lower-cased), or `None` when the value does not suit the setting. */
  function UpdateAutomod(a: Automod, setting: Setting, value: string): Option<Automod> {
    match SettingValueOf(setting, value)
    case None => None
    case Some(v) => Some(WithSetting(a, setting, v))
  }

  /** Limits stay positive: every accepted update keeps `maxMentions` and `maxEmojis` at least 1. */
  lemma UpdateAutomodKeepsLimitsPositive(a: Automod, setting: Setting, value: string)
    requires a.maxMentions >= 1 && a.maxEmojis >= 1
    requires UpdateAutomod(a, setting, value).Some?
    ensures UpdateAutomod(a, setting, value).value.maxMentions >= 1
    ensures UpdateAutomod(a, setting, value).value.maxEmojis >= 1
  {
  }

  /** A value of the kind its setting takes. */
  predicate Fits(setting: Setting, v: SettingValue) {
    IsSwitch(setting) <==> v.Switch?
  }

  lemma SettingValueFits(setting: Setting, value: string)
    requires SettingValueOf(setting, value).Some?
    ensures Fits(setting, SettingValueOf(setting, value).value)
  {
  }

  /** Each setting owns one field, so writes of two different settings commute. */
  lemma WithSettingCommutes(a: Automod, s1: Setting, x1: SettingValue, s2: Setting, x2: SettingValue)
    requires s1 != s2 && Fits(s1, x1) && Fits(s2, x2)
    ensures WithSetting(WithSetting(a, s1, x1), s2, x2) == WithSetting(WithSetting(a, s2, x2), s1, x1)
  {
    match s1
    case Enabled =>
    case Profanity =>
    case Mentions =>
    case Emojis =>
    case Spam =>
  }

  /** Applying the same setting twice changes nothing the second time. */
  lemma UpdateAutomodIdempotent(a: Automod, setting: Setting, value: string)
    requires UpdateAutomod(a, setting, value).Some?
    ensures UpdateAutomod(UpdateAutomod(a, setting, value).value, setting, value) == UpdateAutomod(a, setting, value)
  {
    var x := SettingValueOf(setting, value).value;
    var b := WithSetting(a, setting, x);
    assert UpdateAutomod(a, setting, value) == Some(b);
    assert UpdateAutomod(b, setting, value) == Some(WithSetting(b, setting, x));
  }

  /** Updates of two different settings can be applied in either order. */
  lemma UpdateAutomodCommutes(a: Automod, s1: Setting, v1: string, s2: Setting, v2: string)
    requires s1 != s2
    requires UpdateAutomod(a, s1, v1).Some? && UpdateAutomod(a, s2, v2).Some?
    ensures UpdateAutomod(UpdateAutomod(a, s1, v1).value, s2, v2).Some?
    ensures UpdateAutomod(UpdateAutomod(a, s2, v2).value, s1, v1).Some?
    ensures UpdateAutomod(UpdateAutomod(a, s1, v1).value, s2, v2) == UpdateAutomod(UpdateAutomod(a, s2, v2).value, s1, v1)
  {
    var x1 := SettingValueOf(s1, v1).value;
    var x2 := SettingValueOf(s2, v2).value;
    SettingValueFits(s1, v1);
    SettingValueFits(s2, v2);
    var b1 := WithSetting(a, s1, x1);
    var b2 := WithSetting(a, s2, x2);
    assert UpdateAutomod(a, s1, v1) == Some(b1);
    assert UpdateAutomod(a, s2, v2) == Some(b2);
    assert UpdateAutomod(b1, s2, v2) == Some(WithSetting(b1, s2, x2));
    assert UpdateAutomod(b2, s1, v1) == Some(WithSetting(b2, s1, x1));
    WithSettingCommutes(a, s1, x1, s2, x2);
  }

  /** `!admin automod <setting> <value>`. */
  function AutomodSpec(s: SettingsView, args: seq<string>): (r: Outcome)
    ensures r.reply == Usage <==> |args| < 2
    ensures r.reply == InvalidSetting <==> |args| >= 2 && ToLower(args[0]) !in AutomodSettings
    ensures r.reply.AutomodSet? <==>
      |args| >= 2 && SettingOf(ToLower(args[0])).Some? &&
      UpdateAutomod(s.automod, SettingOf(ToLower(args[0])).value, ToLower(args[1])).Some?
    ensures r.reply.AutomodSet? ==>
      && r.reply == AutomodSet(ToLower(args[0]), ToLower(args[1]))
      && r.after == s.(automod := UpdateAutomod(s.automod, SettingOf(ToLower(args[0])).value, ToLower(args[1])).value)
    ensures !r.reply.AutomodSet? ==> r.after == s
  {
    if |args| < 2 then Outcome(Usage, s)
    else
      var name := ToLower(args[0]);
      var value := ToLower(args[1]);
      match SettingOf(name)
      case None => Outcome(InvalidSetting, s)
      case Some(setting) =>
        match UpdateAutomod(s.automod, setting, value)
        case None => Outcome(InvalidValue, s)
        case Some(a) => Outcome(AutomodSet(name, value), s.(automod := a))
  }

  method AutomodCommand(db: Database, guildId: string, args: seq<string>) returns (out: Reply)
    requires db.Valid()
    modifies db, db.guildSettings.Values
    ensures db.Valid() && db.users == old(db.users)
    ensures Outcome(out, db.SettingsOf(guildId)) == AutomodSpec(old(db.SettingsOf(guildId)), args)
    ensures forall g :: g != guildId ==> db.SettingsOf(g) == old(db.SettingsOf(g))
  {
    if |args| < 2 {
      return Usage;
    }
    var name := ToLower(args[0]);
    var value := ToLower(args[1]);
    var setting := SettingOf(name);
    if setting.None? {
      return InvalidSetting;
    }
    var s := db.GetGuildSettings(guildId);
    var v := SettingValueOf(setting.value, value);
    if v.None? {
      return InvalidValue;
    }
    s.automod := WithSetting(s.automod, setting.value, v.value);
    db.UpdateGuildSettings(guildId, s);
    out := AutomodSet(name, value);
  }
}
