/**
 * The standalone `setchannel` command: `!setchannel <category> <#channel>` restricts one
 * command category to a channel. Its reply tells the admin that `!setchannel <category> none`
 * removes the restriction, but the handler gives `none` no meaning: without a mentioned
 * channel `none` is looked up as a channel id and the command is rejected. The corrected
 * behaviour is that of `!admin setchannel`, which clears the restriction on `none`.
 * `channel` is the id of the mentioned channel, or else of the channel whose id is the
 * second argument, when either exists.
 */
module SetChannelCommand {
  import opened Wrappers
  import opened JsText
  import opened Store
  import Admin

  /** The command as written. */
  function SpecAsWritten(s: SettingsView, args: seq<string>, channel: Option<string>): (r: Admin.Outcome)
    ensures r.reply == Admin.Usage <==> |args| < 2
    ensures r.reply == Admin.InvalidCategory <==> |args| >= 2 && ToLower(args[0]) !in RestrictableCategories
    ensures r.reply == Admin.ChannelNotFound <==> |args| >= 2 && ToLower(args[0]) in RestrictableCategories && channel.None?
    ensures r.reply.RestrictionSet? ==>
      && r.reply == Admin.RestrictionSet(ToLower(args[0]), channel)
      && channel.Some?
      && r.after == s.(restrictedChannels := s.restrictedChannels[ToLower(args[0]) := channel])
    ensures !r.reply.RestrictionSet? ==> r.after == s
  {
    if |args| < 2 then Admin.Outcome(Admin.Usage, s)
    else
      var category := ToLower(args[0]);
      if category !in RestrictableCategories then Admin.Outcome(Admin.InvalidCategory, s)
      else if channel.None? then Admin.Outcome(Admin.ChannelNotFound, s)
      else Admin.Outcome(Admin.RestrictionSet(category, channel),
        s.(restrictedChannels := s.restrictedChannels[category := channel]))
  }

  /** As written, the command can never remove a restriction: every accepted call stores a channel. */
  lemma AsWrittenNeverClears(s: SettingsView, args: seq<string>, channel: Option<string>)
    requires SpecAsWritten(s, args, channel).reply.RestrictionSet?
    ensures SpecAsWritten(s, args, channel).after.RestrictedChannel(ToLower(args[0])).Some?
  {
  }

  /**
   * The finding: `!setchannel games none` without a mention is rejected as written, while
   * the intended command clears the restriction of that category.
   */
  lemma NoneIsRejected(s: SettingsView, args: seq<string>)
    requires |args| >= 2 && ToLower(args[0]) in RestrictableCategories && ToLower(args[1]) == "none"
    ensures SpecAsWritten(s, args, None).reply == Admin.ChannelNotFound
    ensures Admin.SetChannelSpec(s, args, None) == Admin.Outcome(Admin.RestrictionSet(ToLower(args[0]), None),
      s.(restrictedChannels := s.restrictedChannels[ToLower(args[0]) := None]))
  {
  }

  /** On anything but `none` the command as written and the intended one agree. */
  lemma AgreesExceptNone(s: SettingsView, args: seq<string>, channel: Option<string>)
    requires |args| < 2 || ToLower(args[1]) != "none"
    ensures SpecAsWritten(s, args, channel) == Admin.SetChannelSpec(s, args, channel)
  {
  }

  /** The handler as written. */
  method ExecuteAsWritten(db: Database, guildId: string, args: seq<string>, channel: Option<string>)
    returns (out: Admin.Reply)
    requires db.Valid()
    modifies db, db.guildSettings.Values
    ensures db.Valid() && db.users == old(db.users)
    ensures Admin.Outcome(out, db.SettingsOf(guildId)) == SpecAsWritten(old(db.SettingsOf(guildId)), args, channel)
    ensures forall g :: g != guildId ==> db.SettingsOf(g) == old(db.SettingsOf(g))
  {
    if |args| < 2 {
      return Admin.Usage;
    }
    var category := ToLower(args[0]);
    if category !in RestrictableCategories {
      return Admin.InvalidCategory;
    }
    if channel.None? {
      return Admin.ChannelNotFound;
    }
    var _ := db.SetRestrictedChannel(guildId, category, channel);
    out := Admin.RestrictionSet(category, channel);
  }
}
