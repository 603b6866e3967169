/**
 * The bot's in-memory store: one map from guild id to that guild's settings record and
 * one map from `"<guildId>-<userId>"` to a user's economy and moderation record.
 * Records are objects that the handlers fetch and then change in place, so they are
 * classes here; the maps are fields of the `Database` object that the operations
 * reassign. A user slot may hold `null`, which stands for the JavaScript `undefined`
 * that some handlers store by calling `updateUser` with the wrong arguments.
 */
module Store {
  import opened Wrappers
  import opened JsText

  // ---------------------------------------------------------------- ids and keys

  /** Discord ids (users, guilds, channels) are non-empty decimal snowflakes. */
  predicate IsSnowflake(id: string) { id != [] && AllDigits(id) }

  /** The user map's key: `${guildId}-${userId}`. */
  function UserKey(guildId: string, userId: string): string {
    guildId + "-" + userId
  }

  /** How JavaScript renders a plain object and `undefined` inside a template string. */
  const ObjectText: string := "[object Object]"
  const UndefinedText: string := "undefined"

  /** The key `updateUser(user)` writes to: the record lands in the user-id slot, the guild id is missing. */
  const RecordAsUserIdKey: string := UserKey(UndefinedText, ObjectText)

  // ---------------------------------------------------------------- guild settings

  datatype Automod = Automod(enabled: bool, filterProfanity: bool, maxMentions: int, maxEmojis: int, antiSpam: bool)

  const DefaultAutomod: Automod := Automod(false, false, 5, 10, false)

  /** The four command categories that can be restricted to a channel. */
  const RestrictableCategories: seq<string> := ["economy", "games", "fun", "general"]

  const DefaultWelcomeMessage: string := "Welcome to the server, {user}!"
  const DefaultWelcomeDmMessage: string := "Welcome to {server}, {user}! We hope you enjoy your stay."

  /** The value of a guild settings record; `customMessages` is absent until an admin sets one. */
  datatype SettingsView = SettingsView(
    prefix: string,
    welcomeChannel: Option<string>,
    welcomeMessage: string,
    welcomeDmEnabled: bool,
    welcomeDmMessage: string,
    restrictedChannels: map<string, Option<string>>,
    moderationLogs: Option<string>,
    automod: Automod,
    customMessages: Option<map<string, string>>)
  {
    /** `restrictedChannels[category]`, where a category that is not a key reads as `undefined`. */
    function RestrictedChannel(category: string): Option<string> {
      if category in restrictedChannels then restrictedChannels[category] else None
    }
  }

  /** The record `getGuildSettings` creates for a guild it has not seen. */
  function DefaultSettings(): (d: SettingsView)
    ensures d.prefix == "!" && d.welcomeChannel == None && d.moderationLogs == None
    ensures forall c :: c in RestrictableCategories ==> d.RestrictedChannel(c) == None
    ensures d.automod == Automod(false, false, 5, 10, false) && d.customMessages == None
  {
    SettingsView("!", None, DefaultWelcomeMessage, false, DefaultWelcomeDmMessage,
      map["economy" := None, "games" := None, "fun" := None, "general" := None],
      None, DefaultAutomod, None)
  }

  class GuildSettings {
    const guildId: string
    var prefix: string
    var welcomeChannel: Option<string>
    var welcomeMessage: string
    var welcomeDmEnabled: bool
    var welcomeDmMessage: string
    var restrictedChannels: map<string, Option<string>>
    var moderationLogs: Option<string>
    var automod: Automod
    var customMessages: Option<map<string, string>>

    constructor (guildId: string)
      ensures this.guildId == guildId && View() == DefaultSettings()
    {
      this.guildId := guildId;
      prefix := "!";
      welcomeChannel := None;
      welcomeMessage := DefaultWelcomeMessage;
      welcomeDmEnabled := false;
      welcomeDmMessage := DefaultWelcomeDmMessage;
      restrictedChannels := map["economy" := None, "games" := None, "fun" := None, "general" := None];
      moderationLogs := None;
      automod := DefaultAutomod;
      customMessages := None;
    }

    function View(): SettingsView
      reads this
    {
      SettingsView(prefix, welcomeChannel, welcomeMessage, welcomeDmEnabled, welcomeDmMessage,
        restrictedChannels, moderationLogs, automod, customMessages)
    }
  }

  // ---------------------------------------------------------------- user records

  datatype InventoryItem = InventoryItem(itemId: string, name: string, description: string, quantity: int, usable: bool)

  datatype Warning = Warning(id: int, reason: string, moderator: string, moderatorTag: string, timestamp: int)

  datatype Job = Job(title: Option<string>, salary: int, description: Option<string>)

  /** The value of a user record; times are milliseconds since the epoch. */
  datatype UserView = UserView(
    userId: string,
    guildId: string,
    balance: int,
    bank: int,
    lastDaily: Option<int>,
    lastWork: Option<int>,
    inventory: seq<InventoryItem>,
    experience: int,
    level: int,
    warnings: seq<Warning>,
    job: Job)

  /** The record `getUser` creates for a (guild, user) pair it has not seen. */
  function DefaultUser(userId: string, guildId: string): (d: UserView)
    ensures d.userId == userId && d.guildId == guildId
    ensures d.balance == 100 && d.bank == 0 && d.lastDaily == None && d.lastWork == None
    ensures d.inventory == [] && d.warnings == [] && d.level == 1 && d.experience == 0
  {
    UserView(userId, guildId, 100, 0, None, None, [], 0, 1, [], Job(None, 0, None))
  }

  class UserRecord {
    const userId: string
    const guildId: string
    var balance: int
    var bank: int
    var lastDaily: Option<int>
    var lastWork: Option<int>
    var inventory: seq<InventoryItem>
    var experience: int
    var level: int
    var warnings: seq<Warning>
    var job: Job

    constructor (userId: string, guildId: string)
      ensures View() == DefaultUser(userId, guildId)
    {
      this.userId := userId;
      this.guildId := guildId;
      balance := 100;
      bank := 0;
      lastDaily := None;
      lastWork := None;
      inventory := [];
      experience := 0;
      level := 1;
      warnings := [];
      job := Job(None, 0, None);
    }

    /** The key under which this record belongs in the user map. */
    function Key(): string {
      UserKey(guildId, userId)
    }

    function View(): UserView
      reads this
    {
      UserView(userId, guildId, balance, bank, lastDaily, lastWork, inventory, experience, level, warnings, job)
    }
  }

  // ---------------------------------------------------------------- the store

  class Database {
    var guildSettings: map<string, GuildSettings>
    var users: map<string, UserRecord?>

    constructor ()
      ensures guildSettings == map[] && users == map[]
    {
      guildSettings := map[];
      users := map[];
    }

    /** Every record sits under its own key. */
    ghost predicate Valid()
      reads this
    {
      && (forall g :: g in guildSettings ==> guildSettings[g].guildId == g)
      && (forall k :: k in users && users[k] != null ==> users[k].Key() == k)
    }

    /** The settings a lookup of `guildId` yields: the stored record, or the defaults it would create. */
    function SettingsOf(guildId: string): SettingsView
      reads this, if guildId in guildSettings then {guildSettings[guildId]} else {}
    {
      if guildId in guildSettings then guildSettings[guildId].View() else DefaultSettings()
    }

    /** The record stored under `key`; an absent key and a stored `undefined` both read as missing. */
    function Entry(key: string): Option<UserView>
      reads this, if key in users then {users[key]} else {}
    {
      if key in users && users[key] != null then Some(users[key].View()) else None
    }

    /** The record a lookup of (user, guild) yields: the stored one, or the defaults it would create. */
    function UserOf(userId: string, guildId: string): UserView
      reads this, if UserKey(guildId, userId) in users then {users[UserKey(guildId, userId)]} else {}
    {
      Entry(UserKey(guildId, userId)).GetOr(DefaultUser(userId, guildId))
    }

    /** `getGuildSettings`: the stored record, created with the defaults on first use. */
    method GetGuildSettings(guildId: string) returns (s: GuildSettings)
      requires Valid()
      modifies this
      ensures Valid() && s.guildId == guildId && users == old(users)
      ensures guildId in old(guildSettings) ==> s == old(guildSettings[guildId]) && guildSettings == old(guildSettings)
      ensures guildId !in old(guildSettings) ==>
        fresh(s) && s.View() == DefaultSettings() && guildSettings == old(guildSettings)[guildId := s]
      ensures guildId in guildSettings && guildSettings[guildId] == s && s.View() == old(SettingsOf(guildId))
      ensures s in old(guildSettings.Values) || fresh(s)
      ensures forall g :: g != guildId ==> SettingsOf(g) == old(SettingsOf(g))
    {
      if guildId in guildSettings {
        s := guildSettings[guildId];
      } else {
        s := new GuildSettings(guildId);
        guildSettings := guildSettings[guildId := s];
      }
    }

    /** `updateGuildSettings`: stores `s` under `guildId`, replacing whatever was there. */
    method UpdateGuildSettings(guildId: string, s: GuildSettings)
      modifies this
      ensures guildSettings == old(guildSettings)[guildId := s] && users == old(users)
      ensures old(Valid()) && s.guildId == guildId ==> Valid()
    {
      guildSettings := guildSettings[guildId := s];
    }

    /** `getUser`: the record stored under `"<guildId>-<userId>"`, created with the defaults when missing. */
    method GetUser(userId: string, guildId: string) returns (u: UserRecord)
      requires Valid()
      modifies this
      ensures Valid() && u.Key() == UserKey(guildId, userId) && guildSettings == old(guildSettings)
      ensures users == old(users)[UserKey(guildId, userId) := u]
      ensures old(Entry(UserKey(guildId, userId))).Some? ==> u == old(users[UserKey(guildId, userId)])
      ensures old(Entry(UserKey(guildId, userId))).None? ==> fresh(u) && u.View() == DefaultUser(userId, guildId)
      ensures u.View() == old(UserOf(userId, guildId))
      ensures forall k :: k != UserKey(guildId, userId) ==> Entry(k) == old(Entry(k))
    {
      var key := UserKey(guildId, userId);
      if key in users && users[key] != null {
        u := users[key];
      } else {
        u := new UserRecord(userId, guildId);
        users := users[key := u];
      }
    }

    /** `updateUser`: stores `data` under `"<guildId>-<userId>"`, replacing whatever was there. */
    method UpdateUser(userId: string, guildId: string, data: UserRecord?)
      modifies this
      ensures users == old(users)[UserKey(guildId, userId) := data] && guildSettings == old(guildSettings)
      ensures old(Valid()) && (data == null || data.Key() == UserKey(guildId, userId)) ==> Valid()
    {
      users := users[UserKey(guildId, userId) := data];
    }

    /**
     * `setRestrictedChannel`: a category outside the four restrictable ones throws before the
     * store is touched; otherwise only that category's channel changes.
     */
    method SetRestrictedChannel(guildId: string, category: string, channelId: Option<string>) returns (thrown: bool)
      requires Valid()
      modifies this, guildSettings.Values
      ensures Valid() && users == old(users)
      ensures thrown <==> category !in RestrictableCategories
      ensures thrown ==> guildSettings == old(guildSettings) && forall g :: SettingsOf(g) == old(SettingsOf(g))
      ensures !thrown ==>
        SettingsOf(guildId) == old(SettingsOf(guildId)).(
          restrictedChannels := old(SettingsOf(guildId)).restrictedChannels[category := channelId])
      ensures forall g :: g != guildId ==> SettingsOf(g) == old(SettingsOf(g))
    {
      if category !in RestrictableCategories {
        return true;
      }
      var s := GetGuildSettings(guildId);
      s.restrictedChannels := s.restrictedChannels[category := channelId];
      UpdateGuildSettings(guildId, s);
      thrown := false;
    }

    /** `setWelcomeChannel`: the channel is always written, the message only when it is truthy. */
    method SetWelcomeChannel(guildId: string, channelId: Option<string>, message: Option<string>)
      requires Valid()
      modifies this, guildSettings.Values
      ensures Valid() && users == old(users)
      ensures SettingsOf(guildId) == old(SettingsOf(guildId)).(
        welcomeChannel := channelId,
        welcomeMessage := if Truthy(message) then message.value else old(SettingsOf(guildId)).welcomeMessage)
      ensures forall g :: g != guildId ==> SettingsOf(g) == old(SettingsOf(g))
    {
      var s := GetGuildSettings(guildId);
      s.welcomeChannel, s.welcomeMessage := channelId, if Truthy(message) then message.value else s.welcomeMessage;
      UpdateGuildSettings(guildId, s);
    }

    /** `setWelcomeDm`: the flag is always written, the message only when it is truthy. */
    method SetWelcomeDm(guildId: string, enabled: bool, message: Option<string>)
      requires Valid()
      modifies this, guildSettings.Values
      ensures Valid() && users == old(users)
      ensures SettingsOf(guildId) == old(SettingsOf(guildId)).(
        welcomeDmEnabled := enabled,
        welcomeDmMessage := if Truthy(message) then message.value else old(SettingsOf(guildId)).welcomeDmMessage)
      ensures forall g :: g != guildId ==> SettingsOf(g) == old(SettingsOf(g))
    {
      var s := GetGuildSettings(guildId);
      s.welcomeDmEnabled, s.welcomeDmMessage := enabled, if Truthy(message) then message.value else s.welcomeDmMessage;
      UpdateGuildSettings(guildId, s);
    }
  }

  /** A string argument that JavaScript treats as true: present and non-empty. */
  predicate Truthy(s: Option<string>) { s.Some? && s.value != "" }

  // ---------------------------------------------------------------- keys

  lemma {:induction false} PrefixSplit(g1: string, u1: string, g2: string, u2: string)
    requires IsSnowflake(g1) && IsSnowflake(g2)
    requires UserKey(g1, u1) == UserKey(g2, u2)
    requires |g1| <= |g2|
    ensures g1 == g2
  {
    var k := UserKey(g1, u1);
    assert k[|g1|] == '-';
    if |g1| < |g2| {
      assert false;
    }
    assert g1 == k[..|g1|] == g2;
  }

  /**
   * For snowflake ids the key determines the pair: the same user in two guilds, or two
   * users in one guild, have separate records.
   */
  lemma UserKeyInjective(g1: string, u1: string, g2: string, u2: string)
    requires IsSnowflake(g1) && IsSnowflake(g2)
    ensures UserKey(g1, u1) == UserKey(g2, u2) <==> g1 == g2 && u1 == u2
  {
    if UserKey(g1, u1) == UserKey(g2, u2) {
      if |g1| <= |g2| { PrefixSplit(g1, u1, g2, u2); } else { PrefixSplit(g2, u2, g1, u1); }
      var k := UserKey(g1, u1);
      assert u1 == k[|g1| + 1..] == u2;
    }
  }

  /** The slot `updateUser(record)` writes to never holds the record of a real (guild, user) pair. */
  lemma RecordAsUserIdKeyIsNoUserKey(guildId: string, userId: string)
    requires IsSnowflake(guildId)
    ensures UserKey(guildId, userId) != RecordAsUserIdKey
    ensures UserKey(guildId, userId) != UserKey(ObjectText, UndefinedText)
  {
    assert IsDigit(UserKey(guildId, userId)[0]);
    assert RecordAsUserIdKey[0] == 'u';
    assert UserKey(ObjectText, UndefinedText)[0] == '[';
  }
}
