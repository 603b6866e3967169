/**
 * The `daily` command: once per day a user collects a fixed reward. The handler changes
 * the record `getUser` returned and then calls `updateUser(user)`, which stores
 * `undefined` under the key `"undefined-[object Object]"`; the reward survives only
 * because the changed object is the stored one.
 */
module Daily {
  import opened Wrappers
  import opened Store

  const Reward: int := 250
  const DayMs: int := 86400000
  const HourMs: int := 3600000
  const MinuteMs: int := 60000

  datatype Outcome =
    | AlreadyClaimed(hoursLeft: int, minutesLeft: int)
    | Claimed(reward: int, balance: int, bank: int)

  /** The claim window is open with no previous claim, or once a full day has passed since it. */
  predicate CanClaim(lastDaily: Option<int>, now: int) {
    lastDaily.None? || now >= lastDaily.value + DayMs
  }

  /** A positive wait as whole hours plus the whole minutes of what remains. */
  function HoursAndMinutes(timeLeft: int): (r: (int, int))
    requires timeLeft > 0
    ensures r.0 >= 0 && 0 <= r.1 < 60
    ensures r.0 * HourMs + r.1 * MinuteMs <= timeLeft < r.0 * HourMs + (r.1 + 1) * MinuteMs
  {
    (timeLeft / HourMs, (timeLeft % HourMs) / MinuteMs)
  }

  method Execute(db: Database, userId: string, guildId: string, now: int) returns (out: Outcome)
    requires db.Valid() && IsSnowflake(userId) && IsSnowflake(guildId)
    modifies db, db.users.Values
    ensures db.Valid() && db.guildSettings == old(db.guildSettings)
    ensures var before := old(db.UserOf(userId, guildId));
      && (out.Claimed? <==> CanClaim(before.lastDaily, now))
      && (out.Claimed? ==>
            && out == Claimed(Reward, before.balance + Reward, before.bank)
            && db.Entry(UserKey(guildId, userId)) == Some(before.(balance := before.balance + Reward, lastDaily := Some(now))))
      && (out.AlreadyClaimed? ==>
            && (out.hoursLeft, out.minutesLeft) == HoursAndMinutes(before.lastDaily.value + DayMs - now)
            && db.Entry(UserKey(guildId, userId)) == Some(before))
    ensures db.Entry(RecordAsUserIdKey) == if out.Claimed? then None else old(db.Entry(RecordAsUserIdKey))
    ensures forall k :: k != UserKey(guildId, userId) && k != RecordAsUserIdKey ==> db.Entry(k) == old(db.Entry(k))
  {
    RecordAsUserIdKeyIsNoUserKey(guildId, userId);
    var user := db.GetUser(userId, guildId);
    if user.lastDaily.Some? && now < user.lastDaily.value + DayMs {
      var left := HoursAndMinutes(user.lastDaily.value + DayMs - now);
      return AlreadyClaimed(left.0, left.1);
    }
    user.balance := user.balance + Reward;
    user.lastDaily := Some(now);
    db.UpdateUser(ObjectText, UndefinedText, null);
    out := Claimed(Reward, user.balance, user.bank);
  }
}
