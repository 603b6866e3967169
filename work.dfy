/**
 * The `work` command: at most once per 30 minutes a user works a randomly chosen job and
 * earns a random amount in that job's salary range. Like `daily`, the handler changes the
 * fetched record in place and then stores `undefined` under `"undefined-[object Object]"`.
 * The two random draws are parameters: the job `getRandomJob` picks from the table, and
 * `amountDraw`, which is `Math.floor(Math.random() * (max - min + 1))`.
 */
module Work {
  import opened Wrappers
  import opened JsText
  import opened Store

  const RestMs: int := 30 * 60 * 1000
  const Placeholder: string := "{amount}"

  datatype JobSpec = JobSpec(title: string, min: int, max: int, message: string)

  /** The jobs table, in the order `getRandomJob` indexes it. */
  const Jobs: seq<JobSpec> := [
    JobSpec("Guard", 50, 150, "You patrolled the Imperial City and earned {amount} coins."),
    JobSpec("Merchant", 70, 180, "You sold exotic goods in the market and earned {amount} coins."),
    JobSpec("Blacksmith", 80, 200, "You forged weapons for the Imperial Army and earned {amount} coins."),
    JobSpec("Courier", 40, 120, "You delivered important messages across the Empire and earned {amount} coins."),
    JobSpec("Alchemist", 90, 220, "You brewed magical potions and earned {amount} coins."),
    JobSpec("Miner", 60, 160, "You mined precious minerals from the Imperial Mines and earned {amount} coins."),
    JobSpec("Hunter", 50, 170, "You hunted wild animals and earned {amount} coins for the pelts."),
    JobSpec("Scribe", 70, 190, "You copied ancient manuscripts for the Imperial Library and earned {amount} coins.")
  ]

  datatype Outcome =
    | Resting(minutesLeft: int, secondsLeft: int)
    | Worked(job: JobSpec, amount: int, message: string, balance: int)

  predicate CanWork(lastWork: Option<int>, now: int) {
    lastWork.None? || now >= lastWork.value + RestMs
  }

  /** A positive wait as whole minutes plus the whole seconds of what remains. */
  function MinutesAndSeconds(timeLeft: int): (r: (int, int))
    requires timeLeft > 0
    ensures r.0 >= 0 && 0 <= r.1 < 60
    ensures r.0 * 60000 + r.1 * 1000 <= timeLeft < r.0 * 60000 + (r.1 + 1) * 1000
  {
    (timeLeft / 60000, (timeLeft / 1000) % 60)
  }

  /** `job.message.replace('{amount}', amount)`: the first placeholder becomes the amount. */
  function JobMessage(job: JobSpec, amount: nat): string {
    ReplaceFirst(job.message, Placeholder, NatToString(amount))
  }

  /** A placeholder starts with `{`, so it cannot begin inside a text that has no `{`. */
  lemma NoPlaceholderBefore(a: string, b: string)
    requires '{' !in a
    ensures forall j :: 0 <= j < |a| ==> !OccursAt(a + Placeholder + b, Placeholder, j)
  {
    assert Placeholder[0] == '{';
  }

  /**
   * Every job message reads `<text without braces>{amount}<rest>`; the reply is that
   * message with the earned amount in place of the placeholder, and the rest kept as written
   * even if it contained a second placeholder.
   */
  lemma JobMessageFillsPlaceholder(job: JobSpec, a: string, b: string, amount: nat)
    requires job.message == a + Placeholder + b && '{' !in a
    ensures JobMessage(job, amount) == a + NatToString(amount) + b
  {
    NoPlaceholderBefore(a, b);
    ReplaceFirstOnlyFirst(a, Placeholder, b, NatToString(amount));
  }

  /** Every job pays a non-empty, non-negative range. */
  lemma JobsPayRange(job: JobSpec)
    requires job in Jobs
    ensures 0 <= job.min <= job.max
  {
  }

  /**
   * The handler. `job` is the job `getRandomJob` drew from the table and `amountDraw` the
   * draw within its range.
   */
  method Execute(db: Database, userId: string, guildId: string, now: int, job: JobSpec, amountDraw: nat)
    returns (out: Outcome)
    requires db.Valid() && IsSnowflake(userId) && IsSnowflake(guildId)
    requires job in Jobs && amountDraw <= job.max - job.min
    modifies db, db.users.Values
    ensures db.Valid() && db.guildSettings == old(db.guildSettings)
    ensures var before := old(db.UserOf(userId, guildId));
      && (out.Worked? <==> CanWork(before.lastWork, now))
      && (out.Worked? ==>
            && out.job == job && out.job.min <= out.amount <= out.job.max
            && out.amount == job.min + amountDraw
            && out.message == JobMessage(job, out.amount)
            && out.balance == before.balance + out.amount
            && db.Entry(UserKey(guildId, userId)) == Some(before.(balance := out.balance, lastWork := Some(now))))
      && (out.Resting? ==>
            && (out.minutesLeft, out.secondsLeft) == MinutesAndSeconds(before.lastWork.value + RestMs - now)
            && db.Entry(UserKey(guildId, userId)) == Some(before))
    ensures db.Entry(RecordAsUserIdKey) == if out.Worked? then None else old(db.Entry(RecordAsUserIdKey))
    ensures forall k :: k != UserKey(guildId, userId) && k != RecordAsUserIdKey ==> db.Entry(k) == old(db.Entry(k))
  {
    RecordAsUserIdKeyIsNoUserKey(guildId, userId);
    var user := db.GetUser(userId, guildId);
    JobsPayRange(job);
    out := Attend(db, user, now, job, amountDraw);
  }

  /**
   * The part after the record is fetched: the 30-minute check, then the pay. The fetched
   * record earns the amount and is stamped with `now`; `updateUser(user)` then stores
   * `undefined` in the wrong slot.
   */
  method Attend(db: Database, user: UserRecord, now: int, job: JobSpec, amountDraw: nat) returns (out: Outcome)
    requires job.min >= 0
    requires db.Valid() && user.Key() in db.users && db.users[user.Key()] == user && user.Key() != RecordAsUserIdKey
    modifies db, user
    ensures db.Valid() && db.guildSettings == old(db.guildSettings)
    ensures var before := old(user.View());
      && (out.Worked? <==> CanWork(before.lastWork, now))
      && (out.Worked? ==>
            && out == Worked(job, job.min + amountDraw, JobMessage(job, job.min + amountDraw), before.balance + job.min + amountDraw)
            && db.Entry(user.Key()) == Some(before.(balance := out.balance, lastWork := Some(now))))
      && (out.Resting? ==>
            && (out.minutesLeft, out.secondsLeft) == MinutesAndSeconds(before.lastWork.value + RestMs - now)
            && db.Entry(user.Key()) == Some(before))
    ensures db.Entry(RecordAsUserIdKey) == if out.Worked? then None else old(db.Entry(RecordAsUserIdKey))
    ensures forall k :: k != user.Key() && k != RecordAsUserIdKey ==> db.Entry(k) == old(db.Entry(k))
  {
    if user.lastWork.Some? && now < user.lastWork.value + RestMs {
      var left := MinutesAndSeconds(user.lastWork.value + RestMs - now);
      return Resting(left.0, left.1);
    }
    var amount := amountDraw + job.min;
    user.balance := user.balance + amount;
    user.lastWork := Some(now);
    db.UpdateUser(ObjectText, UndefinedText, null);
    out := Worked(job, amount, JobMessage(job, amount), user.balance);
  }
}
