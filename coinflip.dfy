/**
 * The `coinflip` command: the caller picks heads or tails and bets a positive amount; the
 * stake is won or lost with the flip. As written, the handler writes the new balance with
 * `updateUser(user.id, { balance })`: the record has no `id` field and the guild id is
 * missing, so the slot `"[object Object]-undefined"` receives `undefined` and the caller's
 * record keeps its old balance. The flip is a parameter: `heads` is `Math.random() < 0.5`.
 */
module Coinflip {
  import opened Wrappers
  import opened JsText
  import opened Store

  datatype Outcome =
    | Usage
    | BadChoice
    | BadBet
    | Insufficient(bet: int, balance: int)
    | Flipped(result: string, won: bool, bet: int, balance: int)

  /** The key the as-written balance write lands on. */
  const LostWriteKey: string := UserKey(ObjectText, UndefinedText)

  /** The choice and the bet, or the reply that ends the command, in the handler's order. */
  function Validate(args: seq<string>): (r: Result)
    ensures r.Rejected? ==> r.reply in {Usage, BadChoice, BadBet}
    ensures r.Accepted? <==>
      |args| >= 2 && ToLower(args[0]) in {"heads", "tails"} && ParseInt(args[1]).Some? && ParseInt(args[1]).value > 0
    ensures r.Accepted? ==> r.choice == ToLower(args[0]) && r.bet == ParseInt(args[1]).value
    ensures r == Rejected(BadChoice) <==> |args| >= 2 && ToLower(args[0]) !in {"heads", "tails"}
  {
    if |args| < 2 then Rejected(Usage)
    else
      var choice := ToLower(args[0]);
      if choice != "heads" && choice != "tails" then Rejected(BadChoice)
      else match ParseInt(args[1])
        case None => Rejected(BadBet)
        case Some(n) => if n <= 0 then Rejected(BadBet) else Accepted(choice, n)
  }

  datatype Result = Rejected(reply: Outcome) | Accepted(choice: string, bet: int)

  function FlipResult(heads: bool): string {
    if heads then "heads" else "tails"
  }

  /** `won ? betAmount : -betAmount`. */
  function Stake(choice: string, result: string, bet: int): int {
    if choice == result then bet else -bet
  }

  /** The game is even: for either choice, the two results pay back exactly opposite stakes. */
  lemma StakeFair(choice: string, bet: int)
    requires choice in {"heads", "tails"}
    ensures Stake(choice, FlipResult(true), bet) + Stake(choice, FlipResult(false), bet) == 0
    ensures Stake(choice, FlipResult(true), bet) == bet <==> choice == "heads" || bet == 0
  {
  }

  /**
   * What the as-written handler does once the arguments are valid, for the caller's record
   * `before` and the record `after` stored under the caller's key afterwards.
   */
  ghost predicate AsWrittenEffect(before: UserView, choice: string, bet: int, heads: bool, out: Outcome, after: Option<UserView>) {
    && (out.Insufficient? <==> before.balance < bet)
    && (out.Insufficient? ==> out == Insufficient(bet, before.balance))
    && (!out.Insufficient? ==> out == Flipped(FlipResult(heads), choice == FlipResult(heads), bet, before.balance))
    && after == Some(before)
  }

  /** What the intended handler does once the arguments are valid. */
  ghost predicate IntendedEffect(before: UserView, choice: string, bet: int, heads: bool, out: Outcome, after: Option<UserView>) {
    && (out.Insufficient? <==> before.balance < bet)
    && (out.Insufficient? ==> out == Insufficient(bet, before.balance) && after == Some(before))
    && (!out.Insufficient? ==>
          var stake := Stake(choice, FlipResult(heads), bet);
          && out == Flipped(FlipResult(heads), choice == FlipResult(heads), bet, before.balance + stake)
          && out.balance >= 0
          && after == Some(before.(balance := before.balance + stake)))
  }

  /**
   * The discrepancy: whenever the coin is flipped, the as-written handler leaves a stored
   * balance that differs from the intended one by the whole stake, win or lose.
   */
  lemma AsWrittenLosesStake(before: UserView, choice: string, bet: int, heads: bool,
                            out1: Outcome, after1: Option<UserView>, out2: Outcome, after2: Option<UserView>)
    requires bet > 0
    requires AsWrittenEffect(before, choice, bet, heads, out1, after1)
    requires IntendedEffect(before, choice, bet, heads, out2, after2)
    requires out1.Flipped?
    ensures out2.Flipped? && after1.Some? && after2.Some?
    ensures after2.value.balance - after1.value.balance == Stake(choice, FlipResult(heads), bet) != 0
    ensures out2.balance - out1.balance == Stake(choice, FlipResult(heads), bet)
  {
  }

  /**
   * The handler as written: the record is fetched (and created if missing), but the write
   * goes to the wrong key, so the record's balance never changes, and the reply reports the
   * balance from before the flip.
   */
  method ExecuteAsWritten(db: Database, userId: string, guildId: string, args: seq<string>, heads: bool)
    returns (out: Outcome)
    requires db.Valid() && IsSnowflake(guildId)
    modifies db
    ensures db.Valid() && db.guildSettings == old(db.guildSettings)
    ensures Validate(args).Rejected? ==> out == Validate(args).reply && db.users == old(db.users)
    ensures Validate(args).Accepted? ==>
      && AsWrittenEffect(old(db.UserOf(userId, guildId)), Validate(args).choice, Validate(args).bet, heads, out,
           db.Entry(UserKey(guildId, userId)))
      && db.Entry(LostWriteKey) == if out.Flipped? then None else old(db.Entry(LostWriteKey))
    ensures forall k :: k != UserKey(guildId, userId) && k != LostWriteKey ==> db.Entry(k) == old(db.Entry(k))
  {
    var v := Validate(args);
    if v.Rejected? {
      return v.reply;
    }
    out := SettleAsWritten(db, userId, guildId, v.choice, v.bet, heads);
  }

  /** The as-written part after validation: the flip is computed, but the write misses the record. */
  method SettleAsWritten(db: Database, userId: string, guildId: string, choice: string, bet: int, heads: bool)
    returns (out: Outcome)
    requires db.Valid() && IsSnowflake(guildId)
    modifies db
    ensures db.Valid() && db.guildSettings == old(db.guildSettings)
    ensures AsWrittenEffect(old(db.UserOf(userId, guildId)), choice, bet, heads, out, db.Entry(UserKey(guildId, userId)))
    ensures db.Entry(LostWriteKey) == if out.Flipped? then None else old(db.Entry(LostWriteKey))
    ensures forall k :: k != UserKey(guildId, userId) && k != LostWriteKey ==> db.Entry(k) == old(db.Entry(k))
  {
    RecordAsUserIdKeyIsNoUserKey(guildId, userId);
    var user := db.GetUser(userId, guildId);
    if user.balance < bet {
      return Insufficient(bet, user.balance);
    }
    var result := FlipResult(heads);
    var won := choice == result;
    db.UpdateUser(UndefinedText, ObjectText, null);
    out := Flipped(result, won, bet, user.balance);
  }

  /**
   * The handler as intended: the stake is applied to the caller's record, which is
   * written back under its own key, and the reply reports the new balance.
   */
  method Execute(db: Database, userId: string, guildId: string, args: seq<string>, heads: bool)
    returns (out: Outcome)
    requires db.Valid() && IsSnowflake(guildId)
    modifies db, db.users.Values
    ensures db.Valid() && db.guildSettings == old(db.guildSettings)
    ensures Validate(args).Rejected? ==> out == Validate(args).reply && db.users == old(db.users)
    ensures Validate(args).Accepted? ==>
      IntendedEffect(old(db.UserOf(userId, guildId)), Validate(args).choice, Validate(args).bet, heads, out,
        db.Entry(UserKey(guildId, userId)))
    ensures forall k :: k != UserKey(guildId, userId) ==> db.Entry(k) == old(db.Entry(k))
  {
    var v := Validate(args);
    if v.Rejected? {
      return v.reply;
    }
    out := Settle(db, userId, guildId, v.choice, v.bet, heads);
  }

  /** The intended part after validation: fetch the record, check the balance, apply the stake. */
  method Settle(db: Database, userId: string, guildId: string, choice: string, bet: int, heads: bool)
    returns (out: Outcome)
    requires db.Valid() && IsSnowflake(guildId) && bet > 0
    modifies db, db.users.Values
    ensures db.Valid() && db.guildSettings == old(db.guildSettings)
    ensures IntendedEffect(old(db.UserOf(userId, guildId)), choice, bet, heads, out, db.Entry(UserKey(guildId, userId)))
    ensures forall k :: k != UserKey(guildId, userId) ==> db.Entry(k) == old(db.Entry(k))
  {
    var user := db.GetUser(userId, guildId);
    if user.balance < bet {
      return Insufficient(bet, user.balance);
    }
    var result := FlipResult(heads);
    user.balance := user.balance + Stake(choice, result, bet);
    db.UpdateUser(userId, guildId, user);
    out := Flipped(result, choice == result, bet, user.balance);
  }
}
