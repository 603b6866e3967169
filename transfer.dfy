/**
 * The `transfer` command: moves coins from the author's record to a mentioned user's
 * record in the same guild. The first mentioned user is a parameter.
 */
module Transfer {
  import opened Wrappers
  import opened JsText
  import opened Store

  /** The first user mentioned in the message, as the handler reads it. */
  datatype Mention = Mention(id: string, bot: bool)

  datatype Outcome =
    | Usage
    | NoTarget
    | SelfTransfer
    | BotTarget
    | InvalidAmount
    | Insufficient(balance: int)
    | Transferred(amount: int, newBalance: int)

  /** The validations that come before any record is read, in the handler's order. */
  function Validate(authorId: string, args: seq<string>, target: Option<Mention>): (r: Option<Outcome>)
    ensures r.Some? ==> r.value in {Usage, NoTarget, SelfTransfer, BotTarget, InvalidAmount}
    ensures r.None? <==>
      |args| >= 2 && target.Some? && target.value.id != authorId && !target.value.bot
      && ParseInt(args[1]).Some? && ParseInt(args[1]).value > 0
  {
    if |args| < 2 then Some(Usage)
    else if target.None? then Some(NoTarget)
    else if target.value.id == authorId then Some(SelfTransfer)
    else if target.value.bot then Some(BotTarget)
    else match ParseInt(args[1])
      case None => Some(InvalidAmount)
      case Some(n) => if n <= 0 then Some(InvalidAmount) else None
  }

  /**
   * What the balance check and the move leave behind, for the two records' values `sender`
   * and `receiver` before: a sender short of `amount` keeps the record unchanged; otherwise
   * the sender loses exactly `amount`, the receiver gains it, and their sum is kept.
   */
  ghost predicate Moved(db: Database, authorId: string, receiverId: string, guildId: string, amount: int,
                        sender: UserView, receiver: UserView, out: Outcome)
    reads db, db.users.Values
  {
    && (out.Insufficient? <==> sender.balance < amount)
    && (out.Insufficient? ==>
          out.balance == sender.balance && db.Entry(UserKey(guildId, authorId)) == Some(sender))
    && (!out.Insufficient? ==>
          && out == Transferred(amount, sender.balance - amount)
          && db.Entry(UserKey(guildId, authorId)) == Some(sender.(balance := sender.balance - amount))
          && db.Entry(UserKey(guildId, receiverId)) == Some(receiver.(balance := receiver.balance + amount))
          && db.UserOf(authorId, guildId).balance + db.UserOf(receiverId, guildId).balance
             == sender.balance + receiver.balance)
  }

  method Execute(db: Database, authorId: string, guildId: string, args: seq<string>, target: Option<Mention>)
    returns (out: Outcome)
    requires db.Valid() && IsSnowflake(authorId) && IsSnowflake(guildId)
    requires target.Some? ==> IsSnowflake(target.value.id)
    modifies db, db.users.Values
    ensures db.Valid() && db.guildSettings == old(db.guildSettings)
    ensures Validate(authorId, args, target).Some? ==>
      out == Validate(authorId, args, target).value && db.users == old(db.users)
    ensures Validate(authorId, args, target).None? ==>
      Moved(db, authorId, target.value.id, guildId, ParseInt(args[1]).value,
            old(db.UserOf(authorId, guildId)), old(db.UserOf(target.value.id, guildId)), out)
    ensures Validate(authorId, args, target).None? && out.Insufficient? ==>
      forall k :: k != UserKey(guildId, authorId) ==> db.Entry(k) == old(db.Entry(k))
    ensures Validate(authorId, args, target).None? && !out.Insufficient? ==>
      forall k :: k != UserKey(guildId, authorId) && k != UserKey(guildId, target.value.id) ==>
        db.Entry(k) == old(db.Entry(k))
  {
    var rejected := Validate(authorId, args, target);
    if rejected.Some? {
      return rejected.value;
    }
    out := Move(db, authorId, target.value.id, guildId, ParseInt(args[1]).value);
  }

  /** The part after validation: the balance check, then the move between the two records. */
  method Move(db: Database, authorId: string, receiverId: string, guildId: string, amount: int)
    returns (out: Outcome)
    requires db.Valid() && IsSnowflake(authorId) && IsSnowflake(receiverId) && IsSnowflake(guildId)
    requires authorId != receiverId
    modifies db, db.users.Values
    ensures db.Valid() && db.guildSettings == old(db.guildSettings)
    ensures Moved(db, authorId, receiverId, guildId, amount,
                  old(db.UserOf(authorId, guildId)), old(db.UserOf(receiverId, guildId)), out)
    ensures out.Insufficient? ==> forall k :: k != UserKey(guildId, authorId) ==> db.Entry(k) == old(db.Entry(k))
    ensures !out.Insufficient? ==>
      forall k :: k != UserKey(guildId, authorId) && k != UserKey(guildId, receiverId) ==> db.Entry(k) == old(db.Entry(k))
  {
    var sender := db.GetUser(authorId, guildId);
    if sender.balance < amount {
      return Insufficient(sender.balance);
    }
    UserKeyInjective(guildId, authorId, guildId, receiverId);
    out := Pay(db, sender, receiverId, guildId, amount);
  }

  /** Fetches the receiver's record and moves `amount` from the sender's already fetched record to it. */
  method Pay(db: Database, sender: UserRecord, receiverId: string, guildId: string, amount: int)
    returns (out: Outcome)
    requires db.Valid() && sender.Key() in db.users && db.users[sender.Key()] == sender
    requires sender.Key() != UserKey(guildId, receiverId)
    modifies db, db.users.Values
    ensures db.Valid() && db.guildSettings == old(db.guildSettings)
    ensures
      var senderBefore := old(sender.View());
      var receiver := old(db.UserOf(receiverId, guildId));
      && out == Transferred(amount, senderBefore.balance - amount)
      && db.Entry(sender.Key()) == Some(senderBefore.(balance := senderBefore.balance - amount))
      && db.Entry(UserKey(guildId, receiverId)) == Some(receiver.(balance := receiver.balance + amount))
      && forall k :: k != sender.Key() && k != UserKey(guildId, receiverId) ==> db.Entry(k) == old(db.Entry(k))
  {
    var receiver := db.GetUser(receiverId, guildId);
    out := Settle(db, sender, receiver, amount);
  }

  /** Both records are fetched: the balances change in place and both are stored back under their keys. */
  method Settle(db: Database, sender: UserRecord, receiver: UserRecord, amount: int) returns (out: Outcome)
    requires db.Valid() && sender.Key() != receiver.Key()
    requires sender.Key() in db.users && db.users[sender.Key()] == sender
    requires receiver.Key() in db.users && db.users[receiver.Key()] == receiver
    modifies db, sender, receiver
    ensures db.Valid() && db.guildSettings == old(db.guildSettings)
    ensures
      var senderBefore := old(sender.View());
      var receiverBefore := old(receiver.View());
      && out == Transferred(amount, senderBefore.balance - amount)
      && db.Entry(sender.Key()) == Some(senderBefore.(balance := senderBefore.balance - amount))
      && db.Entry(receiver.Key()) == Some(receiverBefore.(balance := receiverBefore.balance + amount))
      && forall k :: k != sender.Key() && k != receiver.Key() ==> db.Entry(k) == old(db.Entry(k))
  {
    sender.balance := sender.balance - amount;
    receiver.balance := receiver.balance + amount;
    db.UpdateUser(sender.userId, sender.guildId, sender);
    db.UpdateUser(receiver.userId, receiver.guildId, receiver);
    out := Transferred(amount, sender.balance);
  }
}
