/**
 * The `slots` command: the caller bets a positive amount, three symbols are drawn, and the
 * balance changes by `bet * (multiplier - 1)`. The handler changes the fetched record in
 * place and then stores `undefined` under `"undefined-[object Object]"`. The draws are
 * parameters: `draw0`, `draw1` and `draw2` are `Math.floor(Math.random() * 8)`.
 */
module Slots {
  import opened Wrappers
  import opened JsText
  import opened Store

  /** The eight reel symbols: cherry, lemon, orange, grapes, watermelon, gem, keycap seven, slot machine. */
  const Symbols: seq<string> := [
    "\U{1F352}", "\U{1F34B}", "\U{1F34A}", "\U{1F347}", "\U{1F349}", "\U{1F48E}", "7\U{FE0F}\U{20E3}", "\U{1F3B0}"
  ]
  const Diamond: string := "\U{1F48E}"
  const Seven: string := "7\U{FE0F}\U{20E3}"

  datatype Outcome =
    | Usage
    | BadBet
    | Insufficient(bet: int, balance: int)
    | Spun(results: seq<string>, multiplier: int, winnings: int, balance: int)

  /** The payout multiplier of three results. */
  function Multiplier(a: string, b: string, c: string): int {
    if a == b && b == c then
      if a == Seven then 10 else if a == Diamond then 7 else 5
    else if a == b || b == c || a == c then 2
    else 0
  }

  /**
   * The multiplier depends on how many distinct symbols came up: one gives a triple
   * (10, 7 or 5), two give a pair (2), three give nothing.
   */
  lemma MultiplierByDistinct(a: string, b: string, c: string)
    ensures |{a, b, c}| == 1 <==> Multiplier(a, b, c) in {5, 7, 10}
    ensures |{a, b, c}| == 2 <==> Multiplier(a, b, c) == 2
    ensures |{a, b, c}| == 3 <==> Multiplier(a, b, c) == 0
    ensures Multiplier(a, b, c) == 10 <==> a == b == c == Seven
    ensures Multiplier(a, b, c) == 7 <==> a == b == c == Diamond
  {
    if a == b && b == c {
      assert {a, b, c} == {a};
    } else if a == b {
      assert {a, b, c} == {a, c};
    } else if b == c {
      assert {a, b, c} == {a, b};
    } else if a == c {
      assert {a, b, c} == {a, b};
    } else {
      assert |{a, b, c}| == 3 by {
        assert {a, b, c} == {a} + {b} + {c};
      }
    }
  }

  /** The order of the reels does not matter. */
  lemma MultiplierSymmetric(a: string, b: string, c: string)
    ensures Multiplier(a, b, c) == Multiplier(b, a, c) == Multiplier(a, c, b) == Multiplier(c, b, a)
  {
  }

  /** The bet as the handler reads it: `parseInt(args[0])`, rejected when NaN or not positive. */
  function Bet(args: seq<string>): (r: Option<int>)
    requires |args| >= 1
    ensures r.Some? <==> ParseInt(args[0]).Some? && ParseInt(args[0]).value > 0
    ensures r.Some? ==> r.value == ParseInt(args[0]).value
  {
    match ParseInt(args[0])
    case None => None
    case Some(n) => if n <= 0 then None else Some(n)
  }

  /** The net change of a spin: a win pays `bet * multiplier`, and the bet itself is always paid. */
  function NetGain(bet: int, multiplier: int): int {
    bet * multiplier - bet
  }

  /** A losing spin costs exactly the bet, a pair doubles it, and no spin costs more than the bet. */
  lemma NetGainBounds(bet: int, a: string, b: string, c: string)
    requires bet > 0
    ensures Multiplier(a, b, c) == 0 ==> NetGain(bet, Multiplier(a, b, c)) == -bet
    ensures Multiplier(a, b, c) == 2 ==> NetGain(bet, Multiplier(a, b, c)) == bet
    ensures NetGain(bet, Multiplier(a, b, c)) >= -bet
    ensures Multiplier(a, b, c) > 0 <==> NetGain(bet, Multiplier(a, b, c)) >= 0
  {
    var m := Multiplier(a, b, c);
    assert m >= 0;
    if m > 0 {
      assert bet * m >= bet * 1;
    }
  }

  method Execute(db: Database, userId: string, guildId: string, args: seq<string>, draw0: nat, draw1: nat, draw2: nat)
    returns (out: Outcome)
    requires db.Valid() && IsSnowflake(userId) && IsSnowflake(guildId)
    requires draw0 < |Symbols| && draw1 < |Symbols| && draw2 < |Symbols|
    modifies db, db.users.Values
    ensures db.Valid() && db.guildSettings == old(db.guildSettings)
    ensures (|args| == 0 <==> out == Usage) && (out == BadBet <==> |args| > 0 && Bet(args).None?)
    ensures out == Usage || out == BadBet ==> db.users == old(db.users)
    ensures out.Insufficient? || out.Spun? ==>
      SpinEffect(old(db.UserOf(userId, guildId)), Bet(args).value, Symbols[draw0], Symbols[draw1], Symbols[draw2], out,
        db.Entry(UserKey(guildId, userId)))
    ensures db.Entry(RecordAsUserIdKey) == if out.Spun? then None else old(db.Entry(RecordAsUserIdKey))
    ensures forall k :: k != UserKey(guildId, userId) && k != RecordAsUserIdKey ==> db.Entry(k) == old(db.Entry(k))
  {
    if |args| == 0 {
      return Usage;
    }
    var bet := Bet(args);
    if bet.None? {
      return BadBet;
    }
    out := Play(db, userId, guildId, bet.value, Symbols[draw0], Symbols[draw1], Symbols[draw2]);
  }

  /**
   * What a spin with a valid bet does to the caller's record `before`: rejected when the
   * bet exceeds the balance, otherwise paid out by the multiplier; `after` is the stored record.
   */
  ghost predicate SpinEffect(before: UserView, bet: int, a: string, b: string, c: string, out: Outcome, after: Option<UserView>) {
    && (out.Spun? <==> before.balance >= bet)
    && (out.Insufficient? ==> out == Insufficient(bet, before.balance) && after == Some(before))
    && (out.Spun? ==>
          var m := Multiplier(a, b, c);
          && out == Spun([a, b, c], m, bet * m, before.balance + NetGain(bet, m))
          && out.balance >= 0
          && after == Some(before.(balance := out.balance)))
  }

  /** The part after the bet is parsed: fetch the record, check the balance, pay out. */
  method Play(db: Database, userId: string, guildId: string, bet: int, a: string, b: string, c: string)
    returns (out: Outcome)
    requires db.Valid() && IsSnowflake(guildId) && bet > 0
    modifies db, db.users.Values
    ensures db.Valid() && db.guildSettings == old(db.guildSettings)
    ensures out.Insufficient? || out.Spun?
    ensures SpinEffect(old(db.UserOf(userId, guildId)), bet, a, b, c, out, db.Entry(UserKey(guildId, userId)))
    ensures db.Entry(RecordAsUserIdKey) == if out.Spun? then None else old(db.Entry(RecordAsUserIdKey))
    ensures forall k :: k != UserKey(guildId, userId) && k != RecordAsUserIdKey ==> db.Entry(k) == old(db.Entry(k))
  {
    RecordAsUserIdKeyIsNoUserKey(guildId, userId);
    var user := db.GetUser(userId, guildId);
    if user.balance < bet {
      return Insufficient(bet, user.balance);
    }
    var m := Multiplier(a, b, c);
    NetGainBounds(bet, a, b, c);
    user.balance := user.balance + NetGain(bet, m);
    db.UpdateUser(ObjectText, UndefinedText, null);
    out := Spun([a, b, c], m, bet * m, user.balance);
  }
}
