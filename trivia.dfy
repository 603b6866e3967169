/**
 * The `trivia` command: the correct answer and the incorrect ones are shuffled in place,
 * labelled A, B, C, D in their new order, and the caller answers with a reaction. A correct
 * answer earns 100 coins; the handler changes the fetched record in place and then stores
 * `undefined` under `"undefined-[object Object]"`. The fetched question, the shuffle's
 * draws and the collected reaction (or a timeout) are parameters.
 */
module Trivia {
  import opened Wrappers
  import opened Store

  const Reward: int := 100

  /** The regional-indicator letters A to D used as option labels and reactions. */
  const Labels: seq<string> := ["\U{1F1E6}", "\U{1F1E7}", "\U{1F1E8}", "\U{1F1E9}"]

  // ---------------------------------------------------------------- the shuffle

  function Swap<T>(s: seq<T>, i: nat, j: nat): (r: seq<T>)
    requires i < |s| && j < |s|
    ensures |r| == |s|
  {
    s[i := s[j]][j := s[i]]
  }

  /** Draw `i` is `Math.floor(Math.random() * (i + 1))`: a position in `[0, i]`. */
  predicate ValidDraws(n: nat, draws: seq<nat>) {
    |draws| == n && forall i :: 0 <= i < n ==> draws[i] <= i
  }

  /** The sequence after the swaps at positions `|s| - 1` down to `lo`. */
  function Shuffled<T>(s: seq<T>, draws: seq<nat>, lo: nat): (r: seq<T>)
    requires ValidDraws(|s|, draws) && lo <= |s|
    ensures |r| == |s|
    decreases |s| - lo
  {
    if lo == |s| then s else Swap(Shuffled(s, draws, lo + 1), lo, draws[lo])
  }

  lemma SwapPermutation<T>(s: seq<T>, i: nat, j: nat)
    requires i < |s| && j < |s|
    ensures multiset(Swap(s, i, j)) == multiset(s)
  {
    var t := s[i := s[j]];
    assert multiset(t) == multiset(s) - multiset{s[i]} + multiset{s[j]};
  }

  /** The shuffle only moves elements: the result is a permutation of the input. */
  lemma {:induction false} ShuffledPermutation<T>(s: seq<T>, draws: seq<nat>, lo: nat)
    requires ValidDraws(|s|, draws) && lo <= |s|
    ensures multiset(Shuffled(s, draws, lo)) == multiset(s)
    decreases |s| - lo
  {
    if lo < |s| {
      var t := Shuffled(s, draws, lo + 1);
      ShuffledPermutation(s, draws, lo + 1);
      SwapPermutation(t, lo, draws[lo]);
      assert Shuffled(s, draws, lo) == Swap(t, lo, draws[lo]);
    }
  }

  /**
   * A position is final once its swap is done: later swaps only exchange lower positions,
   * so position `k` keeps the element its own draw put there.
   */
  lemma {:induction false} ShuffledSettles<T>(s: seq<T>, draws: seq<nat>, lo: nat, k: nat)
    requires ValidDraws(|s|, draws) && lo <= k < |s|
    ensures Shuffled(s, draws, lo)[k] == Shuffled(s, draws, k)[k]
    decreases k - lo
  {
    if lo < k {
      ShuffledSettles(s, draws, lo + 1, k);
    }
  }

  /** Swapping position 0 with itself changes nothing, so the last swap the loop skips is not missed. */
  lemma ShuffledFromOne<T>(s: seq<T>, draws: seq<nat>)
    requires ValidDraws(|s|, draws) && |s| >= 1
    ensures Shuffled(s, draws, 0) == Shuffled(s, draws, 1)
  {
    var t := Shuffled(s, draws, 1);
    assert draws[0] == 0;
    assert Swap(t, 0, 0) == t;
  }

  /** `shuffleArray`: for `i` from `n - 1` down to 1, swap `a[i]` with `a[draws[i]]`. */
  method Shuffle<T>(a: array<T>, draws: seq<nat>)
    requires ValidDraws(a.Length, draws)
    modifies a
    ensures a[..] == Shuffled(old(a[..]), draws, 0)
    ensures multiset(a[..]) == multiset(old(a[..]))
  {
    var i: int := a.Length - 1;
    while i > 0
      invariant -1 <= i < a.Length
      invariant a[..] == Shuffled(old(a[..]), draws, i + 1)
    {
      var j := draws[i];
      a[i], a[j] := a[j], a[i];
      i := i - 1;
    }
    if a.Length > 0 {
      ShuffledFromOne(old(a[..]), draws);
    }
    ShuffledPermutation(old(a[..]), draws, 0);
  }

  // ---------------------------------------------------------------- labels

  /** `options[index]`: one of the four labels, or `undefined` past the fourth answer. */
  function LabelAt(k: nat): string {
    if k < |Labels| then Labels[k] else UndefinedText
  }

  lemma LabelsDistinct()
    ensures forall i, j :: 0 <= i < j < |Labels| ==> Labels[i] != Labels[j]
    ensures forall i :: 0 <= i < |Labels| ==> Labels[i] != UndefinedText
  {
    assert forall i :: 0 <= i < |Labels| ==> |Labels[i]| == 1;
  }

  /** `answerMap` after the labelling callback ran over `answers`. */
  ghost predicate Labelled(m: map<string, string>, answers: seq<string>) {
    && (forall tag :: tag in m <==> exists k :: 0 <= k < |answers| && LabelAt(k) == tag)
    && (forall k :: 0 <= k < |answers| && k < |Labels| ==> Labels[k] in m && m[Labels[k]] == answers[k])
    && (|answers| > |Labels| ==> UndefinedText in m && m[UndefinedText] == answers[|answers| - 1])
  }

  /** The labelling callback: answer `k` is stored under label `k`; later answers overwrite `undefined`. */
  method LabelAnswers(answers: seq<string>) returns (m: map<string, string>)
    ensures Labelled(m, answers)
  {
    LabelsDistinct();
    m := map[];
    var k := 0;
    while k < |answers|
      invariant 0 <= k <= |answers|
      invariant forall tag :: tag in m <==> exists i :: 0 <= i < k && LabelAt(i) == tag
      invariant forall i :: 0 <= i < k && i < |Labels| ==> Labels[i] in m && m[Labels[i]] == answers[i]
      invariant k > |Labels| ==> UndefinedText in m && m[UndefinedText] == answers[k - 1]
    {
      m := m[LabelAt(k) := answers[k]];
      k := k + 1;
    }
  }

  /** The answer shown next to a label: the one in the label's position, if there is one. */
  function Chosen(answers: seq<string>, tag: string): (r: Option<string>)
    requires tag in Labels
  {
    var k := LabelIndex(tag);
    if k < |answers| then Some(answers[k]) else None
  }

  /** The position of a label among the four. */
  function LabelIndex(tag: string): (k: nat)
    requires tag in Labels
    ensures k < |Labels| && Labels[k] == tag
  {
    if tag == Labels[0] then 0 else if tag == Labels[1] then 1 else if tag == Labels[2] then 2 else 3
  }

  /** Reading the answer map for a reaction gives the answer shown next to that reaction's label. */
  lemma LookupIsChosen(m: map<string, string>, answers: seq<string>, tag: string)
    requires Labelled(m, answers) && tag in Labels
    ensures (tag in m) == Chosen(answers, tag).Some?
    ensures tag in m ==> m[tag] == Chosen(answers, tag).value
  {
    LabelsDistinct();
    var k := LabelIndex(tag);
    if tag in m {
      var i :| 0 <= i < |answers| && LabelAt(i) == tag;
      assert i < |Labels|;
    }
  }

  /**
   * With at most four answers, one of the labels leads to the correct answer; if the
   * answers are distinct, it is the only one.
   */
  lemma CorrectLabelExists(answers: seq<string>, correct: string)
    requires correct in answers && |answers| <= |Labels|
    ensures exists k :: 0 <= k < |answers| && Chosen(answers, Labels[k]) == Some(correct)
    ensures (forall i, j :: 0 <= i < j < |answers| ==> answers[i] != answers[j]) ==>
      forall k1, k2 ::
        (0 <= k1 < |answers| && 0 <= k2 < |answers| &&
         Chosen(answers, Labels[k1]) == Some(correct) && Chosen(answers, Labels[k2]) == Some(correct)) ==> k1 == k2
  {
    LabelsDistinct();
    var k :| 0 <= k < |answers| && answers[k] == correct;
    assert Chosen(answers, Labels[k]) == Some(correct);
  }

  // ---------------------------------------------------------------- the round

  datatype Question = Question(correct: string, incorrect: seq<string>)

  datatype Outcome =
    | FetchFailed
    | TimedOut(correctAnswer: string, reactions: seq<string>)
    | Answered(isCorrect: bool, correctAnswer: string, reactions: seq<string>, balance: int)

  /** The labels the bot reacts with: one per answer, at most four. */
  function Reactions(n: nat): (r: seq<string>)
    ensures |r| <= |Labels| && |r| <= n && r == Labels[..|r|]
    ensures n <= |Labels| ==> |r| == n
  {
    if n < |Labels| then Labels[..n] else Labels
  }

  /** The answers in the order they are shown. */
  function Presented(q: Question, draws: seq<nat>): seq<string>
    requires ValidDraws(1 + |q.incorrect|, draws)
  {
    Shuffled([q.correct] + q.incorrect, draws, 0)
  }

  method Execute(db: Database, userId: string, guildId: string, question: Option<Question>, draws: seq<nat>,
                 reaction: Option<string>)
    returns (out: Outcome)
    requires db.Valid() && IsSnowflake(guildId)
    requires question.Some? ==> ValidDraws(1 + |question.value.incorrect|, draws)
    requires reaction.Some? ==> reaction.value in Labels
    modifies db, db.users.Values
    ensures db.Valid() && db.guildSettings == old(db.guildSettings)
    ensures question.None? ==> out == FetchFailed && db.users == old(db.users)
    ensures question.Some? && reaction.None? ==>
      out == TimedOut(question.value.correct, Reactions(1 + |question.value.incorrect|)) && db.users == old(db.users)
    ensures question.Some? && reaction.Some? ==>
      var q := question.value;
      && out.Answered? && out.correctAnswer == q.correct && out.reactions == Reactions(1 + |q.incorrect|)
      && (out.isCorrect <==> Chosen(Presented(q, draws), reaction.value) == Some(q.correct))
      && RewardEffect(old(db.UserOf(userId, guildId)), out.isCorrect, out.balance, db.Entry(UserKey(guildId, userId)))
      && db.Entry(RecordAsUserIdKey) == if out.isCorrect then None else old(db.Entry(RecordAsUserIdKey))
    ensures forall k :: k != UserKey(guildId, userId) && k != RecordAsUserIdKey ==> db.Entry(k) == old(db.Entry(k))
  {
    if question.None? {
      return FetchFailed;
    }
    var q := question.value;
    var answers := Present(q, draws);
    var answerMap := LabelAnswers(answers);
    var reactions := Reactions(|answers|);
    if reaction.None? {
      return TimedOut(q.correct, reactions);
    }
    var tag := reaction.value;
    var isCorrect := tag in answerMap && answerMap[tag] == q.correct;
    LookupIsChosen(answerMap, answers, tag);
    var balance := Settle(db, userId, guildId, isCorrect);
    out := Answered(isCorrect, q.correct, reactions, balance);
  }

  /** `allAnswers`: the correct answer followed by the incorrect ones, shuffled in an array. */
  method Present(q: Question, draws: seq<nat>) returns (answers: seq<string>)
    requires ValidDraws(1 + |q.incorrect|, draws)
    ensures answers == Presented(q, draws)
    ensures multiset(answers) == multiset([q.correct] + q.incorrect)
  {
    var all := [q.correct] + q.incorrect;
    var a := new string[|all|](i requires 0 <= i < |all| => all[i]);
    assert a[..] == all;
    Shuffle(a, draws);
    answers := a[..];
  }

  /** The caller's record after the answer: 100 coins more when correct, unchanged otherwise. */
  ghost predicate RewardEffect(before: UserView, isCorrect: bool, balance: int, after: Option<UserView>) {
    && balance == before.balance + (if isCorrect then Reward else 0)
    && after == Some(before.(balance := balance))
  }

  /** Fetch (creating if needed) the caller's record and pay the reward for a correct answer. */
  method Settle(db: Database, userId: string, guildId: string, isCorrect: bool) returns (balance: int)
    requires db.Valid() && IsSnowflake(guildId)
    modifies db, db.users.Values
    ensures db.Valid() && db.guildSettings == old(db.guildSettings)
    ensures RewardEffect(old(db.UserOf(userId, guildId)), isCorrect, balance, db.Entry(UserKey(guildId, userId)))
    ensures db.Entry(RecordAsUserIdKey) == if isCorrect then None else old(db.Entry(RecordAsUserIdKey))
    ensures forall k :: k != UserKey(guildId, userId) && k != RecordAsUserIdKey ==> db.Entry(k) == old(db.Entry(k))
  {
    RecordAsUserIdKeyIsNoUserKey(guildId, userId);
    var user := db.GetUser(userId, guildId);
    if isCorrect {
      user.balance := user.balance + Reward;
      db.UpdateUser(ObjectText, UndefinedText, null);
    }
    balance := user.balance;
  }
}
