/** Money between accounts and savings goals (platform/service.go). Amounts are whole paise. */
module Goals {
  import opened Text
  import opened Wrappers

  const MAX_CONTRIBUTION := 100_000_000
  const MAX_INT64 := 0x7FFF_FFFF_FFFF_FFFF

  datatype Status = Active | Completed | Paused | Closed | Dissolved

  datatype Goal = Goal(id: string, target: int, saved: int, status: Status)

  datatype Error =
    | NotPositive | TooLarge | GoalNotActive | WouldOverflow | InsufficientFunds | GoalNotFound
    | OnlyActive | OnlyPaused | UserNotFound | AlreadyDissolved

  // ---------------------------------------------------------------- debits

  function Sum(balances: seq<int>): int {
    if balances == [] then 0 else balances[0] + Sum(balances[1..])
  }

  /** totalBalanceLocked: overdrawn accounts do not count. */
  function Available(balances: seq<int>): int {
    if balances == [] then 0 else (if balances[0] > 0 then balances[0] else 0) + Available(balances[1..])
  }

  /** The accounts after `remaining` was taken from them in order. */
  function Debited(balances: seq<int>, remaining: int): seq<int> {
    if balances == [] || remaining <= 0 then balances
    else if balances[0] <= 0 then [balances[0]] + Debited(balances[1..], remaining)
    else if balances[0] >= remaining then [balances[0] - remaining] + balances[1..]
    else [0] + Debited(balances[1..], remaining - balances[0])
  }

  /** A covered debit takes exactly its amount, leaves no account below zero that was not, and
      raises none. */
  lemma {:induction false} DebitTakesAmount(balances: seq<int>, amount: int)
    requires 0 <= amount <= Available(balances)
    ensures Sum(Debited(balances, amount)) == Sum(balances) - amount
    ensures |Debited(balances, amount)| == |balances|
    ensures forall i :: 0 <= i < |balances| ==>
      if balances[i] <= 0 then Debited(balances, amount)[i] == balances[i]
      else 0 <= Debited(balances, amount)[i] <= balances[i]
  {
    if balances != [] && amount > 0 {
      var head, tail := balances[0], balances[1..];
      if head <= 0 {
        DebitTakesAmount(tail, amount);
      } else if head >= amount {
        assert ([head - amount] + tail)[1..] == tail;
      } else {
        DebitTakesAmount(tail, amount - head);
      }
    }
  }

  /** One turn of the debit loop: what is done grows by one account and the rest is as before. */
  lemma DebitStep(acct: seq<int>, i: nat, remaining: int)
    requires i < |acct| && remaining > 0
    ensures
      var x := if acct[i] <= 0 then acct[i] else if acct[i] >= remaining then acct[i] - remaining else 0;
      var left := if acct[i] <= 0 then remaining else if acct[i] >= remaining then 0 else remaining - acct[i];
      var next := if acct[i] > 0 then acct[i := x] else acct;
      next[i + 1..] == acct[i..][1..] == acct[i + 1..] &&
      next[..i + 1] + Debited(next[i + 1..], left) == acct[..i] + Debited(acct[i..], remaining)
  {
    var x := if acct[i] <= 0 then acct[i] else if acct[i] >= remaining then acct[i] - remaining else 0;
    var left := if acct[i] <= 0 then remaining else if acct[i] >= remaining then 0 else remaining - acct[i];
    var next := if acct[i] > 0 then acct[i := x] else acct;
    assert acct[i..][0] == acct[i] && acct[i..][1..] == acct[i + 1..];
    assert next[..i + 1] == acct[..i] + [x] && next[i + 1..] == acct[i + 1..];
    assert acct[..i] + ([x] + Debited(acct[i + 1..], left)) == next[..i + 1] + Debited(acct[i + 1..], left);
  }

  lemma DebitNothing(balances: seq<int>, amount: int)
    requires amount <= 0
    ensures Debited(balances, amount) == balances
  {
  }

  lemma DebitDone(acct: seq<int>, i: nat, remaining: int)
    requires i <= |acct| && (i < |acct| ==> remaining <= 0)
    ensures acct[..i] + Debited(acct[i..], remaining) == acct
  {
  }

  /** Accounts are drained in order: when a later one is touched, every earlier one with money is
      empty. */
  lemma {:induction false} DebitDrainsInOrder(balances: seq<int>, amount: int, i: nat, j: nat)
    requires i < j < |balances| == |Debited(balances, amount)|
    requires Debited(balances, amount)[j] != balances[j] && balances[i] > 0
    ensures Debited(balances, amount)[i] == 0
  {
    if amount > 0 {
      var left := if balances[0] <= 0 then amount else if balances[0] >= amount then 0 else amount - balances[0];
      DebitLength(balances[1..], left);
      DebitStops(balances[1..], left);
      if i > 0 {
        DebitDrainsInOrder(balances[1..], left, i - 1, j - 1);
      }
    }
  }

  lemma {:induction false} DebitLength(balances: seq<int>, amount: int)
    ensures |Debited(balances, amount)| == |balances|
  {
    if balances != [] && amount > 0 {
      DebitLength(balances[1..], amount);
      DebitLength(balances[1..], amount - balances[0]);
    }
  }

  lemma DebitStops(balances: seq<int>, amount: int)
    ensures amount <= 0 ==> Debited(balances, amount) == balances
  {
  }

  // ---------------------------------------------------------------- one user's money

  /** `paid` is what debits have taken out of the accounts for good. */
  datatype Purse = Purse(accounts: seq<int>, goals: seq<Goal>, paid: int)

  datatype Op =
    | Contribute(goal: string, amount: int)
    | Pause(goal: string)
    | Resume(goal: string)
    | Close(goal: string)
    | Dissolve(goal: string)
    | Debit(amount: int)

  function Saved(goals: seq<Goal>): int {
    if goals == [] then 0 else goals[0].saved + Saved(goals[1..])
  }

  function Total(p: Purse): int {
    Sum(p.accounts) + Saved(p.goals) + p.paid
  }

  /** The first goal with this id, or the number of goals. */
  function IndexOf(goals: seq<Goal>, id: string): (i: nat)
    ensures i <= |goals|
    ensures i < |goals| ==> goals[i].id == id
    ensures forall j :: 0 <= j < i ==> goals[j].id != id
  {
    if goals == [] || goals[0].id == id then 0 else 1 + IndexOf(goals[1..], id)
  }

  /** Why an operation is refused. */
  function Refusal(p: Purse, op: Op): Option<Error> {
    if op.Debit? then (if op.amount > 0 && Available(p.accounts) < op.amount then Some(InsufficientFunds) else None)
    else if op.Contribute? && op.amount <= 0 then Some(NotPositive)
    else if op.Contribute? && op.amount > MAX_CONTRIBUTION then Some(TooLarge)
    else
      var i := IndexOf(p.goals, op.goal);
      if i == |p.goals| then Some(GoalNotFound)
      else
        var g := p.goals[i];
        match op
        case Contribute(_, amount) =>
          if g.status != Active then Some(GoalNotActive)
          else if g.saved > MAX_INT64 - amount then Some(WouldOverflow)
          else if Available(p.accounts) < amount then Some(InsufficientFunds)
          else None
        case Pause(_) => if g.status != Active then Some(OnlyActive) else None
        case Resume(_) => if g.status != Paused then Some(OnlyPaused) else None
        case Dissolve(_) => if g.status == Dissolved then Some(AlreadyDissolved) else None
        case _ => None
  }

  function Contributed(g: Goal, amount: int): Goal {
    g.(saved := g.saved + amount, status := if g.saved + amount >= g.target then Completed else g.status)
  }

  function Emptied(g: Goal): Goal {
    g.(status := Dissolved, saved := if g.saved > 0 then 0 else g.saved)
  }

  /** The user's money after an operation; a refused one changes nothing. */
  function Apply(p: Purse, op: Op): Purse {
    if Refusal(p, op).Some? then p
    else if op.Debit? then
      if op.amount <= 0 then p else p.(accounts := Debited(p.accounts, op.amount), paid := p.paid + op.amount)
    else
      var i := IndexOf(p.goals, op.goal);
      var g := p.goals[i];
      match op
      case Contribute(_, amount) => p.(accounts := Debited(p.accounts, amount), goals := p.goals[i := Contributed(g, amount)])
      case Pause(_) => p.(goals := p.goals[i := g.(status := Paused)])
      case Resume(_) => p.(goals := p.goals[i := g.(status := Active)])
      case Close(_) => p.(goals := p.goals[i := g.(status := Closed)])
      case Dissolve(_) =>
        p.(accounts := if g.saved > 0 && p.accounts != [] then p.accounts[0 := p.accounts[0] + g.saved] else p.accounts,
           goals := p.goals[i := Emptied(g)])
  }

  /** Which goal an operation is about, and what becomes of it; all other goals stay as they are, and
      so do the accounts, but for a debit in order and savings returned to the first one. */
  ghost predicate Changed(p: Purse, op: Op, q: Purse) {
    if op.Debit? then q.goals == p.goals && q.paid == p.paid + op.amount && q.accounts == Debited(p.accounts, op.amount)
    else
      && q.paid == p.paid && |q.goals| == |p.goals|
      && exists i :: 0 <= i < |p.goals| && p.goals[i].id == op.goal && (forall j :: 0 <= j < i ==> p.goals[j].id != op.goal)
           && (forall j :: 0 <= j < |p.goals| && j != i ==> q.goals[j] == p.goals[j])
           && GoalChanged(p, op, p.goals[i], q.goals[i], q)
  }

  ghost predicate GoalChanged(p: Purse, op: Op, g: Goal, h: Goal, q: Purse) {
    && h.id == g.id && h.target == g.target
    && match op
       case Contribute(_, amount) =>
         && g.status == Active && 0 < amount <= 100_000_000
         && h.saved == g.saved + amount && h.saved <= 0x7FFF_FFFF_FFFF_FFFF
         && h.status == (if h.saved >= h.target then Completed else Active)
         && q.accounts == Debited(p.accounts, amount)
       case Pause(_) => g.status == Active && h.status == Paused && h.saved == g.saved && q.accounts == p.accounts
       case Resume(_) => g.status == Paused && h.status == Active && h.saved == g.saved && q.accounts == p.accounts
       case Close(_) => h.status == Closed && h.saved == g.saved && q.accounts == p.accounts
       case Dissolve(_) =>
         && g.status != Dissolved && h.status == Dissolved
         && h.saved == (if g.saved > 0 then 0 else g.saved)
         && q.accounts == (if g.saved > 0 && |p.accounts| > 0 then [p.accounts[0] + g.saved] + p.accounts[1..] else p.accounts)
       case Debit(_) => true
  }

  /** An operation that is not refused does this, and one that is does nothing. */
  lemma AppliedMeans(p: Purse, op: Op)
    requires op.Debit? ==> op.amount > 0
    ensures if Refusal(p, op).Some? then Apply(p, op) == p else Changed(p, op, Apply(p, op))
  {
    hide Debited, Available;
    if Refusal(p, op).None? && !op.Debit? {
      var i := IndexOf(p.goals, op.goal);
      assert i < |p.goals| && p.goals[i].id == op.goal;
      assert GoalChanged(p, op, p.goals[i], Apply(p, op).goals[i], Apply(p, op));
    }
  }

  /** Why, in the order of the checks: the amount, then the goal, its state, and the money. */
  lemma RefusalMeans(p: Purse, op: Op)
    ensures op.Contribute? ==>
      var i := IndexOf(p.goals, op.goal);
      && (Refusal(p, op) == Some(NotPositive) <==> op.amount <= 0)
      && (Refusal(p, op) == Some(TooLarge) <==> op.amount > 100_000_000)
      && (Refusal(p, op) == Some(GoalNotFound) <==> 0 < op.amount <= 100_000_000 && i == |p.goals|)
      && (Refusal(p, op) == Some(GoalNotActive) <==> 0 < op.amount <= 100_000_000 && i < |p.goals| && p.goals[i].status != Active)
      && (Refusal(p, op) == Some(WouldOverflow) <==>
            0 < op.amount <= 100_000_000 && i < |p.goals| && p.goals[i].status == Active && p.goals[i].saved + op.amount > 0x7FFF_FFFF_FFFF_FFFF)
      && (Refusal(p, op) == Some(InsufficientFunds) <==>
            0 < op.amount <= 100_000_000 && i < |p.goals| && p.goals[i].status == Active && p.goals[i].saved + op.amount <= 0x7FFF_FFFF_FFFF_FFFF
            && Available(p.accounts) < op.amount)
    ensures op.Pause? || op.Resume? || op.Close? || op.Dissolve? ==>
      var i := IndexOf(p.goals, op.goal);
      if i == |p.goals| then Refusal(p, op) == Some(GoalNotFound)
      else match op
           case Pause(_) => Refusal(p, op) == if p.goals[i].status == Active then None else Some(OnlyActive)
           case Resume(_) => Refusal(p, op) == if p.goals[i].status == Paused then None else Some(OnlyPaused)
           case Close(_) => Refusal(p, op) == None
           case Dissolve(_) => Refusal(p, op) == if p.goals[i].status == Dissolved then Some(AlreadyDissolved) else None
           case _ => true
    ensures op.Debit? ==> Refusal(p, op) == if op.amount > 0 && Available(p.accounts) < op.amount then Some(InsufficientFunds) else None
  {
    hide Available;
  }

  /** What is available is the sum with every overdrawn account counted as empty. */
  lemma {:induction false} AvailableIsPositivePart(balances: seq<int>, counted: seq<int>)
    requires |counted| == |balances|
    requires forall i :: 0 <= i < |balances| ==> counted[i] == if balances[i] < 0 then 0 else balances[i]
    ensures Available(balances) == Sum(counted)
  {
    if balances != [] {
      AvailableIsPositivePart(balances[1..], counted[1..]);
    }
  }

  lemma {:induction false} SavedUpdate(goals: seq<Goal>, i: nat, g: Goal)
    requires i < |goals|
    ensures Saved(goals[i := g]) == Saved(goals) - goals[i].saved + g.saved
  {
    if i > 0 {
      assert goals[i := g][1..] == goals[1..][i - 1 := g];
      SavedUpdate(goals[1..], i - 1, g);
    } else {
      assert goals[0 := g][1..] == goals[1..];
    }
  }

  /** Dissolving a goal that holds money when the user has no account to return it to. */
  predicate LosesMoney(p: Purse, op: Op) {
    && op.Dissolve? && Refusal(p, op).None? && p.accounts == []
    && p.goals[IndexOf(p.goals, op.goal)].saved > 0
  }

  /** An operation keeps the total exactly when it does not dissolve a funded goal of a user
      without accounts. */
  lemma ConservedExactly(p: Purse, op: Op)
    ensures Total(Apply(p, op)) == Total(p) <==> !LosesMoney(p, op)
  {
    if Refusal(p, op).None? {
      match op
      case Debit(amount) =>
        if amount > 0 {
          DebitTakesAmount(p.accounts, amount);
        }
      case Contribute(id, amount) =>
        DebitTakesAmount(p.accounts, amount);
        var i := IndexOf(p.goals, id);
        SavedUpdate(p.goals, i, Contributed(p.goals[i], amount));
      case Dissolve(id) =>
        var i := IndexOf(p.goals, id);
        SavedUpdate(p.goals, i, Emptied(p.goals[i]));
        if p.accounts != [] {
          assert p.accounts[0 := p.accounts[0] + p.goals[i].saved][1..] == p.accounts[1..];
        }
      case _ =>
        var i := IndexOf(p.goals, op.goal);
        SavedUpdate(p.goals, i, Apply(p, op).goals[i]);
    }
  }

  /** No overdraft, no negative savings, and a dissolved goal holds nothing. */
  ghost predicate InOrder(p: Purse) {
    && (forall i :: 0 <= i < |p.accounts| ==> p.accounts[i] >= 0)
    && (forall i :: 0 <= i < |p.goals| ==> p.goals[i].saved >= 0 && (p.goals[i].status == Dissolved ==> p.goals[i].saved == 0))
  }

  lemma StaysInOrder(p: Purse, op: Op)
    requires InOrder(p)
    ensures InOrder(Apply(p, op)) && |Apply(p, op).accounts| == |p.accounts|
  {
    if Refusal(p, op).None? {
      match op
      case Debit(amount) =>
        if amount > 0 {
          DebitTakesAmount(p.accounts, amount);
        }
      case Contribute(_, amount) => DebitTakesAmount(p.accounts, amount);
      case _ =>
    }
  }

  /** A user's money with the answers remembered under idempotency keys. */
  datatype Book = Book(purse: Purse, seen: map<string, Goal>)

  /** A contribution under a key, any other operation of the user, or an answer that another
      user's contribution leaves behind. */
  datatype Call =
    | Keyed(goal: string, amount: int, key: string)
    | Unkeyed(op: Op)
    | Elsewhere(key: string, answer: Goal)

  function Called(b: Book, c: Call): Book {
    match c
    case Keyed(goal, amount, key) =>
      var op := Contribute(goal, amount);
      if key in b.seen then b
      else if Refusal(b.purse, op).Some? then b
      else
        var p := Apply(b.purse, op);
        Book(p, b.seen[key := p.goals[IndexOf(b.purse.goals, goal)]])
    case Unkeyed(op) => b.(purse := Apply(b.purse, op))
    case Elsewhere(key, answer) => if key in b.seen then b else b.(seen := b.seen[key := answer])
  }

  function Run(b: Book, calls: seq<Call>): Book
    decreases |calls|
  {
    if calls == [] then b else Run(Called(b, calls[0]), calls[1..])
  }

  /** Over every run of a user with an account, accounts plus savings plus paid-out debits stay
      the same, nothing becomes negative, and dissolved goals are empty. */
  lemma {:induction false} RunConserves(b: Book, calls: seq<Call>)
    requires InOrder(b.purse) && b.purse.accounts != []
    ensures Total(Run(b, calls).purse) == Total(b.purse) && InOrder(Run(b, calls).purse)
    decreases |calls|
  {
    if calls != [] {
      var c := calls[0];
      if !c.Elsewhere? {
        var op := if c.Keyed? then Contribute(c.goal, c.amount) else c.op;
        ConservedExactly(b.purse, op);
        StaysInOrder(b.purse, op);
      }
      RunConserves(Called(b, c), calls[1..]);
    }
  }

  /** An answer, once remembered, is never replaced. */
  lemma {:induction false} AnswersLast(b: Book, calls: seq<Call>, key: string)
    requires key in b.seen
    ensures key in Run(b, calls).seen && Run(b, calls).seen[key] == b.seen[key]
    decreases |calls|
  {
    if calls != [] {
      AnswersLast(Called(b, calls[0]), calls[1..], key);
    }
  }

  /** Once a contribution under a key was answered with a goal, no contribution under that key
      takes money again: in every run it changes nothing and finds the same answer. */
  lemma KeyDebitsOnce(b: Book, first: Call, between: seq<Call>, amount: int, goal: string)
    requires first.Keyed? && first.key in Called(b, first).seen
    ensures var later := Run(Called(b, first), between);
      && Called(later, Keyed(goal, amount, first.key)) == later
      && first.key in later.seen && later.seen[first.key] == Called(b, first).seen[first.key]
  {
    AnswersLast(Called(b, first), between, first.key);
  }

  // ---------------------------------------------------------------- the service

  datatype UserId = UserId(name: string)

  /** The idempotency key of a contribution. The parts are joined without escaping. */
  function IdemKey(user: UserId, goal: string, key: string): string {
    user.name + ":" + goal + ":" + Trim(key)
  }

  /** When no user or goal id contains a colon, one key stands for one user, goal and client key. */
  lemma IdemKeyPinsParts(user: UserId, goal: string, key: string, user2: UserId, goal2: string, key2: string)
    requires ':' !in user.name && ':' !in goal && ':' !in user2.name && ':' !in goal2
    requires IdemKey(user, goal, key) == IdemKey(user2, goal2, key2)
    ensures user == user2 && goal == goal2 && Trim(key) == Trim(key2)
  {
    hide Trim;
    var rest, rest2 := goal + ":" + Trim(key), goal2 + ":" + Trim(key2);
    assert user.name + ":" + rest == IdemKey(user, goal, key);
    assert user2.name + ":" + rest2 == IdemKey(user2, goal2, key2);
    PrefixPinned(user.name, rest, user2.name, rest2);
    PrefixPinned(goal, Trim(key), goal2, Trim(key2));
  }

  lemma PrefixPinned(a: string, x: string, b: string, y: string)
    requires ':' !in a && ':' !in b && a + ":" + x == b + ":" + y
    ensures a == b && x == y
  {
    var whole := a + ":" + x;
    assert whole == b + ":" + y;
    assert whole[|a|] == ':' && whole[|b|] == ':';
    assert forall i :: 0 <= i < |a| ==> whole[i] == a[i];
    assert forall i :: 0 <= i < |b| ==> whole[i] == b[i];
    assert |a| == |b|;
    assert a == whole[..|a|] && b == whole[..|b|];
    assert x == whole[|a| + 1..] && y == whole[|b| + 1..];
  }

  /** The call that ContributeGoal makes. */
  function Contribution(user: UserId, goal: string, amount: int, key: string): (c: Call)
    ensures c == Keyed(goal, amount, IdemKey(user, goal, key)) || c == Unkeyed(Contribute(goal, amount))
  {
    if Trim(key) != "" then Keyed(goal, amount, IdemKey(user, goal, key)) else Unkeyed(Contribute(goal, amount))
  }

  /** What a contribution is answered. */
  function Answer(b: Book, c: Call): Result<Goal, Error>
    requires c.Keyed? || (c.Unkeyed? && c.op.Contribute?)
  {
    var op := if c.Keyed? then Contribute(c.goal, c.amount) else c.op;
    if c.Keyed? && c.key in b.seen then Ok(b.seen[c.key])
    else
      match Refusal(b.purse, op)
      case Some(e) => Err(e)
      case None => Ok(Apply(b.purse, op).goals[IndexOf(b.purse.goals, op.goal)])
  }

  /** What a client can rely on: white space around its key does not matter, a blank key is none, a
      known key is answered from memory without touching money, and any other contribution is made and
      remembered if it is not refused. */
  lemma ContributionMeans(b: Book, user: UserId, goal: string, amount: int, key: string)
    ensures forall other :: Trim(other) == Trim(key) ==> Contribution(user, goal, amount, other) == Contribution(user, goal, amount, key)
    ensures
      var c, id, op := Contribution(user, goal, amount, key), user.name + ":" + goal + ":" + Trim(key), Contribute(goal, amount);
      if Trim(key) != "" && id in b.seen then Called(b, c) == b && Answer(b, c) == Ok(b.seen[id])
      else match Refusal(b.purse, op)
           case Some(e) => Called(b, c) == b && Answer(b, c) == Err(e)
           case None =>
             && Called(b, c).purse == Apply(b.purse, op) && Answer(b, c).Ok?
             && Called(b, c).seen == (if Trim(key) != "" then b.seen[id := Answer(b, c).value] else b.seen)
             && Answer(b, c).value in Called(b, c).purse.goals && Answer(b, c).value.id == goal
  {
    hide Trim, Debited, Available;
    AppliedKeepsIds(b.purse, Contribute(goal, amount));
  }

  // ---------------------------------------------------------------- whose answer it is

  /** The answer was recorded for a contribution to the goal it names. The ids the service draws
      for users and goals contain no colon. */
  ghost predicate RecordedFor(user: UserId, goal: string, key: string, idemKey: string, answer: Goal) {
    ':' !in user.name && ':' !in goal && idemKey == IdemKey(user, goal, key) && answer.id == goal
  }

  ghost predicate Recorded(idemKey: string, answer: Goal) {
    exists user, goal, key :: RecordedFor(user, goal, key, idemKey, answer)
  }

  ghost predicate AllRecorded(b: Book) {
    && (forall k :: k in b.seen ==> Recorded(k, b.seen[k]))
    && (forall i :: 0 <= i < |b.purse.goals| ==> ':' !in b.purse.goals[i].id)
  }

  /** What can happen to the book of a user: keys are made from whatever goal id and client key the
      caller sends, and other users' answers are recorded for their goals. */
  ghost predicate Possible(user: UserId, c: Call) {
    match c
    case Keyed(goal, _, idemKey) => exists key :: idemKey == IdemKey(user, goal, key)
    case Unkeyed(_) => true
    case Elsewhere(idemKey, answer) => Recorded(idemKey, answer)
  }

  lemma AppliedKeepsIds(p: Purse, op: Op)
    ensures |Apply(p, op).goals| == |p.goals|
    ensures forall i :: 0 <= i < |p.goals| ==> Apply(p, op).goals[i].id == p.goals[i].id
  {
  }

  lemma CallKeepsRecorded(b: Book, user: UserId, c: Call)
    requires AllRecorded(b) && ':' !in user.name && Possible(user, c)
    ensures AllRecorded(Called(b, c))
  {
    hide Apply, IdemKey;
    if !c.Elsewhere? {
      var op := if c.Keyed? then Contribute(c.goal, c.amount) else c.op;
      AppliedKeepsIds(b.purse, op);
      if c.Keyed? && c.key !in b.seen && Refusal(b.purse, op).None? {
        var i := IndexOf(b.purse.goals, c.goal);
        var key :| c.key == IdemKey(user, c.goal, key);
        assert RecordedFor(user, c.goal, key, c.key, Apply(b.purse, op).goals[i]);
      }
    }
  }

  lemma {:induction false} RunKeepsRecorded(b: Book, user: UserId, calls: seq<Call>)
    requires AllRecorded(b) && ':' !in user.name && forall c :: c in calls ==> Possible(user, c)
    ensures AllRecorded(Run(b, calls))
    decreases |calls|
  {
    hide AllRecorded, Possible, Called;
    if calls != [] {
      CallKeepsRecorded(b, user, calls[0]);
      RunKeepsRecorded(Called(b, calls[0]), user, calls[1..]);
    }
  }

  /** A contribution is answered with a goal that the caller did not name exactly when its key is
      already known and the goal id it sent contains a colon. */
  lemma ForeignAnswerExactly(b: Book, user: UserId, goal: string, amount: int, key: string)
    requires AllRecorded(b) && ':' !in user.name
    ensures var r := Answer(b, Contribution(user, goal, amount, key));
      r.Ok? && r.value.id != goal <==> Trim(key) != "" && IdemKey(user, goal, key) in b.seen && ':' in goal
  {
    hide Trim, IdemKey, Apply, Debited, Available;
    var c := Contribution(user, goal, amount, key);
    AppliedKeepsIds(b.purse, Contribute(goal, amount));
    if Trim(key) != "" && c.key in b.seen {
      var u, g, k :| RecordedFor(u, g, k, c.key, b.seen[c.key]);
      if ':' !in goal {
        IdemKeyPinsParts(user, goal, key, u, g, k);
      }
    }
  }

  /** Such a call is within reach of any client: after a contribution under the key x:y, one that
      names no goal is answered with the first goal, instead of being refused. */
  lemma UnknownGoalIsAnswered(b: Book, user: UserId, goal: string, amount: int, again: int)
    requires AllRecorded(b) && ':' !in user.name && ':' !in goal
    requires Answer(b, Contribution(user, goal, amount, "x:y")).Ok?
    requires 0 < again <= MAX_CONTRIBUTION
    ensures var later := Called(b, Contribution(user, goal, amount, "x:y"));
      && Answer(later, Unkeyed(Contribute(goal + ":x", again))) == Err(GoalNotFound)
      && var r := Answer(later, Contribution(user, goal + ":x", again, "y"));
      r.Ok? && r.value.id == goal
  {
    hide Trim, IdemKey, Apply, Debited, Available;
    SplitKeys(user, goal);
    var first, second := Contribution(user, goal, amount, "x:y"), Contribution(user, goal + ":x", again, "y");
    var later := Called(b, first);
    CallKeepsRecorded(b, user, first);
    assert ':' in goal + ":x" by { assert (goal + ":x")[|goal|] == ':'; }
    assert forall i :: 0 <= i < |later.purse.goals| ==> later.purse.goals[i].id != goal + ":x";
    assert first.key == second.key;
    ForeignAnswerExactly(b, user, goal, amount, "x:y");
    if first.key !in b.seen {
      AppliedKeepsIds(b.purse, Contribute(goal, amount));
    }
  }

  lemma SplitKeys(user: UserId, goal: string)
    ensures Trim("x:y") == "x:y" && Trim("y") == "y"
    ensures IdemKey(user, goal, "x:y") == IdemKey(user, goal + ":x", "y")
  {
    assert goal + ":" + "x:y" == (goal + ":x") + ":" + "y";
    assert user.name + ":" + (goal + ":" + "x:y") == IdemKey(user, goal, "x:y");
    assert user.name + ":" + ((goal + ":x") + ":" + "y") == IdemKey(user, goal + ":x", "y");
  }

  class Service {
    var users: set<UserId>
    var accounts: map<UserId, seq<int>>
    var goals: map<UserId, seq<Goal>>
    var goalIdempotency: map<string, Goal>
    ghost var Paid: map<UserId, int>

    constructor (users: set<UserId>, accounts: map<UserId, seq<int>>, goals: map<UserId, seq<Goal>>)
      ensures this.users == users && this.accounts == accounts && this.goals == goals
      ensures goalIdempotency == map[] && Paid == map[]
    {
      this.users, this.accounts, this.goals := users, accounts, goals;
      goalIdempotency, Paid := map[], map[];
    }

    function AccountsOf(user: UserId): seq<int>
      reads this`accounts
    {
      if user in accounts then accounts[user] else []
    }

    function GoalsOf(user: UserId): seq<Goal>
      reads this`goals
    {
      if user in goals then goals[user] else []
    }

    ghost function PurseOf(user: UserId): Purse
      reads this
    {
      Purse(AccountsOf(user), GoalsOf(user), if user in Paid then Paid[user] else 0)
    }

    ghost function BookOf(user: UserId): Book
      reads this
    {
      Book(PurseOf(user), goalIdempotency)
    }

    twostate predicate OthersKept(user: UserId)
      reads this
    {
      forall v :: v != user ==> PurseOf(v) == old(PurseOf(v))
    }

    method TotalBalance(user: UserId) returns (total: int)
      ensures total == Available(AccountsOf(user))
    {
      total := 0;
      var acct := AccountsOf(user);
      var i := 0;
      while i < |acct|
        invariant 0 <= i <= |acct| && total + Available(acct[i..]) == Available(acct)
      {
        assert acct[i..][1..] == acct[i + 1..];
        if acct[i] > 0 {
          total := total + acct[i];
        }
        i := i + 1;
      }
    }

    /** applyDebitToFirstAccountLocked. */
    method ApplyDebit(user: UserId, amount: int) returns (r: Option<Error>)
      modifies this`accounts
      ensures r == if amount > 0 && Available(old(AccountsOf(user))) < amount then Some(InsufficientFunds) else None
      ensures AccountsOf(user) == if r == None then Debited(old(AccountsOf(user)), amount) else old(AccountsOf(user))
      ensures forall v :: v != user ==> AccountsOf(v) == old(AccountsOf(v))
    {
      hide Debited, Available;
      if amount <= 0 {
        DebitNothing(AccountsOf(user), amount);
        return None;
      }
      var total := TotalBalance(user);
      if total < amount {
        return Some(InsufficientFunds);
      }
      ghost var was := AccountsOf(user);
      var acct := AccountsOf(user);
      var remaining := amount;
      var i := 0;
      while i < |acct| && remaining > 0
        invariant 0 <= i <= |acct| == |was| && acct[i..] == was[i..]
        invariant acct[..i] + Debited(acct[i..], remaining) == Debited(was, amount)
        invariant accounts == old(accounts)
      {
        DebitStep(acct, i, remaining);
        if acct[i] > 0 {
          if acct[i] >= remaining {
            acct := acct[i := acct[i] - remaining];
            remaining := 0;
          } else {
            remaining := remaining - acct[i];
            acct := acct[i := 0];
          }
        }
        i := i + 1;
      }
      DebitDone(acct, i, remaining);
      accounts := accounts[user := acct];
      return None;
    }

    method FindGoal(user: UserId, goalID: string) returns (i: nat)
      ensures i == IndexOf(GoalsOf(user), goalID)
    {
      var list := GoalsOf(user);
      i := 0;
      while i < |list|
        invariant 0 <= i <= |list| && IndexOf(list, goalID) == i + IndexOf(list[i..], goalID)
      {
        assert list[i..][0] == list[i] && list[i..][1..] == list[i + 1..];
        if list[i].id == goalID {
          return;
        }
        i := i + 1;
      }
    }

    method SetGoal(user: UserId, i: nat, g: Goal)
      requires i < |GoalsOf(user)|
      modifies this`goals
      ensures GoalsOf(user) == old(GoalsOf(user))[i := g]
      ensures forall v :: v != user ==> GoalsOf(v) == old(GoalsOf(v))
    {
      goals := goals[user := goals[user][i := g]];
    }

    method ContributeGoal(user: UserId, goalID: string, amount: int, key: string) returns (r: Result<Goal, Error>)
      modifies this`accounts, this`goals, this`goalIdempotency
      ensures OthersKept(user)
      ensures BookOf(user) == Called(old(BookOf(user)), Contribution(user, goalID, amount, key))
      ensures r == Answer(old(BookOf(user)), Contribution(user, goalID, amount, key))
    {
      hide Trim, Debited, Available, Sum;
      var idemKey := "";
      if Trim(key) != "" {
        idemKey := user.name + ":" + goalID + ":" + Trim(key);
        if idemKey in goalIdempotency {
          return Ok(goalIdempotency[idemKey]);
        }
      }
      if amount <= 0 {
        return Err(NotPositive);
      }
      if amount > MAX_CONTRIBUTION {
        return Err(TooLarge);
      }
      var i := FindGoal(user, goalID);
      if i == |GoalsOf(user)| {
        return Err(GoalNotFound);
      }
      var g := GoalsOf(user)[i];
      if g.status != Active {
        return Err(GoalNotActive);
      }
      if g.saved > MAX_INT64 - amount {
        return Err(WouldOverflow);
      }
      var debit := ApplyDebit(user, amount);
      if debit.Some? {
        return Err(debit.value);
      }
      g := g.(saved := g.saved + amount);
      if g.saved >= g.target {
        g := g.(status := Completed);
      }
      SetGoal(user, i, g);
      if Trim(key) != "" {
        goalIdempotency := goalIdempotency[idemKey := g];
      }
      return Ok(g);
    }

    method PauseGoal(user: UserId, goalID: string) returns (r: Result<Goal, Error>)
      modifies this`goals
      ensures OthersKept(user) && PurseOf(user) == Apply(old(PurseOf(user)), Pause(goalID))
      ensures r.Err? <==> Refusal(old(PurseOf(user)), Pause(goalID)).Some?
      ensures r.Err? ==> Refusal(old(PurseOf(user)), Pause(goalID)) == Some(r.error)
    {
      var i := FindGoal(user, goalID);
      if i == |GoalsOf(user)| {
        return Err(GoalNotFound);
      }
      var g := GoalsOf(user)[i];
      if g.status != Active {
        return Err(OnlyActive);
      }
      SetGoal(user, i, g.(status := Paused));
      return Ok(g.(status := Paused));
    }

    method ResumeGoal(user: UserId, goalID: string) returns (r: Result<Goal, Error>)
      modifies this`goals
      ensures OthersKept(user) && PurseOf(user) == Apply(old(PurseOf(user)), Resume(goalID))
      ensures r.Err? <==> Refusal(old(PurseOf(user)), Resume(goalID)).Some?
      ensures r.Err? ==> Refusal(old(PurseOf(user)), Resume(goalID)) == Some(r.error)
    {
      var i := FindGoal(user, goalID);
      if i == |GoalsOf(user)| {
        return Err(GoalNotFound);
      }
      var g := GoalsOf(user)[i];
      if g.status != Paused {
        return Err(OnlyPaused);
      }
      SetGoal(user, i, g.(status := Active));
      return Ok(g.(status := Active));
    }

    method CloseGoal(user: UserId, goalID: string) returns (r: Result<Goal, Error>)
      modifies this`goals
      ensures OthersKept(user) && PurseOf(user) == Apply(old(PurseOf(user)), Close(goalID))
      ensures r.Err? <==> Refusal(old(PurseOf(user)), Close(goalID)).Some?
      ensures r.Err? ==> Refusal(old(PurseOf(user)), Close(goalID)) == Some(r.error)
    {
      var i := FindGoal(user, goalID);
      if i == |GoalsOf(user)| {
        return Err(GoalNotFound);
      }
      var g := GoalsOf(user)[i].(status := Closed);
      SetGoal(user, i, g);
      return Ok(g);
    }

    method DissolveGoal(user: UserId, goalID: string) returns (r: Result<Goal, Error>)
      modifies this`accounts, this`goals
      ensures OthersKept(user)
      ensures user !in users ==> r == Err(UserNotFound) && PurseOf(user) == old(PurseOf(user))
      ensures user in users ==>
        && PurseOf(user) == Apply(old(PurseOf(user)), Dissolve(goalID))
        && (r.Err? <==> Refusal(old(PurseOf(user)), Dissolve(goalID)).Some?)
        && (r.Err? ==> Refusal(old(PurseOf(user)), Dissolve(goalID)) == Some(r.error))
    {
      if user !in users {
        return Err(UserNotFound);
      }
      var i := FindGoal(user, goalID);
      if i == |GoalsOf(user)| {
        return Err(GoalNotFound);
      }
      var g := GoalsOf(user)[i];
      if g.status == Dissolved {
        return Err(AlreadyDissolved);
      }
      g := g.(status := Dissolved);
      if g.saved > 0 {
        var acct := AccountsOf(user);
        if |acct| > 0 {
          acct := acct[0 := acct[0] + g.saved];
          accounts := accounts[user := acct];
        }
        g := g.(saved := 0);
      }
      SetGoal(user, i, g);
      return Ok(g);
    }

    /** A debit that leaves the system, as payments and overrides make it. */
    method PayOut(user: UserId, amount: int) returns (r: Option<Error>)
      modifies this`accounts, this`Paid
      ensures OthersKept(user) && PurseOf(user) == Apply(old(PurseOf(user)), Debit(amount))
      ensures r == Refusal(old(PurseOf(user)), Debit(amount))
    {
      r := ApplyDebit(user, amount);
      if r == None && amount > 0 {
        Paid := Paid[user := (if user in Paid then Paid[user] else 0) + amount];
      }
    }
  }
}
