/** The per-user credit counter of the Telegram bot (bot.py, `user_credits`
    with the `/start` and `/lookup` commands). The administrator's id is a
    parameter; the outgoing messages and the remote phone lookup are left
    out, their outcome entering only as a value, which matters to the
    ledger only when a message to the user raised before the deduction.
 */
module CreditLedger {

  type UserId = int

  /** A user never seen before counts as holding this many credits. */
  const InitialCredits: int := 5

  /** `user_credits.get(user, 5)`. */
  function Balance(credits: map<UserId, int>, user: UserId): int {
    if user in credits then credits[user] else InitialCredits
  }

  predicate NonNegative(credits: map<UserId, int>) {
    forall u :: u in credits ==> credits[u] >= 0
  }

  /** `/start`: registers a new user with the initial credits. */
  function AfterStart(credits: map<UserId, int>, user: UserId): (m: map<UserId, int>)
    ensures user in m && m.Keys == credits.Keys + {user}
    ensures user in credits ==> m == credits
    ensures forall u :: Balance(m, u) == Balance(credits, u)
    ensures NonNegative(credits) ==> NonNegative(m)
  {
    if user !in credits then credits[user := InitialCredits] else credits
  }

  /** `/lookup` refuses a user other than the administrator who has no
      credits left. */
  predicate Refused(credits: map<UserId, int>, admin: UserId, user: UserId) {
    user != admin && Balance(credits, user) <= 0
  }

  /** How a `/lookup` that got as far as the remote call ended. The first
      three are the remote call's own outcomes, which the handler catches
      before the deduction. `ReplyFailed` is a message to the user that
      raised outside that handler (the "searching" notice before the `try`,
      or the error message inside the `except`), ending the command before
      the deduction. */
  datatype LookupOutcome = Answered | NotResponding | ConnectionError | ReplyFailed

  /** Whether a `/lookup` by `user` costs a credit: it was not refused, it
      carried a number, it reached the deduction, and the user is not the
      administrator. */
  predicate Charged(credits: map<UserId, int>, admin: UserId, user: UserId, hasNumber: bool, outcome: LookupOutcome) {
    !Refused(credits, admin, user) && hasNumber && outcome != ReplyFailed && user != admin
  }

  /** The ledger after a `/lookup` by `user`. */
  function AfterLookup(credits: map<UserId, int>, admin: UserId, user: UserId, hasNumber: bool, outcome: LookupOutcome)
    : (m: map<UserId, int>)
    ensures Balance(m, user) == Balance(credits, user) - (if Charged(credits, admin, user, hasNumber, outcome) then 1 else 0)
    ensures !Charged(credits, admin, user, hasNumber, outcome) ==> m == credits
    ensures Charged(credits, admin, user, hasNumber, outcome) ==> user in m && m[user] >= 0
    ensures forall u :: u != user ==> (u in m <==> u in credits)
    ensures forall u :: u != user && u in m ==> m[u] == credits[u]
    ensures NonNegative(credits) ==> NonNegative(m)
  {
    if Refused(credits, admin, user) then credits
    else if !hasNumber then credits
    else if outcome == ReplyFailed then credits
    else if user != admin then credits[user := Balance(credits, user) - 1]
    else credits
  }

  /** Whatever the remote call did, the ledger ends the same. */
  lemma AfterLookupIgnoresRemote(credits: map<UserId, int>, admin: UserId, user: UserId, hasNumber: bool,
                                 o1: LookupOutcome, o2: LookupOutcome)
    requires o1 != ReplyFailed && o2 != ReplyFailed
    ensures AfterLookup(credits, admin, user, hasNumber, o1) == AfterLookup(credits, admin, user, hasNumber, o2)
  {
  }

  /** What `/lookup` tells the user before any credit message. */
  datatype Reply = NoCredits | MissingNumber | Searched(outcome: LookupOutcome)

  /** The bot's process-wide credit map. */
  class Ledger {
    const admin: UserId
    var credits: map<UserId, int>

    constructor (admin: UserId)
      ensures this.admin == admin && credits == map[]
    {
      this.admin := admin;
      credits := map[];
    }

    /** `/start`. */
    method Start(user: UserId)
      modifies this
      ensures credits == AfterStart(old(credits), user)
      ensures user in credits && credits[user] == Balance(old(credits), user)
    {
      if user !in credits {
        credits := credits[user := InitialCredits];
      }
    }

    /** `/lookup`, with the command's arguments and the outcome of the
        remote call and of the messages around it as parameters. */
    method Lookup(user: UserId, args: seq<string>, outcome: LookupOutcome) returns (reply: Reply)
      modifies this
      ensures reply == NoCredits <==> Refused(old(credits), admin, user)
      ensures reply == MissingNumber <==> !Refused(old(credits), admin, user) && args == []
      ensures reply.Searched? ==> reply.outcome == outcome
      ensures user == admin ==> reply != NoCredits && credits == old(credits)
      ensures credits == AfterLookup(old(credits), admin, user, args != [], outcome)
    {
      if user != admin && Balance(credits, user) <= 0 {
        return NoCredits;
      }
      if args == [] {
        return MissingNumber;
      }
      reply := Searched(outcome);
      if outcome == ReplyFailed {
        return;
      }
      if user != admin {
        credits := credits[user := Balance(credits, user) - 1];
      }
    }
  }

  /** A command to the bot, reduced to what the ledger sees. */
  datatype Command = StartCommand(user: UserId) | LookupCommand(user: UserId, hasNumber: bool, outcome: LookupOutcome)

  function Step(credits: map<UserId, int>, admin: UserId, cmd: Command): map<UserId, int> {
    match cmd
    case StartCommand(u) => AfterStart(credits, u)
    case LookupCommand(u, hasNumber, outcome) => AfterLookup(credits, admin, u, hasNumber, outcome)
  }

  /** The ledger after a sequence of commands. */
  function Run(credits: map<UserId, int>, admin: UserId, cmds: seq<Command>): (m: map<UserId, int>)
    ensures NonNegative(credits) ==> NonNegative(m)
    decreases |cmds|
  {
    if cmds == [] then credits
    else Run(Step(credits, admin, cmds[0]), admin, cmds[1..])
  }

  /** How many of the commands charged `user` a credit. */
  function ServedCount(credits: map<UserId, int>, admin: UserId, cmds: seq<Command>, user: UserId): nat
    decreases |cmds|
  {
    if cmds == [] then 0
    else
      var here := match cmds[0]
        case StartCommand(_) => 0
        case LookupCommand(u, hasNumber, outcome) =>
          if u == user && Charged(credits, admin, u, hasNumber, outcome) then 1 else 0;
      here + ServedCount(Step(credits, admin, cmds[0]), admin, cmds[1..], user)
  }

  /** Every served lookup of a user costs exactly one credit, and a
      balance that starts non-negative never goes below zero. */
  lemma {:induction false} CreditConservation(credits: map<UserId, int>, admin: UserId, cmds: seq<Command>, user: UserId)
    requires user != admin
    ensures Balance(Run(credits, admin, cmds), user) + ServedCount(credits, admin, cmds, user) == Balance(credits, user)
    ensures Balance(credits, user) >= 0 ==> Balance(Run(credits, admin, cmds), user) >= 0
    decreases |cmds|
  {
    if cmds != [] {
      var next := Step(credits, admin, cmds[0]);
      assert Balance(credits, user) >= 0 ==> Balance(next, user) >= 0 by {
        if cmds[0].LookupCommand? && cmds[0].user == user
           && Charged(credits, admin, user, cmds[0].hasNumber, cmds[0].outcome) {
          assert Balance(credits, user) > 0;
        }
      }
      CreditConservation(next, admin, cmds[1..], user);
    }
  }

  /** A user the bot has never seen gets at most `InitialCredits` lookups,
      whatever the other users do. */
  lemma FreshUserLimit(admin: UserId, cmds: seq<Command>, user: UserId)
    requires user != admin
    ensures ServedCount(map[], admin, cmds, user) <= InitialCredits
  {
    CreditConservation(map[], admin, cmds, user);
  }

  /** The administrator's balance never changes. */
  lemma {:induction false} AdminBalanceFixed(credits: map<UserId, int>, admin: UserId, cmds: seq<Command>)
    ensures Balance(Run(credits, admin, cmds), admin) == Balance(credits, admin)
    decreases |cmds|
  {
    if cmds != [] {
      AdminBalanceFixed(Step(credits, admin, cmds[0]), admin, cmds[1..]);
    }
  }
}
