/** `NEWACCOUNT <Name> [Default]`: gate on login, check the token count and the
    optional flag, decide whether the new account becomes the default one, and
    hand over to the registry. */
module NewAccountCommand {
  import opened JavaStrings
  import opened Bank
  import opened Command

  /** `getSyntax()` of this command. */
  function Syntax(): (s: string)
    ensures s == "NEWACCOUNT <Name> [Default]"
  {
    "NEWACCOUNT <Name> [Default]"
  }

  const UsageFailure := "FAIL: Usage: " + Syntax()
  const NotAllowedFailure := "FAIL: " + Message(RequestNotAllowed)

  /** The third token asks for a default account, in any letter case. */
  predicate ExplicitDefault(tokens: seq<string>) {
    |tokens| == 3 && EqualsIgnoreCase(tokens[2], "DEFAULT")
  }

  /** The token list is acceptable: a name is given, and a third token (when it
      is the last one) is the DEFAULT flag. Tokens past the third are ignored. */
  predicate SyntaxOk(tokens: seq<string>) {
    |tokens| >= 2 && (|tokens| == 3 ==> ExplicitDefault(tokens))
  }

  /** What the command decides before touching the registry. */
  datatype Plan = Reply(reply: string) | Open(name: string, isDefault: bool)

  /** The decision, stated declaratively: the gate wins over the syntax check;
      the account becomes default when asked for, or when its name is not a
      savings name and the customer has no default account yet. */
  function PlanFor(tokens: seq<string>, loggedIn: bool, isSavings: string -> bool, hasDefault: bool): (p: Plan)
    ensures p.Open? <==> loggedIn && SyntaxOk(tokens)
    ensures !loggedIn ==> p == Reply(NotAllowedFailure)
    ensures p.Reply? ==> p.reply == NotAllowedFailure || p.reply == UsageFailure
    ensures loggedIn && !SyntaxOk(tokens) ==> p == Reply(UsageFailure)
    ensures p.Open? ==> p.name == tokens[1]
    ensures p.Open? && ExplicitDefault(tokens) ==> p.isDefault
    ensures p.Open? && hasDefault && !ExplicitDefault(tokens) ==> !p.isDefault
    ensures p.Open? && !ExplicitDefault(tokens) ==> p.isDefault == (!isSavings(tokens[1]) && !hasDefault)
  {
    if !loggedIn then Reply(NotAllowedFailure)
    else if !SyntaxOk(tokens) then Reply(UsageFailure)
    else Open(tokens[1], ExplicitDefault(tokens) || (!isSavings(tokens[1]) && !hasDefault))
  }

  /** The command's effect on a state: a reply, and a registry in which at most
      the logged-in customer's accounts changed. */
  function Apply(tokens: seq<string>, s: Snapshot, isSavings: string -> bool): (o: Outcome)
    requires WellFormed(s)
    ensures WellFormed(o.after)
    ensures o.after.key == s.key && o.after.customers.Keys == s.customers.Keys
    ensures forall u :: u in s.customers && u != s.key ==> o.after.customers[u] == s.customers[u]
  {
    var hasDefault := s.key in s.customers && HasDefault(s.customers[s.key]);
    match PlanFor(tokens, s.key != "", isSavings, hasDefault)
    case Reply(m) => Outcome(m, s)
    case Open(name, isDefault) =>
      var accounts := s.customers[s.key];
      var r := OpenAccount(accounts, name, isDefault);
      OpenAccountKeepsCap(accounts, name, isDefault);
      Outcome(r.reply, Snapshot(s.key, s.customers[s.key := r.accounts]))
  }

  /** A logged-out session gets the gate's failure, whatever the tokens, and the
      registry is untouched; so a bare NEWACCOUNT while logged out is refused by
      the gate and not by the syntax check. */
  lemma LoggedOutIsRejected(tokens: seq<string>, s: Snapshot, isSavings: string -> bool)
    requires WellFormed(s) && s.key == ""
    ensures Apply(tokens, s, isSavings) == Outcome(NotAllowedFailure, s)
    ensures NotAllowedFailure != UsageFailure
  {
    assert NotAllowedFailure[6] != UsageFailure[6];
  }

  /** A logged-in session with a missing name, or with exactly three tokens the
      last of which is not DEFAULT, gets the usage failure and the registry is
      untouched. */
  lemma BadSyntaxIsRejected(tokens: seq<string>, s: Snapshot, isSavings: string -> bool)
    requires WellFormed(s) && s.key != ""
    requires |tokens| < 2 || (|tokens| == 3 && !EqualsIgnoreCase(tokens[2], "DEFAULT"))
    ensures Apply(tokens, s, isSavings) == Outcome(UsageFailure, s)
  {
  }

  /** Past validation the reply is exactly what the registry returns for
      `newAccount(customer, tokens[1], isDefault)`, where isDefault is the
      explicit flag, or else "not a savings name and no default yet". */
  lemma ValidRequestDelegates(tokens: seq<string>, s: Snapshot, isSavings: string -> bool)
    requires WellFormed(s) && s.key != "" && SyntaxOk(tokens)
    ensures var accounts := s.customers[s.key];
            var isDefault := if ExplicitDefault(tokens) then true
                             else !isSavings(tokens[1]) && !HasDefault(accounts);
            var r := OpenAccount(accounts, tokens[1], isDefault);
            Apply(tokens, s, isSavings) == Outcome(r.reply, Snapshot(s.key, s.customers[s.key := r.accounts]))
  {
  }

  /** Tokens after the third never matter. */
  lemma ExtraTokensIgnored(tokens: seq<string>, s: Snapshot, isSavings: string -> bool)
    requires WellFormed(s) && |tokens| >= 4
    ensures Apply(tokens, s, isSavings) == Apply(tokens[..2], s, isSavings)
  {
  }

  /** Without an explicit DEFAULT flag the command never gives a customer a
      second default account: the implicit promotion only happens when there is
      none yet. */
  lemma ImplicitDefaultKeepsAtMostOne(tokens: seq<string>, s: Snapshot, isSavings: string -> bool)
    requires WellFormed(s) && s.key != "" && !ExplicitDefault(tokens)
    requires DefaultCount(s.customers[s.key]) <= 1
    ensures DefaultCount(Apply(tokens, s, isSavings).after.customers[s.key]) <= 1
  {
    var accounts := s.customers[s.key];
    HasDefaultIffCount(accounts);
    if SyntaxOk(tokens) {
      var isDefault := !isSavings(tokens[1]) && !HasDefault(accounts);
      OpenAccountDefaults(accounts, tokens[1], isDefault);
    }
  }

  /** An explicit DEFAULT does not demote an existing default account: the old
      accounts are kept as they were and the new one is added as default. */
  lemma ExplicitDefaultDoesNotDemote(tokens: seq<string>, s: Snapshot, isSavings: string -> bool)
    requires WellFormed(s) && s.key != "" && ExplicitDefault(tokens)
    requires Apply(tokens, s, isSavings).reply == CreatedReply
    ensures var after := Apply(tokens, s, isSavings).after.customers[s.key];
            after == s.customers[s.key] + [Account(tokens[1], true)]
            && DefaultCount(after) == DefaultCount(s.customers[s.key]) + 1
  {
    OpenAccountDefaults(s.customers[s.key], tokens[1], true);
  }

  /** The refusals of the end-to-end test's account-opening conversation, for
      a logged-in customer with room for another account (the test's customer
      holds one): a bare verb, a name too short, a name too long and a name
      with digits are each refused and change nothing. */
  lemma OpeningRefusals(s: Snapshot, isSavings: string -> bool)
    requires WellFormed(s) && s.key != "" && |s.customers[s.key]| < MaxAccounts
    ensures Apply(["NEWACCOUNT"], s, isSavings) == Outcome(UsageFailure, s)
    ensures Apply(["NEWACCOUNT", "abc"], s, isSavings) == Outcome(LengthFailure, s)
    ensures Apply(["NEWACCOUNT", "abcdefghijklmnopqr"], s, isSavings) == Outcome(LengthFailure, s)
    ensures Apply(["NEWACCOUNT", "123456"], s, isSavings) == Outcome(LettersFailure, s)
  {
    assert !IsLetter("123456"[0]);
  }

  /** The rest of that conversation, for a customer who holds one account:
      four good names are accepted, and the next two are refused because five
      accounts are then held. */
  lemma OpeningUpToCap(s: Snapshot, isSavings: string -> bool)
    requires WellFormed(s) && s.key != "" && |s.customers[s.key]| == 1
    ensures var b := Apply(["NEWACCOUNT", "accountB"], s, isSavings);
            var c := Apply(["NEWACCOUNT", "accountC"], b.after, isSavings);
            var d := Apply(["NEWACCOUNT", "accountD"], c.after, isSavings);
            var e := Apply(["NEWACCOUNT", "accountE"], d.after, isSavings);
            var f := Apply(["NEWACCOUNT", "accountF"], e.after, isSavings);
            var g := Apply(["NEWACCOUNT", "accountG"], f.after, isSavings);
            && b.reply == CreatedReply && c.reply == CreatedReply
            && d.reply == CreatedReply && e.reply == CreatedReply
            && f == Outcome(TooManyFailure, e.after) && g == Outcome(TooManyFailure, e.after)
            && |e.after.customers[s.key]| == MaxAccounts
  {
    SampleNamesValid();
    var b := Apply(["NEWACCOUNT", "accountB"], s, isSavings);
    OpensWhileRoom("accountB", s, isSavings);
    var c := Apply(["NEWACCOUNT", "accountC"], b.after, isSavings);
    OpensWhileRoom("accountC", b.after, isSavings);
    var d := Apply(["NEWACCOUNT", "accountD"], c.after, isSavings);
    OpensWhileRoom("accountD", c.after, isSavings);
    var e := Apply(["NEWACCOUNT", "accountE"], d.after, isSavings);
    OpensWhileRoom("accountE", d.after, isSavings);
    var f := Apply(["NEWACCOUNT", "accountF"], e.after, isSavings);
    OpensWhileRoom("accountF", e.after, isSavings);
    OpensWhileRoom("accountG", f.after, isSavings);
  }

  /** The names the end-to-end test opens are acceptable account names. */
  lemma SampleNamesValid()
    ensures ValidAccountName("accountB") && ValidAccountName("accountC") && ValidAccountName("accountD")
    ensures ValidAccountName("accountE") && ValidAccountName("accountF") && ValidAccountName("accountG")
  {
  }

  /** A well-formed name, given alone, opens an account while the customer
      holds fewer than five and is refused for the cap afterwards. */
  lemma OpensWhileRoom(name: string, s: Snapshot, isSavings: string -> bool)
    requires WellFormed(s) && s.key != "" && ValidAccountName(name)
    ensures var o := Apply(["NEWACCOUNT", name], s, isSavings);
            var n := |s.customers[s.key]|;
            if n < MaxAccounts then
              o.reply == CreatedReply && o.after.key == s.key && |o.after.customers[s.key]| == n + 1
            else o == Outcome(TooManyFailure, s)
  {
  }

  /** A customer at the cap is refused for the cap whatever name is asked
      for, well-formed or not, and nothing changes. */
  lemma AtCapAnyNameIsRefused(name: string, s: Snapshot, isSavings: string -> bool)
    requires WellFormed(s) && s.key != "" && |s.customers[s.key]| == MaxAccounts
    ensures Apply(["NEWACCOUNT", name], s, isSavings) == Outcome(TooManyFailure, s)
  {
    assert s.customers[s.key := s.customers[s.key]] == s.customers;
  }

  /** `isFirstNonSavingsAccount(accountName)`: the name is not a savings name
      and the customer holds no account marked default. */
  predicate IsFirstNonSavingsAccount(bank: NewBank, customer: CustomerID, accountName: string)
    reads bank, customer
    ensures IsFirstNonSavingsAccount(bank, customer, accountName) <==>
              !bank.isSavingsName(accountName)
              && (customer.key !in bank.customers || DefaultCount(bank.customers[customer.key]) == 0)
  {
    !bank.isSavingsName(accountName) && !bank.HasDefaultAccount(customer)
  }

  /** `execute()`: the registry changes only through `newAccount`, and only once
      the gate and the syntax checks have passed. */
  method Execute(bank: NewBank, tokens: seq<string>, customer: CustomerID) returns (reply: string)
    requires WellFormed(Snapshot(customer.key, bank.customers))
    modifies bank
    ensures var o := Apply(tokens, Snapshot(customer.key, old(bank.customers)), bank.isSavingsName);
            reply == o.reply && bank.customers == o.after.customers
  {
    var rejection := CheckLoggedIn(customer);
    if rejection.Some? {
      return "FAIL: " + Message(rejection.value);
    }
    if !(|tokens| >= 2) {
      return UsageFailure;
    }
    var isDefault := false;
    var accountName := tokens[1];
    if |tokens| == 3 {
      if !EqualsIgnoreCase(tokens[2], "DEFAULT") {
        return UsageFailure;
      }
      isDefault := true;
    }
    // the first non-savings account becomes the default one
    if !isDefault && IsFirstNonSavingsAccount(bank, customer, accountName) {
      isDefault := true;
    }
    reply := bank.NewAccount(customer, accountName, isDefault);
  }
}
