/** The registry the commands work on: customers keyed by username, each with
    an ordered list of accounts, and the per-connection session key.
    NewBank, Account and CustomerID are not part of this model as source text;
    only what the commands observe of them is modelled. The rules for opening an
    account (at most five accounts, name length, ASCII letters only) and their
    replies are taken from the expectations of the end-to-end test, not from
    registry code; the order in which they are checked is a modelling choice. */
module Bank {

  /** An account as the commands see it: its name and whether it is the
      customer's default account. Balances are not part of this model. */
  datatype Account = Account(name: string, isDefault: bool)

  /** username -> accounts in the order they were opened */
  type Registry = map<string, seq<Account>>

  const MaxAccounts: nat := 5
  const MinNameLength: nat := 4
  const MaxNameLength: nat := 12

  const CreatedReply := "SUCCESS: The account has been created successfully."
  const LengthFailure := "FAIL: Invalid account name: Length must be between 4 and 12 characters."
  const LettersFailure := "FAIL: Invalid account name: Only letters are allowed."
  const TooManyFailure := "FAIL: Maximum number of accounts is: 5"

  predicate IsLetter(c: char) {
    'a' <= c <= 'z' || 'A' <= c <= 'Z'
  }

  predicate AllLetters(name: string) {
    forall k :: 0 <= k < |name| ==> IsLetter(name[k])
  }

  predicate ValidAccountName(name: string) {
    MinNameLength <= |name| <= MaxNameLength && AllLetters(name)
  }

  /** How many of the accounts are marked default. */
  function DefaultCount(accounts: seq<Account>): nat
  {
    if accounts == [] then 0
    else DefaultCount(accounts[..|accounts| - 1]) + (if accounts[|accounts| - 1].isDefault then 1 else 0)
  }

  /** `hasDefaultAccount`: some account of the customer is marked default. */
  predicate HasDefault(accounts: seq<Account>) {
    exists k :: 0 <= k < |accounts| && accounts[k].isDefault
  }

  lemma {:induction false} HasDefaultIffCount(accounts: seq<Account>)
    ensures HasDefault(accounts) <==> DefaultCount(accounts) > 0
  {
    if accounts != [] {
      var init := accounts[..|accounts| - 1];
      HasDefaultIffCount(init);
      if HasDefault(init) {
        var k :| 0 <= k < |init| && init[k].isDefault;
        assert accounts[k] == init[k];
      }
      if HasDefault(accounts) && !accounts[|accounts| - 1].isDefault {
        var k :| 0 <= k < |accounts| && accounts[k].isDefault;
        assert init[k] == accounts[k];
      }
    }
  }

  /** What opening an account does to one customer's accounts. */
  datatype Opening = Opening(reply: string, accounts: seq<Account>)

  /** `newAccount` for a logged-in customer holding `accounts`: a customer
      who already holds five accounts is refused whatever the name; otherwise
      the name is checked for length, then for letters; on success the account
      is appended. */
  function OpenAccount(accounts: seq<Account>, name: string, isDefault: bool): (r: Opening)
    ensures r.reply == CreatedReply <==> ValidAccountName(name) && |accounts| < MaxAccounts
    ensures r.reply == CreatedReply ==> r.accounts == accounts + [Account(name, isDefault)]
    ensures r.reply != CreatedReply ==> r.accounts == accounts
    ensures r.reply == TooManyFailure <==> |accounts| >= MaxAccounts
    ensures r.reply == LengthFailure <==> |accounts| < MaxAccounts && !(MinNameLength <= |name| <= MaxNameLength)
    ensures r.reply == LettersFailure <==>
              |accounts| < MaxAccounts && MinNameLength <= |name| <= MaxNameLength && !AllLetters(name)
  {
    if |accounts| >= MaxAccounts then Opening(TooManyFailure, accounts)
    else if !(MinNameLength <= |name| <= MaxNameLength) then Opening(LengthFailure, accounts)
    else if !AllLetters(name) then Opening(LettersFailure, accounts)
    else Opening(CreatedReply, accounts + [Account(name, isDefault)])
  }

  /** A customer never ends up with more than five accounts, and opening never
      reorders, drops or alters an existing account. */
  lemma OpenAccountKeepsCap(accounts: seq<Account>, name: string, isDefault: bool)
    requires |accounts| <= MaxAccounts
    ensures var r := OpenAccount(accounts, name, isDefault);
            |r.accounts| <= MaxAccounts && r.accounts[..|accounts|] == accounts
  {
  }

  /** Opening an account adds one default exactly when it is flagged default and succeeds. */
  lemma OpenAccountDefaults(accounts: seq<Account>, name: string, isDefault: bool)
    ensures var r := OpenAccount(accounts, name, isDefault);
            DefaultCount(r.accounts)
              == DefaultCount(accounts) + (if isDefault && r.reply == CreatedReply then 1 else 0)
  {
    var r := OpenAccount(accounts, name, isDefault);
    if r.reply == CreatedReply {
      assert r.accounts[..|r.accounts| - 1] == accounts;
    }
  }

  /** The session of one connection (`CustomerID`): empty until a login succeeds. */
  class CustomerID {
    var key: string

    constructor ()
      ensures key == ""
    {
      key := "";
    }
  }

  /** The registry (`NewBank`). */
  class NewBank {
    var customers: Registry
    /** `Account.isSavingsAccount`, whose rule is not part of this model. */
    const isSavingsName: string -> bool

    constructor (customers: Registry, isSavingsName: string -> bool)
      ensures this.customers == customers && this.isSavingsName == isSavingsName
    {
      this.customers := customers;
      this.isSavingsName := isSavingsName;
    }

    /** `hasDefaultAccount(customer)`: the customer is registered and holds at
        least one account marked default. */
    predicate HasDefaultAccount(customer: CustomerID)
      reads this, customer
      ensures HasDefaultAccount(customer) <==>
                customer.key in customers && DefaultCount(customers[customer.key]) > 0
    {
      customer.key in customers
      && (HasDefaultIffCount(customers[customer.key]); HasDefault(customers[customer.key]))
    }

    /** `newAccount(customer, name, isDefault)`: applies OpenAccount to the
        logged-in customer's accounts and leaves every other customer alone. */
    method NewAccount(customer: CustomerID, name: string, isDefault: bool) returns (reply: string)
      requires customer.key in customers
      modifies this
      ensures var r := OpenAccount(old(customers)[customer.key], name, isDefault);
              reply == r.reply && customers == old(customers)[customer.key := r.accounts]
    {
      var r := OpenAccount(customers[customer.key], name, isDefault);
      customers := customers[customer.key := r.accounts];
      reply := r.reply;
    }
  }
}
