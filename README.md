# newbank request handling, modelled in Dafny

newbank is a small banking server. Each client connection gets its own
`NewBankClientHandler`. The handler reads request lines. It echoes each line as
`Received request [...]`, then tokenises it. It looks the upper-cased first
token up in a fixed table of eight commands and writes the command's reply
with one `println`. The loop ends after a QUIT.

`Command` supplies a session gate, `checkLoggedIn`: a command that needs a
login calls it, and it allows the request only once the connection's
`CustomerID` holds a username. `NEWACCOUNT <Name> [Default]` does four things:
- it calls the gate first;
- it checks the token count and the optional DEFAULT flag;
- it makes the account the customer's default when the flag is given, or when
  the name is not a savings name and the customer has no default account yet;
- it hands the request to the registry.

The model is split into five modules:

- `JavaStrings` (java_strings.dfy) holds the four `java.lang.String` operations
  the request handling relies on: `trim()`, `split("\\s+")`, `toUpperCase()` and
  `equalsIgnoreCase`.
- `Bank` (bank.dfy) holds what the commands observe of the registry:
  - accounts and the registry map;
  - the rules for opening an account;
  - the `CustomerID` session object and the `NewBank` object, both as classes.
- `Command` (command.dfy) holds the state a command works on (`Snapshot`), its
  result (`Outcome`) and the login gate.
- `NewAccountCommand` (new_account_command.dfy) holds:
  - the command's decision, as the value-level function `Apply`;
  - `Execute`, which follows the Java method statement by statement on the
    `NewBank` and `CustomerID` objects and is proved to agree with `Apply`.
- `ClientHandler` (client_handler.dfy) holds:
  - tokenising, the command table and dispatch;
  - `Process`, the value-level transcript of a connection;
  - the `NewBankClientHandler` class, whose `ProcessRequest` and `Run` update
    the shared session, the registry and the written output in place, and are
    proved against `Step` and `Process`.

## Model

| member | source | states |
|---|---|---|
| JavaStrings.Trim | src/main/java/newbank/server/NewBankClientHandler.java:56 | the result is empty exactly when every character is one `trim()` removes; otherwise it starts and ends with a kept character |
| JavaStrings.TrimIsSlice | src/main/java/newbank/server/NewBankClientHandler.java:56 | `trim()` keeps one contiguous piece of the line and drops only trimmable characters before and after it |
| JavaStrings.TrimAround | src/main/java/newbank/server/NewBankClientHandler.java:56 | trimming text whose first and last characters are kept, inside any blank margin, gives exactly that text |
| JavaStrings.Words | src/main/java/newbank/server/NewBankClientHandler.java:56 | words need separators between them: a line of n characters yields at most (n+1)/2 words, and at most n/2 when it starts with a separator |
| JavaStrings.WordsSplit | src/main/java/newbank/server/NewBankClientHandler.java:56 | any non-empty run of `\s` characters (several spaces, tabs, a mix) separates the same way: the words of `a`, the run and `b` are the words of `a` followed by those of `b` |
| JavaStrings.WordsOfTwo | src/main/java/newbank/server/NewBankClientHandler.java:56 | two printable words around any run of `\s` characters split into exactly those two words |
| JavaStrings.WordsSpec | src/main/java/newbank/server/NewBankClientHandler.java:56 | every word `split("\\s+")` yields is non-empty and free of `\s` characters; there are none exactly when the line is all spaces |
| JavaStrings.WordsOfJoin | src/main/java/newbank/server/NewBankClientHandler.java:56 | splitting words joined by single spaces gives back exactly those words |
| JavaStrings.ToUpper | src/main/java/newbank/server/NewBankClientHandler.java:60 | `toUpperCase()` keeps the length and upper-cases each character |
| JavaStrings.ToUpperIsUpperCase | src/main/java/newbank/server/NewBankClientHandler.java:60 | upper-casing leaves no lower-case letter and is idempotent |
| JavaStrings.UpperFixes | src/main/java/newbank/server/NewBankClientHandler.java:60 | upper-casing a string without lower-case letters returns it unchanged |
| JavaStrings.EqualsIgnoreCase | src/main/java/newbank/server/commands/NewAccountCommand.java:40 | a string always equals itself ignoring case |
| JavaStrings.CharsMatchIffSameUpper | src/main/java/newbank/server/commands/NewAccountCommand.java:40 | two characters match under `equalsIgnoreCase` exactly when their upper cases are equal |
| JavaStrings.EqualsIgnoreCaseIffSameUpper | src/main/java/newbank/server/commands/NewAccountCommand.java:40 | `equalsIgnoreCase` holds exactly when the upper-cased strings are equal |
| Bank.OpenAccount | src/test/java/newbank/TestApp.java:106-132 | the registry accepts a name exactly when it has 4 to 12 letters and the customer holds fewer than five accounts; on success the account is appended, otherwise nothing changes; each failure reply corresponds exactly to its cause: the cap failure exactly when five accounts are held, whatever the name, and otherwise the length failure before the letters failure |
| Bank.OpenAccountKeepsCap | src/test/java/newbank/TestApp.java:119-132 | no customer ever holds more than five accounts, and existing accounts are never reordered or altered |
| Bank.HasDefaultIffCount | src/main/java/newbank/server/commands/NewAccountCommand.java:23-25 | a customer has a default account exactly when at least one account is marked default |
| Bank.OpenAccountDefaults | src/main/java/newbank/server/commands/NewAccountCommand.java:47-52 | opening adds one default account exactly when the request is flagged default and succeeds |
| Bank.NewBank.HasDefaultAccount | src/main/java/newbank/server/commands/NewAccountCommand.java:24 | `hasDefaultAccount` holds exactly when the customer is registered and at least one of their accounts is marked default |
| Bank.NewBank.NewAccount | src/main/java/newbank/server/commands/NewAccountCommand.java:52 | `newAccount` changes only the logged-in customer's accounts, as `OpenAccount` says, and returns its reply |
| Command.GetSyntax | src/main/java/newbank/server/commands/Command.java:14-16 | a command documents no syntax unless it overrides this |
| Command.IsLoggedIn | src/main/java/newbank/server/commands/Command.java:24-26 | a session is logged in exactly when its key is non-empty |
| Command.CheckLoggedIn | src/main/java/newbank/server/commands/Command.java:18-22 | the gate raises RequestNotAllowed exactly when the session key is empty, and passes otherwise |
| NewAccountCommand.Syntax | src/main/java/newbank/server/commands/NewAccountCommand.java:19-21 | the command's syntax text is `NEWACCOUNT <Name> [Default]` |
| NewAccountCommand.PlanFor | src/main/java/newbank/server/commands/NewAccountCommand.java:29-50 | the command goes on to open an account exactly when the session is logged in and the tokens are acceptable; logged out always gives the gate's failure, and logged in with unacceptable tokens always gives the usage failure; the account opened is named by the second token; an explicit DEFAULT always makes it default; without the flag it is default exactly when its name is not a savings name and the customer has no default account yet, so a customer who already has one never gets another |
| NewAccountCommand.Apply | src/main/java/newbank/server/commands/NewAccountCommand.java:28-56 | the command keeps states reachable; it never changes the session or the set of customers, and never touches another customer's accounts |
| NewAccountCommand.LoggedOutIsRejected | src/main/java/newbank/server/commands/NewAccountCommand.java:29-54 | a logged-out request gets `FAIL: ` plus the gate's message, whatever its tokens, and changes nothing; that reply differs from the usage failure |
| NewAccountCommand.BadSyntaxIsRejected | src/main/java/newbank/server/commands/NewAccountCommand.java:32-42 | a logged-in request without a name, or with a third and last token other than DEFAULT in any case, gets the usage failure and changes nothing |
| NewAccountCommand.ValidRequestDelegates | src/main/java/newbank/server/commands/NewAccountCommand.java:36-52 | a well-formed request is exactly `newAccount(customer, tokens[1], isDefault)`, where isDefault is the explicit flag or else "not a savings name and no default yet" |
| NewAccountCommand.ExtraTokensIgnored | src/main/java/newbank/server/commands/NewAccountCommand.java:32-45 | with four or more tokens, everything after the name is ignored |
| NewAccountCommand.ImplicitDefaultKeepsAtMostOne | src/main/java/newbank/server/commands/NewAccountCommand.java:47-50 | without the DEFAULT flag a customer with at most one default account still has at most one afterwards |
| NewAccountCommand.ExplicitDefaultDoesNotDemote | src/main/java/newbank/server/commands/NewAccountCommand.java:39-52 | with the DEFAULT flag a successful request appends a default account and keeps the earlier default, so the count of defaults grows by one |
| NewAccountCommand.OpeningRefusals | src/test/java/newbank/TestApp.java:103-117 | for a logged-in customer with room for another account, `abc` and `abcdefghijklmnopqr` get the length failure and `123456` the letters failure, with no change; a bare `NEWACCOUNT` gets the usage failure |
| NewAccountCommand.OpensWhileRoom | src/test/java/newbank/TestApp.java:119-132 | a valid name opens an account while fewer than five are held, and is refused for the cap afterwards |
| NewAccountCommand.OpeningUpToCap | src/test/java/newbank/TestApp.java:119-132 | starting from one account, `accountB` to `accountE` are created, and `accountF` and `accountG` get the cap failure and change nothing |
| NewAccountCommand.AtCapAnyNameIsRefused | src/test/java/newbank/TestApp.java:129-132 | a customer holding five accounts gets the cap failure for any name, well-formed or not, and nothing changes |
| NewAccountCommand.IsFirstNonSavingsAccount | src/main/java/newbank/server/commands/NewAccountCommand.java:23-25 | holds exactly when the name is not a savings name and the customer holds no account marked default |
| NewAccountCommand.Execute | src/main/java/newbank/server/commands/NewAccountCommand.java:27-56 | the method's reply and its registry update are exactly those of `Apply` on the state before the call |
| ClientHandler.Dispatch | src/main/java/newbank/server/NewBankClientHandler.java:51-53 | a name selects a verb exactly when the verb is registered under that name; every other name selects Unknown |
| ClientHandler.TableIsExact | src/main/java/newbank/server/NewBankClientHandler.java:40-49 | the table has exactly the eight keys, each mapped to its own command |
| ClientHandler.Tokenize | src/main/java/newbank/server/NewBankClientHandler.java:56-58 | tokenising never yields an empty array |
| ClientHandler.TokenizeShape | src/main/java/newbank/server/NewBankClientHandler.java:56 | a blank line gives the single empty token; any other line gives non-empty tokens without `\s` characters |
| ClientHandler.TokenizeJoin | src/main/java/newbank/server/NewBankClientHandler.java:56 | a line of printable words separated by single spaces tokenises back to those words |
| ClientHandler.TokenizeSeparated | src/main/java/newbank/server/NewBankClientHandler.java:56 | two printable words with any run of `\s` characters between them and any blank margin around them tokenise to exactly those two words |
| ClientHandler.VerbNameSpec | src/main/java/newbank/server/NewBankClientHandler.java:60 | the verb holds no lower-case letter and equals the first token ignoring case |
| ClientHandler.QuitIgnoresCase | src/main/java/newbank/server/NewBankClientHandler.java:60-66 | a line ends the loop exactly when its first token equals `QUIT` ignoring case |
| ClientHandler.VerbIgnoresCase | src/main/java/newbank/server/NewBankClientHandler.java:51-60 | a first token equal to a table key up to letter case selects that key's command |
| ClientHandler.KeyIsUpper | src/main/java/newbank/server/NewBankClientHandler.java:40-49 | every table key is already upper case, so upper-casing it changes nothing |
| ClientHandler.BlankLineIsUnknown | src/test/java/newbank/TestApp.java:135-139 | a blank line tokenises to the empty token, selects Unknown, and gets the unknown-command reply with no change of state |
| ClientHandler.UnknownVerbIsUnknown | src/test/java/newbank/TestApp.java:141-145 | `INVALID command` gets the unknown-command reply with no change of state |
| ClientHandler.InvalidVerbName | src/test/java/newbank/TestApp.java:141-145 | `INVALID command` tokenises to its two words, and its verb is INVALID |
| ClientHandler.Execute | src/main/java/newbank/server/NewBankClientHandler.java:62 | running a command keeps states reachable, provided the commands outside the model do too; Unknown replies with the fixed failure and changes nothing |
| ClientHandler.Echo | src/main/java/newbank/server/NewBankClientHandler.java:76 | the echo is 19 characters longer than the request and holds it verbatim after its first 18 characters, up to the last one |
| ClientHandler.EchoDelimits | src/main/java/newbank/server/NewBankClientHandler.java:76 | those 18 characters are `Received request [` and the last one is `]`, so with `Echo` the request is quoted verbatim between them |
| ClientHandler.Handling | src/main/java/newbank/server/NewBankClientHandler.java:55-69 | when the commands outside the model keep states reachable, the connection's request handler is defined on every reachable state and leads only to reachable states |
| ClientHandler.Process | src/main/java/newbank/server/NewBankClientHandler.java:71-79 | handling a sequence of lines from a reachable state ends in a reachable state |
| ClientHandler.ProcessNext | src/main/java/newbank/server/NewBankClientHandler.java:74-79 | handling one more line appends its echo and its reply, and moves to the state that line's command leaves |
| ClientHandler.ProcessLength | src/main/java/newbank/server/NewBankClientHandler.java:76-78 | every line handled writes exactly two strings, one per `println` |
| ClientHandler.ProcessLines | src/main/java/newbank/server/NewBankClientHandler.java:76-78 | the two strings written for request k are its echo, then the reply of its command run on the state the earlier requests left |
| ClientHandler.FirstWhere | src/main/java/newbank/server/NewBankClientHandler.java:64-66 | the position found holds the first element that satisfies the predicate |
| ClientHandler.NewBankClientHandler.constructor | src/main/java/newbank/server/NewBankClientHandler.java:31-37 | a new handler is logged out, has the full table and has written nothing |
| ClientHandler.NewBankClientHandler.InitialiseSupportedCommands | src/main/java/newbank/server/NewBankClientHandler.java:40-49 | after the eight puts the handler's map is exactly the command table |
| ClientHandler.NewBankClientHandler.GetCommand | src/main/java/newbank/server/NewBankClientHandler.java:51-53 | with the table initialised, the lookup is `Dispatch` |
| ClientHandler.NewBankClientHandler.ExecuteCommand | src/main/java/newbank/server/NewBankClientHandler.java:62 | running the selected command on the shared session and registry has exactly the effect of `Execute` and keeps the handler valid |
| ClientHandler.NewBankClientHandler.ProcessRequest | src/main/java/newbank/server/NewBankClientHandler.java:55-69 | the reply is written with one `println` and the state moves as `Step` says; the answer is false exactly for QUIT in any letter case |
| ClientHandler.NewBankClientHandler.Turn | src/main/java/newbank/server/NewBankClientHandler.java:75-78 | one loop turn writes the echo, then the reply, one `println` each, and moves the state as `Step` says |
| ClientHandler.NewBankClientHandler.Run | src/main/java/newbank/server/NewBankClientHandler.java:71-79 | the loop handles the lines up to and including the first QUIT and none after it; what it writes, and the state it leaves, are those of `Process` over exactly those lines |

## Left out

- `ExampleClient` is not part of this model. It is the console client and holds no server logic.
- Sockets, `BufferedReader`/`PrintWriter`, the `IOException` handlers and the closing of streams are left out. `Run` takes the request lines as a sequence, and the output stream is the `out` sequence with one entry per `println` call. A reply that itself spans several lines (SHOWMYACCOUNTS prints one line per account, TestApp.java lines 90-95) is one entry, so the model counts `println` calls, not lines on the wire.
- ClientHandler.NewBankClientHandler.Run: requires a QUIT among the lines. At end of stream Java's `readLine` returns null, and `processRequest(null)` throws a NullPointerException that ends the thread. That path is not modelled.
- `NewBankClientHandler` extends `Thread`, and `NewBank` is a shared singleton. Concurrency between connections is left out: one handler runs against the registry alone.
- The commands LOGIN, REGISTER, DEPOSIT, SHOWMYACCOUNTS, QUIT and DEFAULT are not part of this model. They appear as one function parameter, `Collaborators`, from verb, tokens and state to reply and new state. The handler's proofs rely only on these commands keeping states reachable (`KeepsWellFormed`).
- `NewBank`, `Account` and `CustomerID` are not part of this model as source text. The registry rules in `Bank.OpenAccount` come from the replies the end-to-end test expects (`TestApp.java`, lines 106-132): names of 4 to 12 letters and at most five accounts.
- Bank.OpenAccount: which reply wins when several rules fail is not visible in any source modelled here. The test shows the cap failure only for valid names (TestApp.java lines 129-132). The model checks the cap, then the length, then the letters; this order is a modelling choice.
- Bank.IsLetter: the letters-only rule is modelled as the ASCII letters, which is what the end-to-end test's replies show (`123456` refused, `accountB` accepted). Whether the registry accepts non-ASCII letters is not part of this model.
- `UnknownCommand` is not part of this model as source text. Its reply `FAIL: Unknown command.` and the fact that it changes nothing come from the end-to-end test (TestApp.java lines 135-145).
- `Command.execute()` is declared to throw `CommandInvalidSyntaxException` (Command.java line 9), and neither `processRequest` nor `run` catches it, so such a throw would end the connection's thread without a reply. `NEWACCOUNT` never throws it, and the commands outside the model are total functions (`Collaborators`), so that path is not modelled.
- `Account.isSavingsAccount` is not part of this model. It is the function field `NewBank.isSavingsName`.
- Command.RequestNotAllowedMessage: the message text of `RequestNotAllowedException` is not part of this model. The model uses a fixed stand-in that differs from every usage message.
- Account balances, currencies and deposits are left out. An account is a name and a default flag.
- JavaStrings.ToUpper: `toUpperCase()` and `equalsIgnoreCase` are modelled for the ASCII letters only. The locale-dependent and non-ASCII mappings are left out.
- The end-to-end test expects `FAIL: The proper syntax is: NEWACCOUNT <Name>` for a bare `NEWACCOUNT` (TestApp.java line 104). The command's code returns `FAIL: Usage: NEWACCOUNT <Name> [Default]`, and the model follows the code (`NewAccountCommand.OpeningRefusals`).
- NewAccountCommand.ExplicitDefaultDoesNotDemote: the code does not say whether an explicit DEFAULT should demote an earlier default account. The registry as modelled does not, so a customer can hold two default accounts this way. Only the implicit path keeps at most one (`ImplicitDefaultKeepsAtMostOne`).
