/** The per-connection request loop (`NewBankClientHandler`): tokenise each
    request line, look its upper-cased verb up in a fixed table, run the command
    against the shared session and registry, and write its reply with one
    `println`; stop after QUIT. The output is modelled as the sequence of
    strings passed to `println`, so a reply spanning several lines is one entry. */
module ClientHandler {
  import opened JavaStrings
  import opened Bank
  import opened Command
  import NewAccountCommand

  /** The commands the table can name. */
  datatype Verb = Deposit | Login | NewAccount | Quit | Register | ShowMyAccounts | Default | Unknown

  /** The table key each command is registered under. */
  function Key(v: Verb): string
  {
    match v
    case Deposit => "DEPOSIT"
    case Login => "LOGIN"
    case NewAccount => "NEWACCOUNT"
    case Quit => "QUIT"
    case Register => "REGISTER"
    case ShowMyAccounts => "SHOWMYACCOUNTS"
    case Default => "DEFAULT"
    case Unknown => "UNKNOWN"
  }

  /** The contents `initialiseSupportedCommands` puts in the table. */
  function Table(): map<string, Verb>
  {
    map["DEPOSIT" := Deposit, "LOGIN" := Login, "NEWACCOUNT" := NewAccount, "QUIT" := Quit,
        "REGISTER" := Register, "SHOWMYACCOUNTS" := ShowMyAccounts, "DEFAULT" := Default,
        "UNKNOWN" := Unknown]
  }

  /** `commands.getOrDefault(name, UnknownCommand::new)`: a name selects the
      command registered under it, and every other name selects Unknown. */
  function Dispatch(name: string): (v: Verb)
    ensures forall w :: v == w <==> name == Key(w) || (w == Unknown && name !in Table())
  {
    if name in Table() then Table()[name] else Unknown
  }

  /** The table holds exactly the eight keys, each mapped to its own command. */
  lemma TableIsExact()
    ensures Table().Keys == {"DEPOSIT", "LOGIN", "NEWACCOUNT", "QUIT", "REGISTER", "SHOWMYACCOUNTS", "DEFAULT", "UNKNOWN"}
    ensures forall v :: Key(v) in Table() && Table()[Key(v)] == v
  {
  }

  /** `request.trim().split("\\s+")`, which never yields an empty array. */
  function Tokenize(request: string): (tokens: seq<string>)
    ensures |tokens| >= 1
  {
    var trimmed := Trim(request);
    if trimmed == "" then [""]
    else
      WordsSpec(trimmed);
      assert !AllSpace(trimmed) by { assert !IsTrimmable(trimmed[0]); }
      Words(trimmed)
  }

  /** A blank line gives the one empty token; any other line gives its
      non-empty, space-free words. */
  lemma TokenizeShape(request: string)
    ensures AllTrimmable(request) ==> Tokenize(request) == [""]
    ensures !AllTrimmable(request) ==> forall t :: t in Tokenize(request) ==> t != "" && NoSpace(t)
  {
    WordsSpec(Trim(request));
  }

  /** A line made of printable words separated by single spaces tokenises back
      to those words. */
  lemma TokenizeJoin(ws: seq<string>)
    requires ws != [] && forall w :: w in ws ==> w != [] && Printable(w)
    ensures Tokenize(Join(ws)) == ws
  {
    forall w | w in ws ensures w != [] && NoSpace(w) {
      assert Printable(w);
    }
    WordsOfJoin(ws);
    forall k | 0 <= k < |ws| ensures ws[k] != [] {
      assert ws[k] in ws;
    }
    JoinEnds(ws);
    var s := Join(ws);
    assert ws[0] in ws && ws[|ws| - 1] in ws;
    assert LeadingTrimmable(s) == 0;
    assert s[0..] == s;
    assert TrailingTrimmable(s) == 0;
    assert Trim(s) == s;
  }

  /** Two printable words with any run of separators between them (spaces,
      tabs, several of each) and any blank margin around them tokenise to
      exactly those two words. */
  lemma TokenizeSeparated(pre: string, a: string, sp: string, b: string, post: string)
    requires AllTrimmable(pre) && AllTrimmable(post)
    requires a != [] && Printable(a) && b != [] && Printable(b)
    requires sp != [] && AllSpace(sp)
    ensures Tokenize(pre + a + sp + b + post) == [a, b]
  {
    var x := a + sp + b;
    assert x[0] == a[0] && x[|x| - 1] == b[|b| - 1];
    assert pre + a + sp + b + post == pre + x + post;
    TrimAround(pre, x, post);
    WordsOfTwo(a, sp, b);
  }

  /** The verb of a request: its first token, upper-cased. */
  function VerbName(request: string): string
  {
    ToUpper(Tokenize(request)[0])
  }

  /** The verb holds no lower-case letter and equals the first token ignoring
      case. */
  lemma VerbNameSpec(request: string)
    ensures IsUpperCase(VerbName(request))
    ensures EqualsIgnoreCase(VerbName(request), Tokenize(request)[0])
  {
    var first := Tokenize(request)[0];
    ToUpperIsUpperCase(first);
    EqualsIgnoreCaseIffSameUpper(ToUpper(first), first);
  }

  /** `processRequest` answers false exactly for QUIT. */
  predicate IsQuit(request: string) {
    VerbName(request) == "QUIT"
  }

  /** A line is QUIT exactly when its first token equals QUIT ignoring case. */
  lemma QuitIgnoresCase(request: string)
    ensures IsQuit(request) <==> EqualsIgnoreCase(Tokenize(request)[0], "QUIT")
  {
    EqualsIgnoreCaseIffSameUpper(Tokenize(request)[0], "QUIT");
    UpperFixes("QUIT");
  }

  /** Verb matching ignores case: a first token equal to a table key up to
      letter case selects that key's command. */
  lemma VerbIgnoresCase(request: string, v: Verb)
    requires EqualsIgnoreCase(Tokenize(request)[0], Key(v))
    ensures Dispatch(VerbName(request)) == v
  {
    EqualsIgnoreCaseIffSameUpper(Tokenize(request)[0], Key(v));
    KeyIsUpper(v);
    assert VerbName(request) == Key(v);
  }

  /** Every table key is already upper case. */
  lemma KeyIsUpper(v: Verb)
    ensures ToUpper(Key(v)) == Key(v)
  {
    UpperFixes(Key(v));
  }

  /** Reply of the unknown command, as the end-to-end test expects it. */
  const UnknownReply := "FAIL: Unknown command."

  /** A blank line runs the unknown command: the reply is the unknown-command
      failure and nothing changes. */
  lemma BlankLineIsUnknown(s: Snapshot, request: string, isSavings: string -> bool, others: Collaborators)
    requires WellFormed(s) && AllTrimmable(request)
    ensures Tokenize(request) == [""] && Dispatch(VerbName(request)) == Unknown
    ensures Step(s, request, isSavings, others) == Outcome(UnknownReply, s)
  {
  }

  /** A verb outside the table, such as INVALID, runs the unknown command. */
  lemma UnknownVerbIsUnknown(s: Snapshot, isSavings: string -> bool, others: Collaborators)
    requires WellFormed(s)
    ensures Step(s, "INVALID command", isSavings, others) == Outcome(UnknownReply, s)
  {
    InvalidVerbName();
    InvalidIsNoKey();
  }

  /** INVALID is not a table key. */
  lemma InvalidIsNoKey()
    ensures "INVALID" !in Table()
  {
    TableIsExact();
  }

  /** The verb of the request `INVALID command` is INVALID. */
  lemma InvalidVerbName()
    ensures Tokenize("INVALID command") == ["INVALID", "command"]
    ensures VerbName("INVALID command") == "INVALID"
  {
    var ws := ["INVALID", "command"];
    assert Join(ws) == "INVALID command";
    TokenizeJoin(ws);
    InvalidIsUpper();
  }

  /** INVALID is already upper case. */
  lemma InvalidIsUpper()
    ensures ToUpper("INVALID") == "INVALID"
  {
    UpperFixes("INVALID");
  }

  /** The commands whose source is not part of this model (LOGIN, REGISTER,
      DEPOSIT, SHOWMYACCOUNTS, QUIT, DEFAULT): each yields a reply and a new
      state from the verb, the full token list and the current state. */
  type Collaborators = (Verb, seq<string>, Snapshot) -> Outcome

  /** The collaborators only move between reachable states: a session they set
      names a registered customer, and they respect the five-account cap. */
  ghost predicate KeepsWellFormed(others: Collaborators) {
    forall v, tokens, s :: WellFormed(s) ==> WellFormed(others(v, tokens, s).after)
  }

  /** `getCommand(name, tokens).execute()` on the shared state. */
  function Execute(v: Verb, tokens: seq<string>, s: Snapshot, isSavings: string -> bool, others: Collaborators): (o: Outcome)
    requires WellFormed(s)
    ensures KeepsWellFormed(others) ==> WellFormed(o.after)
    ensures v == Unknown ==> o == Outcome(UnknownReply, s)
  {
    match v
    case NewAccount => NewAccountCommand.Apply(tokens, s, isSavings)
    case Unknown => Outcome(UnknownReply, s)
    case _ => others(v, tokens, s)
  }

  /** The command a request line runs, and what it yields. */
  function Step(s: Snapshot, request: string, isSavings: string -> bool, others: Collaborators): Outcome
    requires WellFormed(s)
  {
    Execute(Dispatch(VerbName(request)), Tokenize(request), s, isSavings, others)
  }

  /** The line `run` writes before handling a request: the request quoted
      verbatim between the brackets. */
  function Echo(request: string): (e: string)
    ensures |e| == |request| + 19 && e[18..|e| - 1] == request
  {
    "Received request [" + request + "]"
  }

  /** The echo opens with `Received request [` and closes with `]`. */
  lemma EchoDelimits(request: string)
    ensures Echo(request)[..18] == "Received request [" && Echo(request)[|Echo(request)| - 1] == ']'
  {
  }

  /** What handling one request line yields on a reachable state. */
  type Handler = (Snapshot, string) --> Outcome

  /** A handler defined on every reachable state that only leads to reachable
      states. */
  ghost predicate Closed(handle: Handler) {
    forall s, request :: WellFormed(s) ==> handle.requires(s, request) && WellFormed(handle(s, request).after)
  }

  /** The handler of this connection: `processRequest` on the shared state. */
  function Handling(isSavings: string -> bool, others: Collaborators): (handle: Handler)
    ensures KeepsWellFormed(others) ==> Closed(handle)
  {
    (s, request) requires WellFormed(s) => Step(s, request, isSavings, others)
  }

  /** The strings written and the state reached after handling requests in order. */
  datatype Transcript = Transcript(written: seq<string>, final: Snapshot)

  /** Handling `requests` one after the other from state `s`, echoing each one
      first; the session and the registry left by one request are what the
      next one sees. */
  function Process(s: Snapshot, requests: seq<string>, handle: Handler): (t: Transcript)
    requires WellFormed(s) && Closed(handle)
    ensures WellFormed(t.final)
    decreases |requests|
  {
    if requests == [] then Transcript([], s)
    else
      var t := Process(s, requests[..|requests| - 1], handle);
      var request := requests[|requests| - 1];
      var o := handle(t.final, request);
      Transcript(t.written + [Echo(request), o.reply], o.after)
  }

  /** Handling one more request appends its echo and reply to the transcript. */
  lemma ProcessNext(s: Snapshot, requests: seq<string>, h: nat, handle: Handler)
    requires WellFormed(s) && Closed(handle) && h < |requests|
    ensures var t := Process(s, requests[..h], handle);
            var o := handle(t.final, requests[h]);
            Process(s, requests[..h + 1], handle) == Transcript(t.written + [Echo(requests[h]), o.reply], o.after)
  {
    assert requests[..h + 1][..h] == requests[..h];
  }

  /** Every request yields exactly two written strings. */
  lemma {:induction false} ProcessLength(s: Snapshot, requests: seq<string>, handle: Handler)
    requires WellFormed(s) && Closed(handle)
    ensures |Process(s, requests, handle).written| == 2 * |requests|
    decreases |requests|
  {
    if requests != [] {
      ProcessLength(s, requests[..|requests| - 1], handle);
    }
  }

  /** The two strings written for request k are its echo, then the reply of
      its handling on the state the earlier requests left. */
  lemma {:induction false} ProcessLines(s: Snapshot, requests: seq<string>, handle: Handler, k: nat)
    requires WellFormed(s) && Closed(handle) && k < |requests|
    ensures |Process(s, requests, handle).written| == 2 * |requests|
    ensures var written := Process(s, requests, handle).written;
            var before := Process(s, requests[..k], handle).final;
            written[2 * k] == Echo(requests[k])
            && written[2 * k + 1] == handle(before, requests[k]).reply
    decreases |requests|
  {
    ProcessLength(s, requests, handle);
    var init := requests[..|requests| - 1];
    ProcessLength(s, init, handle);
    if k < |requests| - 1 {
      ProcessLines(s, init, handle, k);
      assert init[..k] == requests[..k];
      assert init[k] == requests[k];
    } else {
      assert requests[..k] == init;
    }
  }

  /** Concatenation regroups freely. */
  lemma AppendAssoc<T>(a: seq<T>, b: seq<T>, c: seq<T>)
    ensures (a + b) + c == a + (b + c)
  {
  }

  /** Position of the first element that satisfies `p`. */
  function FirstWhere<T>(xs: seq<T>, p: T -> bool): (q: nat)
    requires exists i :: 0 <= i < |xs| && p(xs[i])
    ensures q < |xs| && p(xs[q])
    ensures forall j :: 0 <= j < q ==> !p(xs[j])
  {
    if p(xs[0]) then 0
    else
      assert exists i :: 0 <= i < |xs| - 1 && p(xs[1..][i]) by {
        var i :| 0 <= i < |xs| && p(xs[i]);
        assert xs[1..][i - 1] == xs[i];
      }
      1 + FirstWhere(xs[1..], p)
  }

  /** The handler of one connection. */
  class NewBankClientHandler {
    const bank: NewBank
    const customer: CustomerID
    /** the commands of the unshown command classes */
    const others: Collaborators
    var commands: map<string, Verb>
    /** every string written to the client so far, one per `println` */
    var out: seq<string>

    ghost predicate Valid()
      reads this, bank, customer
    {
      && commands == Table()
      && WellFormed(State())
      && KeepsWellFormed(others)
    }

    /** The session key and registry as values. */
    function State(): Snapshot
      reads this, bank, customer
    {
      Snapshot(customer.key, bank.customers)
    }

    /** A fresh connection: logged out, the table filled, nothing written. */
    constructor (bank: NewBank, others: Collaborators)
      requires WellFormed(Snapshot("", bank.customers)) && KeepsWellFormed(others)
      ensures Valid() && fresh(customer) && this.bank == bank && this.others == others
      ensures customer.key == "" && bank.customers == old(bank.customers) && out == []
    {
      this.bank := bank;
      this.others := others;
      customer := new CustomerID();
      commands := map[];
      out := [];
      new;
      InitialiseSupportedCommands();
    }

    /** `initialiseSupportedCommands`: registers the eight commands. */
    method InitialiseSupportedCommands()
      requires commands == map[]
      modifies this`commands
      ensures commands == Table()
    {
      commands := commands["DEPOSIT" := Deposit];
      commands := commands["LOGIN" := Login];
      commands := commands["NEWACCOUNT" := NewAccount];
      commands := commands["QUIT" := Quit];
      commands := commands["REGISTER" := Register];
      commands := commands["SHOWMYACCOUNTS" := ShowMyAccounts];
      commands := commands["DEFAULT" := Default];
      commands := commands["UNKNOWN" := Unknown];
    }

    /** `getCommand(name, ...)`: the table lookup with Unknown as the fallback. */
    function GetCommand(name: string): (v: Verb)
      reads this
      ensures commands == Table() ==> v == Dispatch(name)
    {
      if name in commands then commands[name] else Unknown
    }

    /** Runs one command on the shared session and registry. */
    method ExecuteCommand(v: Verb, tokens: seq<string>) returns (reply: string)
      requires Valid()
      modifies bank, customer
      ensures Valid()
      ensures var o := Execute(v, tokens, old(State()), bank.isSavingsName, others);
              reply == o.reply && State() == o.after
    {
      match v
      case NewAccount =>
        reply := NewAccountCommand.Execute(bank, tokens, customer);
      case Unknown =>
        reply := UnknownReply;
      case _ =>
        var o := others(v, tokens, State());
        customer.key := o.after.key;
        bank.customers := o.after.customers;
        reply := o.reply;
    }

    /** `processRequest(request)`: writes the reply with one `println` and answers
        whether the loop goes on, which it does unless the verb is QUIT. */
    method ProcessRequest(request: string) returns (hasMore: bool)
      requires Valid()
      modifies this`out, bank, customer
      ensures Valid()
      ensures hasMore <==> !IsQuit(request)
      ensures var o := Step(old(State()), request, bank.isSavingsName, others);
              out == old(out) + [o.reply] && State() == o.after
    {
      var tokens := Tokenize(request);
      var commandName := ToUpper(tokens[0]);
      var reply := ExecuteCommand(GetCommand(commandName), tokens);
      out := out + [reply];
      if commandName == "QUIT" {
        return false;
      }
      return true;
    }

    /** `run()` over the lines the client sends: each request is echoed and
        handled, and the loop stops right after the first QUIT, reading nothing
        further. */
    method Run(requests: seq<string>) returns (handled: nat)
      requires Valid()
      requires exists i :: 0 <= i < |requests| && IsQuit(requests[i])
      modifies this`out, bank, customer
      ensures Valid()
      ensures handled == FirstWhere(requests, IsQuit) + 1
      ensures var t := Process(old(State()), requests[..handled], Handling(bank.isSavingsName, others));
              out == old(out) + t.written && State() == t.final
    {
      ghost var start := State();
      ghost var q := FirstWhere(requests, IsQuit);
      ghost var handle := Handling(bank.isSavingsName, others);
      ghost var done := Process(start, [], handle);
      var hasMore := true;
      handled := 0;
      while hasMore
        invariant Valid()
        invariant 0 <= handled <= q + 1
        invariant hasMore <==> handled <= q
        invariant done == Process(start, requests[..handled], handle)
        invariant out == old(out) + done.written && State() == done.final
        decreases q + 1 - handled
      {
        var request := requests[handled];
        hasMore := Turn(request);
        ghost var o := Step(done.final, request, bank.isSavingsName, others);
        AppendAssoc(old(out), done.written, [Echo(request), o.reply]);
        ProcessNext(start, requests, handled, handle);
        done := Transcript(done.written + [Echo(request), o.reply], o.after);
        handled := handled + 1;
      }
    }

    /** One turn of the loop in `run`: echo the request line, then process it. */
    method Turn(request: string) returns (hasMore: bool)
      requires Valid()
      modifies this`out, bank, customer
      ensures Valid()
      ensures hasMore <==> !IsQuit(request)
      ensures var o := Step(old(State()), request, bank.isSavingsName, others);
              out == old(out) + [Echo(request), o.reply] && State() == o.after
    {
      out := out + [Echo(request)];
      hasMore := ProcessRequest(request);
    }
  }
}
