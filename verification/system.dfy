/** Gateway, AuthServer and ledger together, over any sequence of request lines. */
module Systems {
  import opened Words
  import opened Sql
  import opened CStrings
  import opened Auth
  import opened Accounts
  import opened Journal
  import opened Gateways

  // --- One line --------------------------------------------------------------------------------

  /** The words of a command, numbers printed in decimal. */
  function WordsOf(rpc: Rpc): seq<string> {
    match rpc
    case LoginRpc(r) => ["login", r.user, r.pin]
    case RegisterRpc(r) => ["register", r.user, r.pin]
    case TxRpc(c) => ["tx", Itoa(c.token), c.src, c.dest, c.kind, Itoa(c.amount)]
  }

  /** Its string fields can be told apart on a line. */
  predicate Printable(rpc: Rpc) {
    match rpc
    case LoginRpc(r) => Word(r.user) && Word(r.pin)
    case RegisterRpc(r) => Word(r.user) && Word(r.pin)
    case TxRpc(c) => Word(c.src) && Word(c.dest) && Word(c.kind)
  }

  lemma WordsParse(rpc: Rpc, extra: seq<string>, wild: string -> int32)
    ensures Parse(WordsOf(rpc) + extra, wild) == Do(rpc)
  {
    if rpc.TxRpc? {
      AtoiUndoesItoa(rpc.c.token, wild);
      AtoiUndoesItoa(rpc.c.amount, wild);
    }
  }

  /**
    Command round trip.  A command laid out with any positive number of spaces between its
    fields, any before and after, and any further words behind it, is understood as that very
    command with those very arguments, and served as that if its component is ready for it.
  */
  lemma CommandRoundTrip(s: Sys, rpc: Rpc, extra: seq<string>, gaps: seq<nat>, wild: string -> int32)
    requires Printable(rpc) && Spaced(WordsOf(rpc) + extra, gaps)
    ensures RequestOf(Layout(WordsOf(rpc) + extra, gaps), wild) == Do(rpc)
    ensures Admits(s, rpc) ==>
      && Serve(s, Layout(WordsOf(rpc) + extra, gaps), wild) == Execute(s, rpc)
      && ReplyTo(s, Layout(WordsOf(rpc) + extra, gaps), wild) == Clip(Result(s, rpc))
    ensures (forall w :: w in WordsOf(rpc) + extra ==> '\0' !in w) ==>
              '\0' !in Layout(WordsOf(rpc) + extra, gaps)
  {
    hide Layout, Split, Parse, WordsOf, Execute, Result, Clip, Admits;
    assert |gaps| == |WordsOf(rpc) + extra| + 1;
    hide Spaced;
    if forall w :: w in WordsOf(rpc) + extra ==> '\0' !in w {
      LayoutAddsOnlySpaces(WordsOf(rpc) + extra, gaps);
    }
    SplitUndoesLayout(WordsOf(rpc) + extra, gaps);
    WordsParse(rpc, extra, wild);
  }

  /** These words spell the command: the fields as they stand, the numbers in any form atoi reads. */
  predicate Spells(words: seq<string>, rpc: Rpc, wild: string -> int32) {
    match rpc
    case LoginRpc(r) => words == ["login", r.user, r.pin]
    case RegisterRpc(r) => words == ["register", r.user, r.pin]
    case TxRpc(c) =>
      && |words| == 6 && words[0] == "tx" && words[2..5] == [c.src, c.dest, c.kind]
      && Atoi(words[1], wild) == c.token && Atoi(words[5], wild) == c.amount
  }

  predicate WrittenAs(line: string, words: seq<string>, extra: seq<string>, gaps: seq<nat>) {
    Spaced(words + extra, gaps) && line == Layout(words + extra, gaps)
  }

  /** The number of words a command needs. */
  function Arity(rpc: Rpc): nat {
    if rpc.TxRpc? then 6 else 3
  }

  lemma ParseReadsFront(words: seq<string>, rpc: Rpc, wild: string -> int32)
    ensures Parse(words, wild) == Do(rpc) <==>
      |words| >= Arity(rpc) && Spells(words[..Arity(rpc)], rpc, wild)
  {
    hide Atoi;
    if rpc.TxRpc? && |words| >= 6 {
      assert words[..6][2..5] == [words[2], words[3], words[4]];
    } else if !rpc.TxRpc? && |words| >= 3 {
      assert words[..3] == [words[0], words[1], words[2]];
    }
  }

  /** A line issues a command exactly if it is laid out from words that spell it, and any further ones. */
  lemma CommandExactlyWhen(line: string, rpc: Rpc, wild: string -> int32)
    ensures RequestOf(line, wild) == Do(rpc) <==>
      exists words, extra, gaps :: WrittenAs(line, words, extra, gaps) && Spells(words, rpc, wild)
  {
    var n := Arity(rpc);
    if RequestOf(line, wild) == Do(rpc) {
      ParseReadsFront(Split(line), rpc, wild);
      LineIsLayoutOfSplit(line);
      hide Parse, Split, Spells, Spaced, Layout;
      var words, extra := Split(line)[..n], Split(line)[n..];
      assert words + extra == Split(line);
      assert WrittenAs(line, words, extra, Gaps(line));
    }
    if words, extra, gaps :| WrittenAs(line, words, extra, gaps) && Spells(words, rpc, wild) {
      assert |words| == n;
      hide Parse, Split, Spells, Spaced, Layout;
      SplitUndoesLayout(words + extra, gaps);
      assert (words + extra)[..n] == words;
      ParseReadsFront(words + extra, rpc, wild);
    }
  }

  /** Which word becomes which argument. */
  lemma ArgumentsInOrder(line: string, wild: string -> int32)
    ensures var (words, q) := (Split(line), RequestOf(line, wild));
      && (|words| >= 3 && words[0] == "login" ==> q == Do(LoginRpc(UserRecord(words[1], words[2]))))
      && (|words| >= 3 && words[0] == "register" ==> q == Do(RegisterRpc(UserRecord(words[1], words[2]))))
      && (|words| >= 6 && words[0] == "tx" ==>
            q == Do(TxRpc(Call(Atoi(words[1], wild), words[2], words[3], words[4], Atoi(words[5], wild)))))
  {
    hide Split, Atoi;
  }

  // --- The replies -----------------------------------------------------------------------------

  /** The reply to a login: the number the AuthServer answers. */
  lemma LoginIsAnswered(s: Sys, line: string, r: UserRecord, wild: string -> int32)
    requires RequestOf(line, wild) == Do(LoginRpc(r)) && Admits(s, LoginRpc(r))
    ensures ReplyTo(s, line, wild) == "LOGIN_RESULT: " + Itoa(LoginReply(s.auth, r))
  {
    hide RequestOf, Itoa, LoginReply;
    AmountLength(LoginReply(s.auth, r));
  }

  /** The reply to a registration: 0 if there was room, and then the pair is in the table; else -1. */
  lemma RegistrationIsAnsweredInText(s: Sys, line: string, r: UserRecord, wild: string -> int32)
    requires RequestOf(line, wild) == Do(RegisterRpc(r)) && Admits(s, RegisterRpc(r))
    ensures |s.auth.users| < 50 ==>
      && ReplyTo(s, line, wild) == "REGISTER_RESULT: 0"
      && Serve(s, line, wild) == s.(auth := s.auth.(users := s.auth.users + [r]))
    ensures |s.auth.users| >= 50 ==> ReplyTo(s, line, wild) == "REGISTER_RESULT: -1" && Serve(s, line, wild) == s
  {
    hide RequestOf, Itoa;
    PrintedNumbers();
  }

  /**
    The reply to a transaction: 0 if it was approved, -1 if not, and then no account changed.
    Approved and blocked transactions are logged as what they are, others leave no trace.
  */
  lemma TransactionIsAnswered(s: Sys, line: string, c: Call, wild: string -> int32)
    requires RequestOf(line, wild) == Do(TxRpc(c)) && Admits(s, TxRpc(c))
    ensures s.db.isOpen && c.token >= 1000 && NamesUser(s.db.keyColumn) ==>
      ReplyTo(s, line, wild) == "TX_RESULT: 0"
    ensures !s.db.isOpen || c.token < 1000 || !NamesUser(s.db.keyColumn) ==>
      ReplyTo(s, line, wild) == "TX_RESULT: -1" && Serve(s, line, wild).db.accounts == s.db.accounts
    ensures Serve(s, line, wild).auth == s.auth
    ensures Serve(s, line, wild).db.log == s.db.log +
      if !s.db.isOpen then []
      else if c.token < 1000 then
        [Entry(|s.db.log| + 1, c.src, c.dest, c.kind, c.amount, BlockedInvalidCapability)]
      else if !NamesUser(s.db.keyColumn) then []
      else [Entry(|s.db.log| + 1, c.src, c.dest, c.kind, c.amount, Approved)]
  {
    hide RequestOf, Itoa, Expressible, NamesUser;
    PrintedNumbers();
  }

  /** The replies to lines that issue no command; such lines change nothing. */
  lemma ErrorsAreAnswered(s: Sys, line: string, wild: string -> int32)
    requires !RequestOf(line, wild).Do?
    ensures Serve(s, line, wild) == s
    ensures var (words, reply) := (Split(line), ReplyTo(s, line, wild));
      && (words == [] ==> reply == "ERROR: Empty command")
      && (words != [] && words[0] == "login" ==> |words| < 3 && reply == "ERROR: Usage: login <user> <pin>")
      && (words != [] && words[0] == "register" ==>
            |words| < 3 && reply == "ERROR: Usage: register <user> <pin>")
      && (words != [] && words[0] == "tx" ==>
            |words| < 6 && reply == "ERROR: Usage: tx <token> <src> <dest> <type> <amt>")
      && (words != [] && words[0] !in {"login", "register", "tx"} ==>
            var text := "ERROR: Unknown command: " + words[0];
            reply <= text && |reply| == if |text| <= 511 then |text| else 511)
  {
    hide Split, Atoi;
  }

  /** A tx line whose token has no digit is blocked, and changes no account. */
  lemma TokenWithoutDigitsIsBlocked(s: Sys, line: string, wild: string -> int32)
    requires var words := Split(line);
      |words| >= 6 && words[0] == "tx" && forall c :: c in words[1] ==> !('0' <= c <= '9')
    requires Serviceable(s, RequestOf(line, wild))
    ensures ReplyTo(s, line, wild) == "TX_RESULT: -1" && Serve(s, line, wild).db.accounts == s.db.accounts
  {
    AtoiWithoutDigits(Split(line)[1], wild);
    var q := RequestOf(line, wild);
    assert q.Do? && q.rpc.TxRpc? && q.rpc.c.token == 0 by {
      hide Split, Atoi;
    }
    hide Split, Atoi, RequestOf;
    TransactionIsAnswered(s, line, q.rpc.c, wild);
  }

  // --- Any sequence of lines -------------------------------------------------------------------

  /** Each line asks for something the component it goes to is ready for. */
  predicate Runs(s: Sys, lines: seq<string>, wild: string -> int32)
    decreases |lines|, 0
  {
    lines == [] ||
    (var n := |lines| - 1;
     && Runs(s, lines[..n], wild)
     && Serviceable(ServeAll(s, lines[..n], wild), RequestOf(lines[n], wild)))
  }

  function ServeAll(s: Sys, lines: seq<string>, wild: string -> int32): Sys
    requires Runs(s, lines, wild)
    decreases |lines|, 1
  {
    if lines == [] then s
    else Serve(ServeAll(s, lines[..|lines| - 1], wild), lines[|lines| - 1], wild)
  }

  /** The transactions the lines ask for, in order. */
  function Calls(lines: seq<string>, wild: string -> int32): seq<Call> {
    if lines == [] then []
    else
      var q := RequestOf(lines[|lines| - 1], wild);
      Calls(lines[..|lines| - 1], wild) + (if q.Do? && q.rpc.TxRpc? then [q.rpc.c] else [])
  }

  /** The registrations and logins they ask for, in order. */
  function Ops(lines: seq<string>, wild: string -> int32): seq<Op> {
    if lines == [] then []
    else
      var q := RequestOf(lines[|lines| - 1], wild);
      Ops(lines[..|lines| - 1], wild) +
      (if q.Do? && q.rpc.LoginRpc? then [Log(q.rpc.r)]
       else if q.Do? && q.rpc.RegisterRpc? then [Reg(q.rpc.r)]
       else [])
  }

  function Boot(isOpen: bool, keyColumn: string): Sys {
    Sys(FRESH, Db(isOpen, keyColumn, [], []))
  }

  lemma PerformAllExtends(db: Db, calls: seq<Call>, c: Call)
    requires AllExpressible(db, calls) && Expressible(db, c)
    ensures AllExpressible(db, calls + [c]) && Expressible(PerformAll(db, calls), c)
    ensures PerformAll(db, calls + [c]) == Perform(PerformAll(db, calls), c)
  {
    assert (calls + [c])[..|calls|] == calls;
    StaysExpressible(db, PerformAll(db, calls), c);
  }

  lemma AfterExtends(ops: seq<Op>, op: Op)
    requires ReadyAll(ops) && Ready(After(ops), op)
    ensures ReadyAll(ops + [op]) && After(ops + [op]) == Auth.Step(After(ops), op)
  {
    assert (ops + [op])[..|ops|] == ops;
  }

  /** The ledger sees exactly the transactions of the lines, the AuthServer exactly the rest. */
  lemma {:induction false} ComponentsSeeTheirCommands(isOpen: bool, keyColumn: string, lines: seq<string>,
                                                      wild: string -> int32)
    requires Runs(Boot(isOpen, keyColumn), lines, wild)
    ensures AllExpressible(Boot(isOpen, keyColumn).db, Calls(lines, wild)) && ReadyAll(Ops(lines, wild))
    ensures var s := ServeAll(Boot(isOpen, keyColumn), lines, wild);
      && s.db == PerformAll(Boot(isOpen, keyColumn).db, Calls(lines, wild))
      && s.auth == After(Ops(lines, wild))
  {
    if lines != [] {
      hide RequestOf, PerformAll, Perform, Expressible, After, Register, Login, AllExpressible, ReadyAll;
      var before := lines[..|lines| - 1];
      ComponentsSeeTheirCommands(isOpen, keyColumn, before, wild);
      var s, q := ServeAll(Boot(isOpen, keyColumn), before, wild), RequestOf(lines[|lines| - 1], wild);
      var cs, os, db := Calls(before, wild), Ops(before, wild), Boot(isOpen, keyColumn).db;
      assert cs + [] == cs && os + [] == os;
      if q.Do? {
        match q.rpc {
          case LoginRpc(r) => AfterExtends(os, Log(r));
          case RegisterRpc(r) => AfterExtends(os, Reg(r));
          case TxRpc(c) =>
            StaysExpressible(s.db, db, c);
            PerformAllExtends(db, cs, c);
        }
      }
    }
  }

  /**
    After any lines the components are ready for, the log alone explains the accounts, keys are
    unique, and the money in the accounts is the approved deposits less the approved withdrawals.
  */
  lemma BooksBalanceAfterLines(isOpen: bool, keyColumn: string, lines: seq<string>, wild: string -> int32)
    requires Runs(Boot(isOpen, keyColumn), lines, wild)
    ensures var db := ServeAll(Boot(isOpen, keyColumn), lines, wild).db;
      && db.accounts == Statement(db.log)
      && Unique(Users(db.accounts)) && Total(db.accounts) == External(db.log)
  {
    ComponentsSeeTheirCommands(isOpen, keyColumn, lines, wild);
    var start := Boot(isOpen, keyColumn).db;
    assert Statement([]) == [];
    LogDeterminesAccounts(start, Calls(lines, wild));
    MoneyIsConserved(isOpen, keyColumn, Calls(lines, wild));
  }

  /** The calls that clear the token gate. */
  function Cleared(calls: seq<Call>): seq<Call> {
    if calls == [] then []
    else Cleared(calls[..|calls| - 1]) +
         (if calls[|calls| - 1].token >= 1000 then [calls[|calls| - 1]] else [])
  }

  function ApprovedOf(log: seq<Entry>): seq<Entry> {
    if log == [] then []
    else ApprovedOf(log[..|log| - 1]) + (if log[|log| - 1].status.Approved? then [log[|log| - 1]] else [])
  }

  /** The entry carries the call's parties, type and amount. */
  predicate Carries(e: Entry, c: Call) {
    e.src == c.src && e.dest == c.dest && e.kind == c.kind && e.amount == c.amount
  }

  predicate CarryAll(es: seq<Entry>, cs: seq<Call>) {
    |es| == |cs| && forall i :: 0 <= i < |es| ==> Carries(es[i], cs[i])
  }

  lemma LogAfter(db: Db, c: Call)
    requires Expressible(db, c) && db.isOpen && NamesUser(db.keyColumn)
    ensures Perform(db, c).log == db.log + [EntryOf(db, c)] && Carries(EntryOf(db, c), c)
    ensures EntryOf(db, c).status.Approved? <==> c.token >= 1000
  {
  }

  lemma OneMore(es: seq<Entry>, cs: seq<Call>, e: Entry, c: Call)
    requires CarryAll(es, cs) && Carries(e, c)
    ensures CarryAll(es + [e], cs + [c]) && es + [] == es && cs + [] == cs
  {
  }

  lemma ApprovedExtends(log: seq<Entry>, e: Entry)
    ensures ApprovedOf(log + [e]) == ApprovedOf(log) + (if e.status.Approved? then [e] else [])
  {
    assert (log + [e])[..|log|] == log;
  }

  lemma {:induction false} ApprovalsMatchClearedCalls(db: Db, calls: seq<Call>)
    requires db.isOpen && NamesUser(db.keyColumn) && db.log == [] && AllExpressible(db, calls)
    ensures CarryAll(ApprovedOf(PerformAll(db, calls).log), Cleared(calls))
  {
    if calls != [] {
      var n := |calls| - 1;
      var before, c := PerformAll(db, calls[..n]), calls[n];
      ApprovalsMatchClearedCalls(db, calls[..n]);
      StaysExpressible(db, before, c);
      ApprovedExtends(before.log, EntryOf(before, c));
      LogAfter(before, c);
      hide Expressible, ApprovedOf, Perform, CarryAll, NamesUser;
      OneMore(ApprovedOf(before.log), Cleared(calls[..n]), EntryOf(before, c), c);
    }
  }

  /**
    Every approved entry, and so every account change, comes from exactly one tx line whose token
    parses to at least 1000: in order, the approved entries are those lines' transactions.
  */
  lemma AccountChangesTraceToLines(keyColumn: string, lines: seq<string>, wild: string -> int32)
    requires NamesUser(keyColumn)
    requires Runs(Boot(true, keyColumn), lines, wild)
    ensures var db := ServeAll(Boot(true, keyColumn), lines, wild).db;
      && db.accounts == Replay(db.log)
      && CarryAll(ApprovedOf(db.log), Cleared(Calls(lines, wild)))
  {
    ComponentsSeeTheirCommands(true, keyColumn, lines, wild);
    BooksBalanceAfterLines(true, keyColumn, lines, wild);
    ReplayGivesStatement(ServeAll(Boot(true, keyColumn), lines, wild).db.log);
    ApprovalsMatchClearedCalls(Boot(true, keyColumn).db, Calls(lines, wild));
  }

  /** One line changes the accounts only if it is a tx line with such a token. */
  lemma OnlyClearedLinesTouchAccounts(s: Sys, line: string, wild: string -> int32)
    requires Serviceable(s, RequestOf(line, wild)) && Serve(s, line, wild).db.accounts != s.db.accounts
    ensures var q := RequestOf(line, wild);
      && q.Do? && q.rpc.TxRpc? && q.rpc.c.token >= 1000
      && Serve(s, line, wild).db.log == s.db.log + [EntryOf(s.db, q.rpc.c)]
      && ReplyTo(s, line, wild) == "TX_RESULT: 0"
  {
    hide RequestOf;
    assert Itoa(0) == "0";
  }

  // --- Tokens ----------------------------------------------------------------------------------

  /** The tokens the login lines of a run were answered with, in order. */
  function Tokens(s: Sys, lines: seq<string>, wild: string -> int32): seq<int32>
    requires Runs(s, lines, wild)
  {
    if lines == [] then []
    else
      var n := |lines| - 1;
      var before, q := ServeAll(s, lines[..n], wild), RequestOf(lines[n], wild);
      Tokens(s, lines[..n], wild) +
      (if q.Do? && q.rpc.LoginRpc? && LoginReply(before.auth, q.rpc.r) != -1
       then [LoginReply(before.auth, q.rpc.r)] else [])
  }

  lemma IssuedExtends(ops: seq<Op>, op: Op)
    requires ReadyAll(ops) && Ready(After(ops), op)
    ensures ReadyAll(ops + [op])
    ensures Issued(ops + [op]) == Issued(ops) +
      (if op.Log? && LoginReply(After(ops), op.r) != -1 then [LoginReply(After(ops), op.r)] else [])
  {
    assert (ops + [op])[..|ops|] == ops;
  }

  lemma {:induction false} TokensAreIssued(isOpen: bool, keyColumn: string, lines: seq<string>,
                                           wild: string -> int32)
    requires Runs(Boot(isOpen, keyColumn), lines, wild)
    ensures ReadyAll(Ops(lines, wild)) && Tokens(Boot(isOpen, keyColumn), lines, wild) == Issued(Ops(lines, wild))
  {
    ComponentsSeeTheirCommands(isOpen, keyColumn, lines, wild);
    if lines != [] {
      var before := lines[..|lines| - 1];
      ComponentsSeeTheirCommands(isOpen, keyColumn, before, wild);
      TokensAreIssued(isOpen, keyColumn, before, wild);
      hide RequestOf, Issued, After, ReadyAll, Expressible, AllExpressible, PerformAll, Calls;
      var q, os := RequestOf(lines[|lines| - 1], wild), Ops(before, wild);
      assert os + [] == os;
      if q.Do? {
        match q.rpc {
          case LoginRpc(r) => IssuedExtends(os, Log(r));
          case RegisterRpc(r) => IssuedExtends(os, Reg(r));
          case TxRpc(_) =>
        }
      }
    }
  }

  /** They are 1001, 1002, 1003, ... */
  lemma TokensAreNumbered(isOpen: bool, keyColumn: string, lines: seq<string>, wild: string -> int32)
    requires Runs(Boot(isOpen, keyColumn), lines, wild)
    ensures var (s, tokens) :=
        (ServeAll(Boot(isOpen, keyColumn), lines, wild), Tokens(Boot(isOpen, keyColumn), lines, wild));
      s.auth.nextTokenId == 1000 + |tokens| && forall i :: 0 <= i < |tokens| ==> tokens[i] == 1001 + i
  {
    hide RequestOf, Issued, After, ReadyAll, Expressible, AllExpressible, PerformAll, Calls, Ops;
    ComponentsSeeTheirCommands(isOpen, keyColumn, lines, wild);
    TokensAreIssued(isOpen, keyColumn, lines, wild);
    TokensCountUp(Ops(lines, wild));
  }

  lemma TokensExtend(s: Sys, lines: seq<string>, line: string, r: UserRecord, wild: string -> int32)
    requires Runs(s, lines, wild) && RequestOf(line, wild) == Do(LoginRpc(r))
    requires Admits(ServeAll(s, lines, wild), LoginRpc(r))
    ensures Runs(s, lines + [line], wild)
    ensures var reply := LoginReply(ServeAll(s, lines, wild).auth, r);
      && Tokens(s, lines + [line], wild) == Tokens(s, lines, wild) + (if reply != -1 then [reply] else [])
      && ReplyTo(ServeAll(s, lines, wild), line, wild) == "LOGIN_RESULT: " + Itoa(reply)
  {
    LoginIsAnswered(ServeAll(s, lines, wild), line, r, wild);
    assert (lines + [line])[..|lines|] == lines;
    hide RequestOf, Itoa, Clip, LoginReply;
  }

  /** What a login line is answered with: the next token, or -1. */
  lemma LoginLineRepliesItsToken(isOpen: bool, keyColumn: string, lines: seq<string>, line: string,
                                 r: UserRecord, wild: string -> int32)
    requires Runs(Boot(isOpen, keyColumn), lines, wild) && RequestOf(line, wild) == Do(LoginRpc(r))
    requires Admits(ServeAll(Boot(isOpen, keyColumn), lines, wild), LoginRpc(r))
    ensures Runs(Boot(isOpen, keyColumn), lines + [line], wild)
    ensures var s := ServeAll(Boot(isOpen, keyColumn), lines, wild);
      var before := Tokens(Boot(isOpen, keyColumn), lines, wild);
      var after := Tokens(Boot(isOpen, keyColumn), lines + [line], wild);
      && (r in s.auth.users ==>
            after == before + [1001 + |before|] &&
            ReplyTo(s, line, wild) == "LOGIN_RESULT: " + Itoa(1001 + |before|))
      && (r !in s.auth.users ==> after == before && ReplyTo(s, line, wild) == "LOGIN_RESULT: -1")
  {
    hide Runs, ServeAll, ReplyTo, Tokens, RequestOf, Itoa, Clip, Boot;
    TokensAreNumbered(isOpen, keyColumn, lines, wild);
    TokensExtend(Boot(isOpen, keyColumn), lines, line, r, wild);
    PrintedNumbers();
  }

  /** The line that uses a token: tx <token> <src> <dest> <type> <amount>. */
  function TxLine(c: Call): string {
    Layout(["tx", Itoa(c.token), c.src, c.dest, c.kind, Itoa(c.amount)], TIGHT)
  }

  /** One space between the fields, none around them. */
  const TIGHT: seq<nat> := [0, 1, 1, 1, 1, 1, 0]

  lemma TxLineIsServed(s: Sys, c: Call, wild: string -> int32)
    requires Word(c.src) && Word(c.dest) && Word(c.kind)
    ensures RequestOf(TxLine(c), wild) == Do(TxRpc(c))
    ensures Expressible(s.db, c) ==>
      && Serve(s, TxLine(c), wild) == Execute(s, TxRpc(c))
      && ReplyTo(s, TxLine(c), wild) == Clip(Result(s, TxRpc(c)))
  {
    assert WordsOf(TxRpc(c)) + [] == ["tx", Itoa(c.token), c.src, c.dest, c.kind, Itoa(c.amount)];
    hide Layout, Serve, ReplyTo, Result, Execute, RequestOf, Expressible;
    CommandRoundTrip(s, TxRpc(c), [], TIGHT, wild);
  }

  lemma ClearedCallIsApproved(s: Sys, c: Call)
    requires s.db.isOpen && NamesUser(s.db.keyColumn) && c.token >= 1000 && Expressible(s.db, c)
    ensures Clip(Result(s, TxRpc(c))) == "TX_RESULT: 0"
    ensures Execute(s, TxRpc(c)).db.log ==
      s.db.log + [Entry(|s.db.log| + 1, c.src, c.dest, c.kind, c.amount, Approved)]
  {
    assert Itoa(0) == "0";
  }

  /** A tx line with a token of at least 1000 is approved and logged as it stands. */
  lemma ClearedTxLine(s: Sys, c: Call, wild: string -> int32)
    requires s.db.isOpen && NamesUser(s.db.keyColumn) && c.token >= 1000 && Expressible(s.db, c)
    requires Word(c.src) && Word(c.dest) && Word(c.kind)
    ensures RequestOf(TxLine(c), wild) == Do(TxRpc(c)) && ReplyTo(s, TxLine(c), wild) == "TX_RESULT: 0"
    ensures Serve(s, TxLine(c), wild).db.log ==
      s.db.log + [Entry(|s.db.log| + 1, c.src, c.dest, c.kind, c.amount, Approved)]
  {
    hide TxLine, Serve, ReplyTo, Clip, Result, Execute, Word, RequestOf, Expressible;
    TxLineIsServed(s, c, wild);
    ClearedCallIsApproved(s, c);
  }

  lemma {:induction false} SchemaStays(s: Sys, lines: seq<string>, wild: string -> int32)
    requires Runs(s, lines, wild)
    ensures var db := ServeAll(s, lines, wild).db; db.isOpen == s.db.isOpen && db.keyColumn == s.db.keyColumn
  {
    if lines != [] {
      hide RequestOf, Expressible;
      SchemaStays(s, lines[..|lines| - 1], wild);
    }
  }

  /**
    Tokens work.  Whatever token any login line of a run was answered with, printed in a tx line
    after any further lines it is read back as the same number and clears the gate, and the
    transaction is approved.
  */
  lemma IssuedTokensClearTheGate(keyColumn: string, lines: seq<string>, later: seq<string>, i: nat, c: Call,
                                 wild: string -> int32)
    requires NamesUser(keyColumn)
    requires Runs(Boot(true, keyColumn), lines, wild)
    requires Runs(ServeAll(Boot(true, keyColumn), lines, wild), later, wild)
    requires i < |Tokens(Boot(true, keyColumn), lines, wild)|
    requires c.token == Tokens(Boot(true, keyColumn), lines, wild)[i]
    requires Word(c.src) && Word(c.dest) && Word(c.kind)
    requires Expressible(ServeAll(ServeAll(Boot(true, keyColumn), lines, wild), later, wild).db, c)
    ensures RequestOf(TxLine(c), wild) == Do(TxRpc(c))
    ensures var s := ServeAll(ServeAll(Boot(true, keyColumn), lines, wild), later, wild);
      && ReplyTo(s, TxLine(c), wild) == "TX_RESULT: 0"
      && Serve(s, TxLine(c), wild).db.log ==
           s.db.log + [Entry(|s.db.log| + 1, c.src, c.dest, c.kind, c.amount, Approved)]
  {
    TokensAreNumbered(true, keyColumn, lines, wild);
    SchemaStays(Boot(true, keyColumn), lines, wild);
    SchemaStays(ServeAll(Boot(true, keyColumn), lines, wild), later, wild);
    hide TxLine, Serve, ServeAll, Runs, ReplyTo, Word, Expressible, Tokens, RequestOf;
    ClearedTxLine(ServeAll(ServeAll(Boot(true, keyColumn), lines, wild), later, wild), c, wild);
  }
}
