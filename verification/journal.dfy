/** What the transaction log says about the accounts, after any sequence of calls. */
module Journal {
  import opened Sql
  import opened Accounts

  // --- The log as the definition of the accounts -----------------------------------------------

  /** A user's balance according to the log: approved income minus approved outgoings. */
  function Net(log: seq<Entry>, user: string): int {
    if log == [] then 0
    else
      var n := |log| - 1;
      Net(log[..n], user) + (if log[n].status.Approved? then Effect(log[n], user) else 0)
  }

  function Joined(users: seq<string>, user: string): seq<string> {
    if user in users then users else users + [user]
  }

  /** Everyone named by an approved entry, in order of first appearance. */
  function Parties(log: seq<Entry>): seq<string> {
    if log == [] then []
    else
      var n := |log| - 1;
      if log[n].status.Approved? then Joined(Joined(Parties(log[..n]), log[n].src), log[n].dest)
      else Parties(log[..n])
  }

  /** The accounts table the log implies. */
  function Statement(log: seq<Entry>): (r: seq<Account>)
    ensures |r| == |Parties(log)|
  {
    seq(|Parties(log)|, i requires 0 <= i < |Parties(log)| =>
      Account(Parties(log)[i], Net(log, Parties(log)[i])))
  }

  function Users(rows: seq<Account>): (r: seq<string>)
    ensures |r| == |rows|
  {
    seq(|rows|, i requires 0 <= i < |rows| => rows[i].user)
  }

  lemma HasUserIsMembership(rows: seq<Account>, user: string)
    ensures HasUser(rows, user) <==> user in Users(rows)
  {
    if HasUser(rows, user) {
      var i :| 0 <= i < |rows| && rows[i].user == user;
      assert Users(rows)[i] == user;
    }
    if user in Users(rows) {
      var i :| 0 <= i < |rows| && Users(rows)[i] == user;
      assert rows[i].user == user;
    }
  }

  lemma EnsureUsers(rows: seq<Account>, user: string)
    ensures Users(Ensure(rows, user)) == Joined(Users(rows), user)
  {
    HasUserIsMembership(rows, user);
  }

  /** Whoever the log does not name has nothing. */
  lemma {:induction false} StrangersHaveNothing(log: seq<Entry>, user: string)
    requires user !in Parties(log)
    ensures Net(log, user) == 0
  {
    if log != [] {
      var n := |log| - 1;
      StrangersHaveNothing(log[..n], user);
    }
  }

  predicate Agrees(rows: seq<Account>, log: seq<Entry>) {
    forall i :: 0 <= i < |rows| ==> rows[i].balance == Net(log, rows[i].user)
  }

  lemma EnsureAgrees(rows: seq<Account>, log: seq<Entry>, user: string)
    requires Agrees(rows, log) && (user !in Users(rows) ==> Net(log, user) == 0)
    ensures Agrees(Ensure(rows, user), log)
  {
    HasUserIsMembership(rows, user);
  }

  lemma StatementIsAgreement(rows: seq<Account>, log: seq<Entry>)
    ensures rows == Statement(log) <==> Users(rows) == Parties(log) && Agrees(rows, log)
  {
    if rows == Statement(log) {
      assert Users(rows) == Parties(log);
    }
    if Users(rows) == Parties(log) && Agrees(rows, log) {
      forall i | 0 <= i < |rows|
        ensures rows[i] == Statement(log)[i]
      {
        assert Users(rows)[i] == rows[i].user;
      }
    }
  }

  /** Posting an approved entry to the table the log implies gives the table the longer log implies. */
  lemma ApprovedEntryPosts(rows: seq<Account>, log: seq<Entry>, e: Entry)
    requires rows == Statement(log) && e.status.Approved?
    ensures Posted(Ensure(Ensure(rows, e.src), e.dest), e) == Statement(log + [e])
  {
    StatementIsAgreement(rows, log);
    var one, log' := Ensure(rows, e.src), log + [e];
    var both := Ensure(one, e.dest);
    assert log'[..|log|] == log;
    EnsureUsers(rows, e.src);
    EnsureUsers(one, e.dest);
    if e.src !in Users(rows) {
      StrangersHaveNothing(log, e.src);
    }
    if e.dest !in Users(one) {
      StrangersHaveNothing(log, e.dest);
    }
    EnsureAgrees(rows, log, e.src);
    EnsureAgrees(one, log, e.dest);
    var posted := Posted(both, e);
    assert Users(posted) == Users(both) == Parties(log');
    assert Agrees(posted, log');
    StatementIsAgreement(posted, log');
  }

  /** Folding the approved entries, in id order, from an empty table. */
  function Replay(log: seq<Entry>): seq<Account> {
    if log == [] then []
    else
      var n, rows := |log| - 1, Replay(log[..|log| - 1]);
      if log[n].status.Approved? then Posted(Ensure(Ensure(rows, log[n].src), log[n].dest), log[n])
      else rows
  }

  lemma {:induction false} ReplayGivesStatement(log: seq<Entry>)
    ensures Replay(log) == Statement(log)
  {
    if log != [] {
      var before, e := log[..|log| - 1], log[|log| - 1];
      assert log == before + [e];
      ReplayGivesStatement(before);
      if e.status.Approved? {
        ApprovedEntryPosts(Statement(before), before, e);
      } else {
        BlockedEntryIsSilent(before, e);
      }
    }
  }

  lemma BlockedEntryIsSilent(log: seq<Entry>, e: Entry)
    requires !e.status.Approved?
    ensures Statement(log + [e]) == Statement(log)
  {
    var log' := log + [e];
    assert log'[..|log|] == log;
    forall i | 0 <= i < |Parties(log)|
      ensures Statement(log')[i] == Statement(log)[i]
    {
      assert Net(log', Parties(log)[i]) == Net(log, Parties(log)[i]);
    }
  }

  /** The books are in order: the log alone determines the accounts, and its ids count up from 1. */
  predicate InOrder(db: Db) {
    db.accounts == Statement(db.log) && forall i :: 0 <= i < |db.log| ==> db.log[i].id == i + 1
  }

  lemma PerformKeepsBooks(db: Db, c: Call)
    requires InOrder(db) && Expressible(db, c)
    ensures InOrder(Perform(db, c))
  {
    var e := EntryOf(db, c);
    if c.token < 1000 {
      BlockedEntryIsSilent(db.log, e);
    } else {
      ApprovedEntryPosts(db.accounts, db.log, e);
    }
  }

  /**
    Journal replay.  After any sequence of calls that can be put into SQL, whatever their tokens,
    types and amounts and whatever the schema, the accounts table is exactly what the approved log entries imply.
  */
  lemma {:induction false} LogDeterminesAccounts(db: Db, calls: seq<Call>)
    requires InOrder(db) && AllExpressible(db, calls)
    ensures InOrder(PerformAll(db, calls))
  {
    if calls != [] {
      hide Expressible, InOrder, Perform;
      var n := |calls| - 1;
      LogDeterminesAccounts(db, calls[..n]);
      StaysExpressible(db, PerformAll(db, calls[..n]), calls[n]);
      PerformKeepsBooks(PerformAll(db, calls[..n]), calls[n]);
    }
  }

  // --- Unique keys and conservation ------------------------------------------------------------

  predicate Unique(users: seq<string>) {
    forall i, j :: 0 <= i < j < |users| ==> users[i] != users[j]
  }

  lemma {:induction false} PartiesAreUnique(log: seq<Entry>)
    ensures Unique(Parties(log))
  {
    if log != [] {
      PartiesAreUnique(log[..|log| - 1]);
    }
  }

  function Total(rows: seq<Account>): int {
    if rows == [] then 0 else Total(rows[..|rows| - 1]) + rows[|rows| - 1].balance
  }

  /** What came in from outside minus what went out, over the approved entries. */
  function External(log: seq<Entry>): int {
    if log == [] then 0
    else
      var n, e := |log| - 1, log[|log| - 1];
      External(log[..n]) +
      (if e.status.Approved? && e.kind == "DEPOSIT" then e.amount
       else if e.status.Approved? && e.kind == "WITHDRAWAL" then 0 - e.amount
       else 0)
  }

  function Matches(rows: seq<Account>, user: string): nat {
    if rows == [] then 0
    else Matches(rows[..|rows| - 1], user) + (if rows[|rows| - 1].user == user then 1 else 0)
  }

  /** An UPDATE adds its delta once for every row it matches. */
  lemma {:induction false} UpdateTotal(rows: seq<Account>, user: string, delta: int)
    ensures Total(AddTo(rows, user, delta)) == Total(rows) + delta * Matches(rows, user)
  {
    if rows != [] {
      var n := |rows| - 1;
      UpdateTotal(rows[..n], user, delta);
      assert AddTo(rows, user, delta)[..n] == AddTo(rows[..n], user, delta);
    }
  }

  /** With unique keys it matches one row, if the user has an account, and none otherwise. */
  lemma {:induction false} UniqueMatch(rows: seq<Account>, user: string)
    requires Unique(Users(rows))
    ensures Matches(rows, user) == (if HasUser(rows, user) then 1 else 0)
  {
    if rows != [] {
      var n := |rows| - 1;
      assert Users(rows)[..n] == Users(rows[..n]);
      UniqueMatch(rows[..n], user);
      if rows[n].user == user {
        forall i | 0 <= i < n
          ensures rows[..n][i].user != user
        {
          assert Users(rows)[i] != Users(rows)[n];
        }
        assert rows[n].user == user;
      } else if HasUser(rows, user) {
        var i :| 0 <= i < |rows| && rows[i].user == user;
        assert rows[..n][i].user == user;
      } else {
        assert forall i :: 0 <= i < n ==> rows[..n][i] == rows[i];
      }
    }
  }

  lemma EnsureTotal(rows: seq<Account>, user: string)
    ensures Total(Ensure(rows, user)) == Total(rows)
  {
    assert (rows + [Account(user, 0)])[..|rows|] == rows;
  }

  lemma AddToUsers(rows: seq<Account>, user: string, delta: int)
    ensures Users(AddTo(rows, user, delta)) == Users(rows)
    ensures HasUser(AddTo(rows, user, delta), user) <==> HasUser(rows, user)
  {
    HasUserIsMembership(rows, user);
    HasUserIsMembership(AddTo(rows, user, delta), user);
  }

  /** Posting an entry between account holders changes the total by what came from outside. */
  lemma PostedTotal(rows: seq<Account>, e: Entry)
    requires Unique(Users(rows)) && HasUser(rows, e.src) && HasUser(rows, e.dest)
    ensures Total(Posted(rows, e)) == Total(rows) +
      (if e.kind == "DEPOSIT" then e.amount else if e.kind == "WITHDRAWAL" then 0 - e.amount else 0)
  {
    RulePosts(rows, e);
    UniqueMatch(rows, e.src);
    UniqueMatch(rows, e.dest);
    UpdateTotal(rows, e.src, 0 - e.amount);
    UpdateTotal(rows, e.dest, e.amount);
    var debited := AddTo(rows, e.src, 0 - e.amount);
    AddToUsers(rows, e.src, 0 - e.amount);
    HasUserIsMembership(rows, e.dest);
    HasUserIsMembership(debited, e.dest);
    UniqueMatch(debited, e.dest);
    UpdateTotal(debited, e.dest, e.amount);
  }

  lemma {:induction false} TotalIsExternal(log: seq<Entry>)
    ensures Total(Statement(log)) == External(log)
  {
    if log != [] {
      var n := |log| - 1;
      var before, e := log[..n], log[n];
      assert log == before + [e];
      TotalIsExternal(before);
      var rows := Statement(before);
      if e.status.Approved? {
        ApprovedEntryPosts(rows, before, e);
        var one := Ensure(rows, e.src);
        var both := Ensure(one, e.dest);
        StatementIsAgreement(rows, before);
        EnsureUsers(rows, e.src);
        EnsureUsers(one, e.dest);
        PartiesAreUnique(log);
        EnsureTotal(rows, e.src);
        EnsureTotal(one, e.dest);
        EnsureKeeps(one, e.src, e.dest);
        PostedTotal(both, e);
      } else {
        BlockedEntryIsSilent(before, e);
      }
    }
  }

  /**
    Conservation of money.  After any sequence of calls the keys are unique and the balances add
    up to approved deposits minus approved withdrawals; transfers, to oneself or of a negative
    amount included, leave the sum alone.
  */
  lemma MoneyIsConserved(isOpen: bool, keyColumn: string, calls: seq<Call>)
    requires AllExpressible(Db(isOpen, keyColumn, [], []), calls)
    ensures var db := PerformAll(Db(isOpen, keyColumn, [], []), calls);
      Unique(Users(db.accounts)) && Total(db.accounts) == External(db.log)
  {
    var start := Db(isOpen, keyColumn, [], []);
    assert Statement([]) == [];
    LogDeterminesAccounts(start, calls);
    var db := PerformAll(start, calls);
    StatementIsAgreement(db.accounts, db.log);
    PartiesAreUnique(db.log);
    TotalIsExternal(db.log);
  }

  // --- One user's money ------------------------------------------------------------------------

  /** What a user has: nothing without an account. */
  function BalanceOf(rows: seq<Account>, user: string): int {
    if rows == [] then 0
    else if rows[|rows| - 1].user == user then rows[|rows| - 1].balance
    else BalanceOf(rows[..|rows| - 1], user)
  }

  lemma {:induction false} NoAccountNoBalance(rows: seq<Account>, user: string)
    requires !HasUser(rows, user)
    ensures BalanceOf(rows, user) == 0
  {
    if rows != [] {
      var n := |rows| - 1;
      assert rows[n].user != user && forall i :: 0 <= i < n ==> rows[..n][i] == rows[i];
      NoAccountNoBalance(rows[..n], user);
    }
  }

  lemma EnsureKeepsBalances(rows: seq<Account>, added: string, user: string)
    ensures BalanceOf(Ensure(rows, added), user) == BalanceOf(rows, user)
    ensures HasUser(rows, user) || user == added ==> HasUser(Ensure(rows, added), user)
  {
    if !HasUser(rows, added) {
      assert (rows + [Account(added, 0)])[..|rows|] == rows;
      if user == added {
        NoAccountNoBalance(rows, user);
      }
    }
    if HasUser(rows, user) {
      EnsureKeeps(rows, user, added);
    }
  }

  lemma {:induction false} PostedMovesBalance(rows: seq<Account>, e: Entry, user: string)
    requires HasUser(rows, user)
    ensures BalanceOf(Posted(rows, e), user) == BalanceOf(rows, user) + Effect(e, user)
  {
    var n := |rows| - 1;
    if rows[n].user != user {
      var i :| 0 <= i < |rows| && rows[i].user == user;
      assert rows[..n][i].user == user;
      assert Posted(rows, e)[..n] == Posted(rows[..n], e);
      PostedMovesBalance(rows[..n], e, user);
    }
  }

  lemma PostedLeavesStrangers(rows: seq<Account>, e: Entry, user: string)
    requires !HasUser(rows, user)
    ensures BalanceOf(Posted(rows, e), user) == BalanceOf(rows, user) == 0
  {
    NoAccountNoBalance(rows, user);
    assert forall i :: 0 <= i < |rows| ==> Posted(rows, e)[i].user == rows[i].user;
    NoAccountNoBalance(Posted(rows, e), user);
  }

  /**
    What an accepted transaction does to each user: a deposit credits dest, a withdrawal debits
    src, a transfer does both, and any other type and anyone else is left alone; src and dest
    have accounts afterwards.
  */
  lemma TransactionMovesMoney(db: Db, c: Call, user: string)
    requires Expressible(db, c) && Reply(db, c) == 0
    ensures var rows := Perform(db, c).accounts;
      && HasUser(rows, c.src) && HasUser(rows, c.dest)
      && BalanceOf(rows, user) == BalanceOf(db.accounts, user)
           + (if (c.kind == "TRANSFER" || c.kind == "DEPOSIT") && user == c.dest then c.amount else 0)
           - (if (c.kind == "TRANSFER" || c.kind == "WITHDRAWAL") && user == c.src then c.amount else 0)
  {
    hide Expressible;
    var one := Ensure(db.accounts, c.src);
    var both := Ensure(one, c.dest);
    var e := EntryOf(db, c);
    EnsureKeepsBalances(db.accounts, c.src, user);
    EnsureKeepsBalances(one, c.dest, user);
    EnsureKeeps(one, c.src, c.dest);
    PostedKeepsUsers(both, e, c.src);
    PostedKeepsUsers(both, e, c.dest);
    if HasUser(both, user) {
      PostedMovesBalance(both, e, user);
    } else {
      PostedLeavesStrangers(both, e, user);
    }
    hide Ensure, Posted, BalanceOf, HasUser;
  }

  lemma PostedKeepsUsers(rows: seq<Account>, e: Entry, user: string)
    requires HasUser(rows, user)
    ensures HasUser(Posted(rows, e), user)
  {
    var i :| 0 <= i < |rows| && rows[i].user == user;
    assert Posted(rows, e)[i].user == user;
  }

  // --- The schema ------------------------------------------------------------------------------

  /** With the key column named as the schema of pre_init has it, no call ever touches an account. */
  lemma {:induction false} MisnamedKeyBlocksEverything(db: Db, calls: seq<Call>)
    requires !NamesUser(db.keyColumn) && db.accounts == [] && AllExpressible(db, calls)
    ensures PerformAll(db, calls).accounts == []
    ensures forall c :: Expressible(db, c) ==> Reply(PerformAll(db, calls), c) == -1
  {
    forall c | Expressible(db, c)
      ensures Expressible(PerformAll(db, calls), c)
    {
      StaysExpressible(db, PerformAll(db, calls), c);
    }
    hide Expressible;
    if calls != [] {
      MisnamedKeyBlocksEverything(db, calls[..|calls| - 1]);
    }
  }

  /** So it is with the column name that pre_init uses. */
  lemma ShippedSchemaBlocksEverything(isOpen: bool, calls: seq<Call>)
    requires AllExpressible(Db(isOpen, "username", [], []), calls)
    ensures var db := Db(isOpen, "username", [], []);
      && PerformAll(db, calls).accounts == []
      && forall c :: Expressible(db, c) ==> Reply(PerformAll(db, calls), c) == -1
  {
    assert |"username"| == 8;
    hide Expressible;
    MisnamedKeyBlocksEverything(Db(isOpen, "username", [], []), calls);
  }

  /** A call is accepted exactly with an open database, a token of at least 1000 and a matching key column. */
  lemma AcceptedExactlyWhen(db: Db, c: Call)
    requires Expressible(db, c)
    ensures Reply(db, c) == 0 <==>
      Perform(db, c).log == db.log + [EntryOf(db, c)] && EntryOf(db, c).status.Approved?
    ensures Reply(db, c) == 0 <==> db.isOpen && c.token >= 1000 && NamesUser(db.keyColumn)
    ensures Reply(db, c) != 0 ==> Reply(db, c) == -1 && Perform(db, c).accounts == db.accounts
  {
    assert |db.log + [EntryOf(db, c)]| == |db.log| + 1;
  }

  // --- No overflow -----------------------------------------------------------------------------

  predicate Within(rows: seq<Account>, bound: int) {
    forall i :: 0 <= i < |rows| ==> -bound <= rows[i].balance <= bound
  }

  function Approvals(log: seq<Entry>): nat {
    if log == [] then 0
    else Approvals(log[..|log| - 1]) + (if log[|log| - 1].status.Approved? then 1 else 0)
  }

  lemma {:induction false} NetIsBounded(log: seq<Entry>, user: string)
    ensures -(Approvals(log) * 0x8000_0000) <= Net(log, user) <= Approvals(log) * 0x8000_0000
  {
    if log != [] {
      NetIsBounded(log[..|log| - 1], user);
    }
  }

  lemma StatementIsBounded(log: seq<Entry>)
    ensures Within(Statement(log), Approvals(log) * 0x8000_0000)
  {
    forall i | 0 <= i < |Statement(log)|
      ensures -(Approvals(log) * 0x8000_0000) <= Statement(log)[i].balance <= Approvals(log) * 0x8000_0000
    {
      NetIsBounded(log, Parties(log)[i]);
    }
  }

  lemma EnsureWithin(rows: seq<Account>, user: string, bound: nat)
    requires Within(rows, bound)
    ensures Within(Ensure(rows, user), bound)
  {
  }

  lemma AddWithin(rows: seq<Account>, user: string, delta: int, bound: nat)
    requires Within(rows, bound) && -0x8000_0000 <= delta <= 0x8000_0000
    ensures Within(AddTo(rows, user, delta), bound + 0x8000_0000)
  {
  }

  /** The two UPDATEs of a transfer together move no balance by more than one amount. */
  lemma PostedWithin(rows: seq<Account>, e: Entry, bound: nat)
    requires Within(rows, bound)
    ensures Within(Posted(rows, e), bound + 0x8000_0000)
  {
  }

  lemma JitWithin(db: Db, c: Call, bound: nat)
    requires NamesUser(db.keyColumn) && Within(db.accounts, bound)
    ensures Within(Exec(db, [InsertOrIgnore(c.src)]).accounts, bound)
    ensures Within(Exec(db, Jit(c)).accounts, bound)
  {
    ExecOne(db, InsertOrIgnore(c.src));
    ExecTwo(db, InsertOrIgnore(c.src), InsertOrIgnore(c.dest));
    EnsureWithin(db.accounts, c.src, bound);
    EnsureWithin(Ensure(db.accounts, c.src), c.dest, bound);
  }

  lemma {:induction false} MismatchRunsNothing(db: Db, sql: seq<Stmt>)
    requires !NamesUser(db.keyColumn) && forall s :: s in sql ==> !s.Insert?
    ensures Exec(db, sql) == db
  {
  }

  /**
    Balance bound.  After any calls, and also after each statement of the next one (between the
    two UPDATEs of a transfer, say), every balance is within (approvals + 1) * 2^31.
  */
  lemma BalancesStayBounded(db: Db, c: Call, k: nat)
    requires InOrder(db)
    ensures Within(db.accounts, Approvals(db.log) * 0x8000_0000)
    ensures k <= 2 ==> Within(Exec(db, Jit(c)[..k]).accounts, (Approvals(db.log) + 1) * 0x8000_0000)
    ensures k <= |Rule(c, Jit(c))| ==>
      Within(Exec(Exec(db, Jit(c)), Rule(c, Jit(c))[..k]).accounts, (Approvals(db.log) + 1) * 0x8000_0000)
  {
    var bound := Approvals(db.log) * 0x8000_0000;
    StatementIsBounded(db.log);
    if !NamesUser(db.keyColumn) {
      MismatchRunsNothing(db, Jit(c));
      MismatchRunsNothing(db, if k <= 2 then Jit(c)[..k] else []);
      MismatchRunsNothing(db, if k <= |Rule(c, Jit(c))| then Rule(c, Jit(c))[..k] else []);
    } else {
      JitWithin(db, c, bound);
      if k == 1 {
        assert Jit(c)[..1] == [InsertOrIgnore(c.src)];
      } else if k == 2 {
        assert Jit(c)[..2] == Jit(c);
      }
      ExecTwo(db, InsertOrIgnore(c.src), InsertOrIgnore(c.dest));
      if k <= |Rule(c, Jit(c))| {
        RuleWithin(Exec(db, Jit(c)), c, k, bound);
      }
    }
  }

  lemma RuleWithin(d: Db, c: Call, k: nat, bound: nat)
    requires NamesUser(d.keyColumn) && Within(d.accounts, bound) && k <= |Rule(c, Jit(c))|
    ensures Within(Exec(d, Rule(c, Jit(c))[..k]).accounts, bound + 0x8000_0000)
  {
    var rule := Rule(c, Jit(c));
    if k == 0 {
    } else if rule[0].InsertOrIgnore? {
      JitWithin(d, c, bound);
      assert rule[..1] == [InsertOrIgnore(c.src)] && rule[..2] == Jit(c);
    } else if k == 1 {
      assert rule[..1] == [rule[0]];
      ExecOne(d, rule[0]);
      AddWithin(d.accounts, rule[0].user, if rule[0].minus then 0 - rule[0].amount else rule[0].amount, bound);
    } else {
      assert rule[..2] == [rule[0], rule[1]];
      ExecTwo(d, rule[0], rule[1]);
      var e := Entry(0, c.src, c.dest, c.kind, c.amount, Approved);
      RulePosts(d.accounts, e);
      PostedWithin(d.accounts, e, bound);
    }
  }

  /** SQLite's 64-bit INTEGER holds every balance of the first 2^32 - 1 approved transactions. */
  lemma NoOverflowForFourBillion(db: Db, c: Call, k: nat)
    requires InOrder(db) && Approvals(db.log) + 1 < 0x1_0000_0000 && k <= |Rule(c, Jit(c))|
    ensures Within(db.accounts, 0x7fff_ffff_ffff_ffff)
    ensures Within(Exec(Exec(db, Jit(c)), Rule(c, Jit(c))[..k]).accounts, 0x7fff_ffff_ffff_ffff)
  {
    BalancesStayBounded(db, c, k);
  }
}
