/** The ledger's two tables, and what its statements and transactions do to the rows. */
module Accounts {
  import opened Words
  import opened Sql

  datatype Account = Account(user: string, balance: int)
  datatype Entry = Entry(id: nat, src: string, dest: string, kind: string, amount: int32, status: Status)

  datatype Db = Db(
    isOpen: bool,
    keyColumn: string,                // the name the schema gives the primary key of accounts
    accounts: seq<Account>,
    log: seq<Entry>)

  predicate HasUser(rows: seq<Account>, user: string) {
    exists i :: 0 <= i < |rows| && rows[i].user == user
  }

  /** INSERT OR IGNORE of a fresh account: the primary key admits at most one row per user. */
  function Ensure(rows: seq<Account>, user: string): (r: seq<Account>)
    ensures HasUser(r, user)
  {
    if HasUser(rows, user) then rows
    else
      var r := rows + [Account(user, 0)];
      assert r[|rows|].user == user;
      r
  }

  function Credit(row: Account, user: string, delta: int): Account {
    if row.user == user then row.(balance := row.balance + delta) else row
  }

  /** UPDATE ... SET balance = balance + delta WHERE user = ...: every matching row. */
  function AddTo(rows: seq<Account>, user: string, delta: int): (r: seq<Account>)
    ensures |r| == |rows|
  {
    seq(|rows|, i requires 0 <= i < |rows| => Credit(rows[i], user, delta))
  }

  /** AUTOINCREMENT numbers the rows 1, 2, 3, ... */
  function Append(log: seq<Entry>, s: Stmt): seq<Entry>
    requires s.Insert?
  {
    log + [Entry(|log| + 1, s.src, s.dest, s.kind, s.amount, s.status)]
  }

  function Lower(c: char): char {
    if 'A' <= c <= 'Z' then (c as int + 32) as char else c
  }

  /** SQLite compares column names without regard to the case of ASCII letters. */
  predicate NamesUser(column: string) {
    && |column| == 4
    && Lower(column[0]) == 'u' && Lower(column[1]) == 's' && Lower(column[2]) == 'e' && Lower(column[3]) == 'r'
  }

  lemma ColumnNames()
    ensures NamesUser("user") && NamesUser("USER") && NamesUser("User")
    ensures !NamesUser("username") && !NamesUser("name")
  {
    assert |"username"| == 8 && "name"[0] == 'n';
    assert "USER"[0] == 'U' && "USER"[1] == 'S' && "USER"[2] == 'E' && "USER"[3] == 'R';
    assert "User"[0] == 'U' && "User"[1] == 's' && "User"[2] == 'e' && "User"[3] == 'r';
    assert "user"[0] == 'u' && "user"[1] == 's' && "user"[2] == 'e' && "user"[3] == 'r';
  }

  /** A statement on accounts names its key column `user`; another schema makes it an error. */
  predicate Compiles(db: Db, s: Stmt) {
    s.Insert? || NamesUser(db.keyColumn)
  }

  function Apply(db: Db, s: Stmt): Db {
    match s
    case InsertOrIgnore(user) => db.(accounts := Ensure(db.accounts, user))
    case Update(user, minus, amount) =>
      db.(accounts := AddTo(db.accounts, user, if minus then 0 - amount else amount))
    case Insert(_, _, _, _, _) => db.(log := Append(db.log, s))
  }

  /** sqlite3_exec: the statements in order, up to the first that fails. */
  function Exec(db: Db, sql: seq<Stmt>): Db
    decreases sql
  {
    if sql == [] || !Compiles(db, sql[0]) then db else Exec(Apply(db, sql[0]), sql[1..])
  }

  predicate Succeeds(db: Db, sql: seq<Stmt>) {
    forall s :: s in sql ==> Compiles(db, s)
  }

  // --- What a transaction means ----------------------------------------------------------------

  datatype Call = Call(token: int32, src: string, dest: string, kind: string, amount: int32)

  /** By how much an approved entry changes a user's balance. */
  function Effect(e: Entry, user: string): int {
    var incoming := if (e.kind == "TRANSFER" || e.kind == "DEPOSIT") && user == e.dest then e.amount else 0;
    var outgoing := if (e.kind == "TRANSFER" || e.kind == "WITHDRAWAL") && user == e.src then e.amount else 0;
    incoming - outgoing
  }

  /** Every balance moved by the entry's effect on its owner. */
  function Posted(rows: seq<Account>, e: Entry): (r: seq<Account>)
    ensures |r| == |rows|
  {
    seq(|rows|, i requires 0 <= i < |rows| =>
      Account(rows[i].user, rows[i].balance + Effect(e, rows[i].user)))
  }

  function EntryOf(db: Db, c: Call): Entry {
    Entry(|db.log| + 1, c.src, c.dest, c.kind, c.amount,
          if c.token < 1000 then BlockedInvalidCapability else Approved)
  }

  /** The statements for the business rule, given what the buffer held before. */
  function Rule(c: Call, stale: seq<Stmt>): seq<Stmt> {
    if c.kind == "TRANSFER" then [Update(c.src, true, c.amount), Update(c.dest, false, c.amount)]
    else if c.kind == "DEPOSIT" then [Update(c.dest, false, c.amount)]
    else if c.kind == "WITHDRAWAL" then [Update(c.src, true, c.amount)]
    else stale
  }

  function Jit(c: Call): seq<Stmt> {
    [InsertOrIgnore(c.src), InsertOrIgnore(c.dest)]
  }

  function LogEntry(c: Call): seq<Stmt> {
    [Insert(c.src, c.dest, c.kind, c.amount, if c.token < 1000 then BlockedInvalidCapability else Approved)]
  }

  /** The batches a call writes into its buffer, in order. */
  function Batches(keyColumn: string, c: Call): seq<seq<Stmt>> {
    if c.token < 1000 then [LogEntry(c)]
    else [Jit(c), Rule(c, Jit(c))] + (if NamesUser(keyColumn) then [LogEntry(c)] else [])
  }

  /** What is printed for each batch; the statements' texts are those of the format strings. */
  lemma BatchTexts(c: Call)
    ensures Text(LogEntry(c)) == Render(Insert(c.src, c.dest, c.kind, c.amount,
                                               if c.token < 1000 then BlockedInvalidCapability else Approved))
    ensures Text(Jit(c)) == Render(InsertOrIgnore(c.src)) + Render(InsertOrIgnore(c.dest))
    ensures c.kind == "TRANSFER" ==>
      Text(Rule(c, Jit(c))) == Render(Update(c.src, true, c.amount)) + Render(Update(c.dest, false, c.amount))
    ensures c.kind == "DEPOSIT" ==> Text(Rule(c, Jit(c))) == Render(Update(c.dest, false, c.amount))
    ensures c.kind == "WITHDRAWAL" ==> Text(Rule(c, Jit(c))) == Render(Update(c.src, true, c.amount))
    ensures c.kind !in {"TRANSFER", "DEPOSIT", "WITHDRAWAL"} ==> Text(Rule(c, Jit(c))) == Text(Jit(c))
  {
    hide Render, Text;
    TextOfFew(LogEntry(c));
    TextOfFew(Jit(c));
    TextOfFew(Rule(c, Jit(c)));
  }

  lemma TextOfFew(sql: seq<Stmt>)
    ensures |sql| == 1 ==> Text(sql) == Render(sql[0])
    ensures |sql| == 2 ==> Text(sql) == Render(sql[0]) + Render(sql[1])
  {
    hide Render;
    if |sql| == 1 {
      assert sql[1..] == [];
    } else if |sql| == 2 {
      assert sql[1..][1..] == [];
      assert Text(sql[1..]) == Render(sql[1]) + Text(sql[1..][1..]);
    }
  }

  /** The batch fits `char sql[512]`, and its text means what was meant. */
  predicate Sound(sql: seq<Stmt>) {
    |Text(sql)| < 512 && forall s :: s in sql ==> Plain(s)
  }

  /** It fits, and SQLite reads back what was meant. */
  predicate Survives(sql: seq<Stmt>) {
    |Text(sql)| < 512 && ReadAll(Text(sql)) == Some(sql)
  }

  lemma SoundExactlyWhenItSurvives(sql: seq<Stmt>)
    ensures Sound(sql) <==> Survives(sql)
  {
    hide Text, ReadAll, Plain;
    TextReadsBackExactlyWhenPlain(sql);
  }

  /** What bank_execute_transaction asks of its arguments: every batch it writes is sound. */
  predicate Expressible(db: Db, c: Call) {
    db.isOpen ==> forall sql :: sql in Batches(db.keyColumn, c) ==> Sound(sql)
  }

  lemma BatchesSurvive(db: Db, c: Call)
    requires Expressible(db, c) && db.isOpen
    ensures c.token < 1000 || NamesUser(db.keyColumn) ==> Survives(LogEntry(c))
    ensures c.token >= 1000 ==> Survives(Jit(c)) && Survives(Rule(c, Jit(c)))
  {
    hide Rule, Jit, LogEntry, Sound, Survives;
    SoundExactlyWhenItSurvives(LogEntry(c));
    SoundExactlyWhenItSurvives(Jit(c));
    SoundExactlyWhenItSurvives(Rule(c, Jit(c)));
    assert LogEntry(c) in Batches(db.keyColumn, c) || (c.token >= 1000 && !NamesUser(db.keyColumn));
    assert c.token >= 1000 ==> Jit(c) in Batches(db.keyColumn, c) && Rule(c, Jit(c)) in Batches(db.keyColumn, c);
  }

  /** tx 1001 O'Neil bank DEPOSIT 5 is not expressible, on whatever schema. */
  lemma ApostropheIsNotExpressible(keyColumn: string)
    ensures !Expressible(Db(true, keyColumn, [], []), Call(1001, "O'Neil", "bank", "DEPOSIT", 5))
  {
    var c := Call(1001, "O'Neil", "bank", "DEPOSIT", 5);
    ApostropheIsMisread("bank");
    hide Plain, Text;
    assert Jit(c)[0] == InsertOrIgnore("O'Neil") && Jit(c)[0] in Jit(c);
    assert Batches(keyColumn, c)[0] == Jit(c) && Jit(c) in Batches(keyColumn, c);
  }

  /** It depends on the schema only, which no call changes. */
  lemma StaysExpressible(db: Db, db': Db, c: Call)
    requires Expressible(db, c) && db'.isOpen == db.isOpen && db'.keyColumn == db.keyColumn
    ensures Expressible(db', c)
  {
  }

  predicate PlainNames(c: Call) {
    '\'' !in c.src && '\'' !in c.dest && '\'' !in c.kind
  }

  lemma BatchesArePlain(c: Call)
    requires PlainNames(c)
    ensures forall s :: s in LogEntry(c) ==> Plain(s)
    ensures forall s :: s in Jit(c) ==> Plain(s)
    ensures forall s :: s in Rule(c, Jit(c)) ==> Plain(s)
  {
    StatusesArePlain();
  }

  lemma BatchesAreShort(c: Call)
    ensures |Text(LogEntry(c))| <= 122 + |c.src| + |c.dest| + |c.kind|
    ensures |Text(Jit(c))| == 124 + |c.src| + |c.dest|
    ensures |Text(Rule(c, Jit(c)))| <= 136 + |c.src| + |c.dest|
  {
    hide Render, Text;
    TextOfFew(LogEntry(c));
    TextOfFew(Jit(c));
    TextOfFew(Rule(c, Jit(c)));
    RenderLength(LogEntry(c)[0]);
    RenderLength(Jit(c)[0]);
    RenderLength(Jit(c)[1]);
    RenderLength(Rule(c, Jit(c))[0]);
    if |Rule(c, Jit(c))| == 2 {
      RenderLength(Rule(c, Jit(c))[1]);
    }
  }

  /** Names without quotes, of at most 375 characters together, are always within these bounds. */
  lemma ShortPlainNamesAreExpressible(db: Db, c: Call)
    requires PlainNames(c) && |c.src| + |c.dest| + |c.kind| <= 375
    ensures Expressible(db, c)
  {
    BatchesArePlain(c);
    BatchesAreShort(c);
    hide LogEntry, Jit, Rule, Text, Plain;
  }

  predicate AllExpressible(db: Db, calls: seq<Call>) {
    forall c :: c in calls ==> Expressible(db, c)
  }

  /** The database after one call. */
  function Perform(db: Db, c: Call): (r: Db)
    requires Expressible(db, c)
    ensures r.isOpen == db.isOpen && r.keyColumn == db.keyColumn
  {
    if !db.isOpen then db
    else if c.token < 1000 then db.(log := db.log + [EntryOf(db, c)])
    else if !NamesUser(db.keyColumn) then db
    else
      db.(accounts := Posted(Ensure(Ensure(db.accounts, c.src), c.dest), EntryOf(db, c)),
          log := db.log + [EntryOf(db, c)])
  }

  function Reply(db: Db, c: Call): int32
    requires Expressible(db, c)
  {
    if !db.isOpen || c.token < 1000 || !NamesUser(db.keyColumn) then -1 else 0
  }

  function PerformAll(db: Db, calls: seq<Call>): (r: Db)
    requires AllExpressible(db, calls)
    ensures r.isOpen == db.isOpen && r.keyColumn == db.keyColumn
  {
    if calls == [] then db
    else
      var before, c := PerformAll(db, calls[..|calls| - 1]), calls[|calls| - 1];
      StaysExpressible(db, before, c);
      Perform(before, c)
  }

  lemma ExecOne(db: Db, s: Stmt)
    requires Compiles(db, s)
    ensures Exec(db, [s]) == Apply(db, s)
  {
    assert [s][1..] == [];
  }

  lemma ExecTwo(db: Db, s: Stmt, t: Stmt)
    requires Compiles(db, s) && Compiles(Apply(db, s), t)
    ensures Exec(db, [s, t]) == Apply(Apply(db, s), t)
  {
    assert [s, t][1..] == [t];
    ExecOne(Apply(db, s), t);
  }

  /** The UPDATEs of a rule touch exactly the rows the effect names. */
  lemma RulePosts(rows: seq<Account>, e: Entry)
    ensures e.kind == "TRANSFER" ==> AddTo(AddTo(rows, e.src, 0 - e.amount), e.dest, e.amount) == Posted(rows, e)
    ensures e.kind == "DEPOSIT" ==> AddTo(rows, e.dest, e.amount) == Posted(rows, e)
    ensures e.kind == "WITHDRAWAL" ==> AddTo(rows, e.src, 0 - e.amount) == Posted(rows, e)
    ensures e.kind !in {"TRANSFER", "DEPOSIT", "WITHDRAWAL"} ==> Posted(rows, e) == rows
  {
  }

  lemma RuleRuns(d: Db, c: Call)
    requires NamesUser(d.keyColumn)
    ensures c.kind == "TRANSFER" ==>
      Exec(d, Rule(c, Jit(c))) == d.(accounts := AddTo(AddTo(d.accounts, c.src, 0 - c.amount), c.dest, c.amount))
    ensures c.kind == "DEPOSIT" ==> Exec(d, Rule(c, Jit(c))) == d.(accounts := AddTo(d.accounts, c.dest, c.amount))
    ensures c.kind == "WITHDRAWAL" ==>
      Exec(d, Rule(c, Jit(c))) == d.(accounts := AddTo(d.accounts, c.src, 0 - c.amount))
    ensures c.kind !in {"TRANSFER", "DEPOSIT", "WITHDRAWAL"} ==> Exec(d, Rule(c, Jit(c))) == Exec(d, Jit(c))
  {
    hide AddTo, Ensure, Exec;
    if c.kind == "TRANSFER" {
      ExecTwo(d, Update(c.src, true, c.amount), Update(c.dest, false, c.amount));
    } else if c.kind == "DEPOSIT" {
      ExecOne(d, Update(c.dest, false, c.amount));
    } else if c.kind == "WITHDRAWAL" {
      ExecOne(d, Update(c.src, true, c.amount));
    }
  }

  /** The INSERT OR IGNOREs ensure both parties; running them twice is running them once. */
  lemma JitRuns(db: Db, c: Call)
    requires NamesUser(db.keyColumn)
    ensures Exec(db, Jit(c)) == db.(accounts := Ensure(Ensure(db.accounts, c.src), c.dest))
    ensures Exec(Exec(db, Jit(c)), Jit(c)) == Exec(db, Jit(c))
  {
    var d := db.(accounts := Ensure(Ensure(db.accounts, c.src), c.dest));
    hide Exec;
    ExecTwo(db, InsertOrIgnore(c.src), InsertOrIgnore(c.dest));
    ExecTwo(d, InsertOrIgnore(c.src), InsertOrIgnore(c.dest));
    EnsureKeeps(Ensure(db.accounts, c.src), c.src, c.dest);
  }

  /**
    The statement batches the code builds, run one after the other, post the entry; the stale
    buffer of an unknown type runs the two INSERT OR IGNOREs again, without effect.
  */
  lemma BatchesPostTheEntry(db: Db, c: Call, e: Entry)
    requires NamesUser(db.keyColumn)
    requires e.src == c.src && e.dest == c.dest && e.kind == c.kind && e.amount == c.amount
    ensures Exec(Exec(db, Jit(c)), Rule(c, Jit(c))) ==
      db.(accounts := Posted(Ensure(Ensure(db.accounts, c.src), c.dest), e))
  {
    hide AddTo, Posted, Exec, Ensure, Rule, Jit;
    JitRuns(db, c);
    RuleRuns(Exec(db, Jit(c)), c);
    RulePosts(Ensure(Ensure(db.accounts, c.src), c.dest), e);
  }

  /** A call is its batches: one if it is blocked, two if the second fails, three otherwise. */
  lemma CallIsItsBatches(db: Db, c: Call)
    requires Expressible(db, c) && db.isOpen
    ensures c.token < 1000 ==> Perform(db, c) == Exec(db, LogEntry(c))
    ensures c.token >= 1000 ==> (
        var d := Exec(Exec(db, Jit(c)), Rule(c, Jit(c)));
        && (Succeeds(Exec(db, Jit(c)), Rule(c, Jit(c))) <==> NamesUser(db.keyColumn))
        && Perform(db, c) == if NamesUser(db.keyColumn) then Exec(d, LogEntry(c)) else d)
  {
    if c.token < 1000 {
      ExecOne(db, LogEntry(c)[0]);
    } else if NamesUser(db.keyColumn) {
      hide Exec, AddTo, Posted, Ensure;
      BatchesPostTheEntry(db, c, EntryOf(db, c));
      ExecOne(Exec(Exec(db, Jit(c)), Rule(c, Jit(c))), LogEntry(c)[0]);
      JitRuns(db, c);
    } else {
      assert Rule(c, Jit(c))[0] in Rule(c, Jit(c));
    }
  }

  lemma EnsureKeeps(rows: seq<Account>, a: string, b: string)
    requires HasUser(rows, a)
    ensures HasUser(Ensure(rows, b), a)
  {
    var i :| 0 <= i < |rows| && rows[i].user == a;
    assert Ensure(rows, b)[i].user == a;
  }
}
