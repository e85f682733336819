/** bank_execute_transaction over the tables. */
module Ledger {
  import opened Words
  import opened Sql
  import opened Accounts

  class Bank {
    var isOpen: bool
    const keyColumn: string
    var accounts: seq<Account>
    var log: seq<Entry>

    function Tables(): Db
      reads this
    {
      Db(isOpen, keyColumn, accounts, log)
    }

    constructor (isOpen: bool, keyColumn: string)
      ensures Tables() == Db(isOpen, keyColumn, [], [])
    {
      this.isOpen, this.keyColumn, accounts, log := isOpen, keyColumn, [], [];
    }

    method InsertUser(user: string)
      modifies `accounts
      ensures accounts == Ensure(old(accounts), user)
    {
      var i := 0;
      while i < |accounts|
        invariant 0 <= i <= |accounts| && accounts == old(accounts)
        invariant forall j :: 0 <= j < i ==> accounts[j].user != user
      {
        if accounts[i].user == user {
          return;
        }
        i := i + 1;
      }
      accounts := accounts + [Account(user, 0)];
    }

    method UpdateWhere(user: string, delta: int)
      modifies `accounts
      ensures accounts == AddTo(old(accounts), user, delta)
    {
      var i := 0;
      while i < |accounts|
        invariant 0 <= i <= |accounts| == |old(accounts)|
        invariant forall j :: 0 <= j < i ==> accounts[j] == Credit(old(accounts)[j], user, delta)
        invariant forall j :: i <= j < |accounts| ==> accounts[j] == old(accounts)[j]
      {
        if accounts[i].user == user {
          accounts := accounts[i := Account(user, accounts[i].balance + delta)];
        }
        i := i + 1;
      }
    }

    /** One statement, compiled and run. */
    method Step(s: Stmt) returns (ok: bool)
      modifies `accounts, `log
      ensures ok <==> Compiles(old(Tables()), s)
      ensures Tables() == if ok then Apply(old(Tables()), s) else old(Tables())
    {
      if !s.Insert? && !NamesUser(keyColumn) {
        return false;
      }
      match s {
        case InsertOrIgnore(user) => InsertUser(user);
        case Update(user, minus, amount) => UpdateWhere(user, if minus then 0 - amount else amount);
        case Insert(src, dest, kind, amount, status) =>
          log := log + [Entry(|log| + 1, src, dest, kind, amount, status)];
      }
      ok := true;
    }

    /** sqlite3_exec: reads one statement at a time off the text, and runs it. */
    method Execute(sql: string) returns (ok: bool)
      requires ReadAll(sql).Some?
      modifies `accounts, `log
      ensures Tables() == Exec(old(Tables()), ReadAll(sql).value)
      ensures ok <==> Succeeds(old(Tables()), ReadAll(sql).value)
    {
      hide ReadStmt, Apply;
      var rest := sql;
      ghost var db, all := Tables(), ReadAll(sql).value;
      while rest != ""
        invariant isOpen == db.isOpen && ReadAll(rest).Some?
        invariant Exec(Tables(), ReadAll(rest).value) == Exec(db, all)
        invariant Succeeds(db, all) <==> Succeeds(db, ReadAll(rest).value)
        decreases |rest|
      {
        var next := ReadStmt(rest);
        ghost var left := ReadAll(rest).value;
        assert left == [next.value.0] + ReadAll(next.value.1).value;
        assert left[0] == next.value.0 && left[1..] == ReadAll(next.value.1).value;
        var ran := Step(next.value.0);
        if !ran {
          assert left[0] in left;
          return false;
        }
        rest := next.value.1;
      }
      ok := true;
    }

    method BankExecuteTransaction(token: int32, src: string, dest: string, kind: string, amount: int32)
      returns (result: int32)
      requires Expressible(Tables(), Call(token, src, dest, kind, amount))
      modifies `accounts, `log
      ensures Tables() == Perform(old(Tables()), Call(token, src, dest, kind, amount))
      ensures result == Reply(old(Tables()), Call(token, src, dest, kind, amount))
    {
      if !isOpen {
        return -1;
      }
      ghost var c := Call(token, src, dest, kind, amount);
      CallIsItsBatches(Tables(), c);
      BatchesSurvive(Tables(), c);
      hide Text, ReadAll, Expressible, Batches, Exec, Succeeds, Perform;
      var sql: SqlBuffer;
      if token < 1000 {
        sql := Text([Insert(src, dest, kind, amount, BlockedInvalidCapability)]);
        var _ := Execute(sql);
      } else {
        sql := Text([InsertOrIgnore(src), InsertOrIgnore(dest)]);
        var _ := Execute(sql);
        if kind == "TRANSFER" {
          sql := Text([Update(src, true, amount), Update(dest, false, amount)]);
        } else if kind == "DEPOSIT" {
          sql := Text([Update(dest, false, amount)]);
        } else if kind == "WITHDRAWAL" {
          sql := Text([Update(src, true, amount)]);
        }
        assert sql == Text(Rule(c, Jit(c)));
        hide Rule, Jit;
        var ok := Execute(sql);
        if !ok {
          return -1;
        }
        sql := Text([Insert(src, dest, kind, amount, Approved)]);
        var _ := Execute(sql);
      }
      result := if token >= 1000 then 0 else -1;
    }
  }
}
