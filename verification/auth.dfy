/** The AuthServer: a table of at most 50 users and a token counter. */
module Auth {
  import opened Words

  const MAX_USERS := 50

  datatype UserRecord = UserRecord(user: string, pin: string)

  /** A pair whose strings fit, with their NULs, the two `char[32]` fields of a record. */
  predicate Short(r: UserRecord) {
    |r.user| < 32 && |r.pin| < 32
  }

  /** strcpy writes the characters and a NUL: at most 32 bytes each. */
  lemma ShortExactly(r: UserRecord)
    ensures Short(r) <==> |r.user| + 1 <= 32 && |r.pin| + 1 <= 32
  {
  }

  type Stored = r: UserRecord | Short(r) witness UserRecord("", "")

  datatype AuthState = AuthState(users: seq<Stored>, nextTokenId: int32)

  const FRESH := AuthState([], 1000)

  datatype Op = Reg(r: UserRecord) | Log(r: UserRecord)

  /**
    What the two calls ask for: a registration that finds room copies both strings, and a login
    that succeeds increments an int.
  */
  predicate Ready(a: AuthState, op: Op) {
    match op
    case Reg(r) => |a.users| < MAX_USERS ==> Short(r)
    case Log(r) => r in a.users ==> a.nextTokenId < INT_MAX
  }

  function Register(a: AuthState, r: UserRecord): AuthState
    requires Ready(a, Reg(r))
  {
    if |a.users| >= MAX_USERS then a else a.(users := a.users + [r])
  }

  function RegisterReply(a: AuthState): int32 {
    if |a.users| >= MAX_USERS then -1 else 0
  }

  function Login(a: AuthState, r: UserRecord): AuthState
    requires Ready(a, Log(r))
  {
    if r in a.users then a.(nextTokenId := a.nextTokenId + 1) else a
  }

  function LoginReply(a: AuthState, r: UserRecord): int32
    requires Ready(a, Log(r))
  {
    if r in a.users then a.nextTokenId + 1 else -1
  }

  class AuthServer {
    const users: array<Stored>
    var numUsers: int
    var nextTokenId: int32

    ghost predicate Valid()
      reads this
    {
      users.Length == MAX_USERS && 0 <= numUsers <= MAX_USERS && 1000 <= nextTokenId
    }

    ghost function Table(): AuthState
      reads this, users
      requires Valid()
    {
      AuthState(users[..numUsers], nextTokenId)
    }

    constructor ()
      ensures Valid() && Table() == FRESH && fresh(users)
    {
      users := new Stored[MAX_USERS](_ => UserRecord("", ""));
      numUsers, nextTokenId := 0, 1000;
    }

    method RegisterUser(user: string, pin: string) returns (result: int32)
      requires Valid() && Ready(Table(), Reg(UserRecord(user, pin)))
      modifies this`numUsers, users
      ensures Valid() && Table() == Register(old(Table()), UserRecord(user, pin))
      ensures result == RegisterReply(old(Table()))
    {
      if numUsers >= MAX_USERS {
        return -1;
      }
      users[numUsers] := UserRecord(user, pin);
      numUsers := numUsers + 1;
      assert users[..numUsers] == old(users[..numUsers]) + [UserRecord(user, pin)];
      result := 0;
    }

    method LogIn(user: string, pin: string) returns (result: int32)
      requires Valid() && Ready(Table(), Log(UserRecord(user, pin)))
      modifies this`nextTokenId
      ensures Valid() && Table() == Login(old(Table()), UserRecord(user, pin))
      ensures result == LoginReply(old(Table()), UserRecord(user, pin))
    {
      ghost var r := UserRecord(user, pin);
      for i := 0 to numUsers
        invariant r !in users[..i] && nextTokenId == old(nextTokenId)
      {
        if users[i].user == user && users[i].pin == pin {
          assert users[..numUsers][i] == r;
          nextTokenId := nextTokenId + 1;
          return nextTokenId;
        }
        assert users[..i + 1] == users[..i] + [users[i]];
      }
      assert users[..numUsers] == old(users[..numUsers]);
      result := -1;
    }
  }

  // --- Histories -------------------------------------------------------------------------------

  function Step(a: AuthState, op: Op): AuthState
    requires Ready(a, op)
  {
    if op.Reg? then Register(a, op.r) else Login(a, op.r)
  }

  /** Each call of the history found the server ready for it. */
  predicate ReadyAll(ops: seq<Op>)
    decreases |ops|, 0
  {
    ops == [] ||
    (var n := |ops| - 1;
     ReadyAll(ops[..n]) && Ready(After(ops[..n]), ops[n]))
  }

  function After(ops: seq<Op>): AuthState
    requires ReadyAll(ops)
    decreases |ops|, 1
  {
    if ops == [] then FRESH else Step(After(ops[..|ops| - 1]), ops[|ops| - 1])
  }

  /** The registrations of a history, in order. */
  function Registrations(ops: seq<Op>): seq<UserRecord> {
    if ops == [] then []
    else
      Registrations(ops[..|ops| - 1]) + (if ops[|ops| - 1].Reg? then [ops[|ops| - 1].r] else [])
  }

  function Earliest(rs: seq<UserRecord>): seq<UserRecord> {
    if |rs| <= MAX_USERS then rs else rs[..MAX_USERS]
  }

  /** The tokens the logins of a history returned, in order. */
  function Issued(ops: seq<Op>): seq<int32>
    requires ReadyAll(ops)
  {
    if ops == [] then []
    else
      var n := |ops| - 1;
      Issued(ops[..n]) +
      (if ops[n].Log? && LoginReply(After(ops[..n]), ops[n].r) != -1
       then [LoginReply(After(ops[..n]), ops[n].r)] else [])
  }

  /**
    The table is the first 50 registrations, and a login is accepted exactly when its pair is
    among them.
  */
  lemma {:induction false} TableIsTheFirstFifty(ops: seq<Op>, r: UserRecord)
    requires ReadyAll(ops)
    ensures After(ops).users == Earliest(Registrations(ops)) && After(ops).nextTokenId >= 1000
    ensures Ready(After(ops), Log(r)) ==> (LoginReply(After(ops), r) != -1 <==> r in Earliest(Registrations(ops)))
  {
    if ops != [] {
      TableIsTheFirstFifty(ops[..|ops| - 1], r);
    }
  }

  /** Tokens are 1001, 1002, 1003, ...: never repeated, and all above the ledger's threshold. */
  lemma {:induction false} TokensCountUp(ops: seq<Op>)
    requires ReadyAll(ops)
    ensures After(ops).nextTokenId == 1000 + |Issued(ops)|
    ensures forall i :: 0 <= i < |Issued(ops)| ==> Issued(ops)[i] == 1001 + i
  {
    if ops != [] {
      TokensCountUp(ops[..|ops| - 1]);
    }
  }

  lemma RegistrationsExtend(ops: seq<Op>, op: Op)
    ensures Registrations(ops + [op]) == Registrations(ops) + (if op.Reg? then [op.r] else [])
  {
    assert (ops + [op])[..|ops|] == ops;
  }

  /**
    A registration answers 0 exactly if fewer than 50 came before, and then the table grew by that
    pair; otherwise it answers -1 and nothing changed.
  */
  lemma RegistrationIsAnswered(ops: seq<Op>, r: UserRecord)
    requires ReadyAll(ops) && Ready(After(ops), Reg(r))
    ensures ReadyAll(ops + [Reg(r)])
    ensures var (before, after) := (After(ops), After(ops + [Reg(r)]));
      && after.nextTokenId == before.nextTokenId
      && (|Registrations(ops)| < 50 ==> RegisterReply(before) == 0 && after.users == before.users + [r])
      && (|Registrations(ops)| >= 50 ==> RegisterReply(before) == -1 && after.users == before.users)
  {
    assert (ops + [Reg(r)])[..|ops|] == ops;
    TableIsTheFirstFifty(ops, r);
  }

  /** No more tokens can be issued than an int can count; every history up to there is possible. */
  lemma HistoriesGoOn(ops: seq<Op>, op: Op)
    requires ReadyAll(ops) && (op.Reg? ==> Short(op.r)) && |Issued(ops)| < INT_MAX - 1000
    ensures ReadyAll(ops + [op])
  {
    TokensCountUp(ops);
    assert (ops + [op])[..|ops|] == ops;
  }
}
