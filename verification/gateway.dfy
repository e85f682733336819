/** The APIGateway: one request line to one RPC and one reply line. */
module Gateways {
  import opened Words
  import opened CStrings
  import opened Tokenizers
  import opened Auth
  import opened Accounts
  import opened Ledger

  datatype Rpc =
    | LoginRpc(r: UserRecord)
    | RegisterRpc(r: UserRecord)
    | TxRpc(c: Call)

  datatype Request =
    | Empty
    | Usage(cmd: string)
    | Unknown(cmd: string)
    | Do(rpc: Rpc)

  function LoginRequest(words: seq<string>): Request {
    if |words| >= 3 then Do(LoginRpc(UserRecord(words[1], words[2]))) else Usage("login")
  }

  function RegisterRequest(words: seq<string>): Request {
    if |words| >= 3 then Do(RegisterRpc(UserRecord(words[1], words[2]))) else Usage("register")
  }

  function TxRequest(words: seq<string>, wild: string -> int32): Request {
    if |words| >= 6 then
      Do(TxRpc(Call(Atoi(words[1], wild), words[2], words[3], words[4], Atoi(words[5], wild))))
    else Usage("tx")
  }

  /** What a list of words asks for. Words beyond the ones a command needs are ignored. */
  function Parse(words: seq<string>, wild: string -> int32): Request {
    if words == [] then Empty
    else if words[0] == "login" then LoginRequest(words)
    else if words[0] == "register" then RegisterRequest(words)
    else if words[0] == "tx" then TxRequest(words, wild)
    else Unknown(words[0])
  }

  /** The components behind the gateway. */
  datatype Sys = Sys(auth: AuthState, db: Db)

  /** The component that the command goes to is ready for it. */
  predicate Admits(s: Sys, rpc: Rpc) {
    match rpc
    case LoginRpc(r) => Auth.Ready(s.auth, Log(r))
    case RegisterRpc(r) => Auth.Ready(s.auth, Reg(r))
    case TxRpc(c) => Expressible(s.db, c)
  }

  function Execute(s: Sys, rpc: Rpc): Sys
    requires Admits(s, rpc)
  {
    match rpc
    case LoginRpc(r) => s.(auth := Login(s.auth, r))
    case RegisterRpc(r) => s.(auth := Register(s.auth, r))
    case TxRpc(c) => s.(db := Perform(s.db, c))
  }

  function Result(s: Sys, rpc: Rpc): string
    requires Admits(s, rpc)
  {
    match rpc
    case LoginRpc(r) => "LOGIN_RESULT: " + Itoa(LoginReply(s.auth, r))
    case RegisterRpc(r) => "REGISTER_RESULT: " + Itoa(RegisterReply(s.auth))
    case TxRpc(c) => "TX_RESULT: " + Itoa(Accounts.Reply(s.db, c))
  }

  function UsageText(cmd: string): (r: string)
    ensures '\0' !in r && |r| <= 511
  {
    if cmd == "login" then "ERROR: Usage: login <user> <pin>"
    else if cmd == "register" then "ERROR: Usage: register <user> <pin>"
    else "ERROR: Usage: tx <token> <src> <dest> <type> <amt>"
  }

  /** snprintf into a 512-byte buffer. */
  function Clip(s: string): (r: string)
    ensures r <= s && |r| == (if |s| <= 511 then |s| else 511)
    ensures |s| <= 511 ==> r == s
  {
    if |s| > 511 then s[..511] else s
  }

  predicate Serviceable(s: Sys, q: Request) {
    q.Do? ==> Admits(s, q.rpc)
  }

  function Outcome(s: Sys, q: Request): Sys
    requires Serviceable(s, q)
  {
    if q.Do? then Execute(s, q.rpc) else s
  }

  function Answer(s: Sys, q: Request): string
    requires Serviceable(s, q)
  {
    match q
    case Empty => "ERROR: Empty command"
    case Usage(cmd) => UsageText(cmd)
    case Unknown(cmd) => Clip("ERROR: Unknown command: " + cmd)
    case Do(rpc) => Clip(Result(s, rpc))
  }

  function RequestOf(line: string, wild: string -> int32): Request {
    Parse(Split(line), wild)
  }

  /** The whole system's response to one request line. */
  function Serve(s: Sys, line: string, wild: string -> int32): Sys
    requires Serviceable(s, RequestOf(line, wild))
  {
    Outcome(s, RequestOf(line, wild))
  }

  function ReplyTo(s: Sys, line: string, wild: string -> int32): string
    requires Serviceable(s, RequestOf(line, wild))
  {
    Answer(s, RequestOf(line, wild))
  }

  /** How much of a line fits the copy. */
  function Taken(len: nat): (r: nat)
    ensures len <= 510 ==> r == len
    ensures len > 510 ==> r == 511
  {
    if len < 511 then len else 511
  }

  class Gateway {
    const auth: AuthServer
    const bank: Bank
    const wild: string -> int32       // what atoi returns for a number that does not fit

    ghost predicate Valid()
      reads this, auth
    {
      auth.Valid()
    }

    ghost function State(): Sys
      reads this, auth, auth.users, bank
      requires Valid()
    {
      Sys(auth.Table(), bank.Tables())
    }

    constructor (auth: AuthServer, bank: Bank, wild: string -> int32)
      requires auth.Valid()
      ensures Valid() && this.auth == auth && this.bank == bank && this.wild == wild
    {
      this.auth, this.bank, this.wild := auth, bank, wild;
    }

    /** strncpy(dst, src, 511): copies up to the NUL and pads with NULs, or copies 511 characters and no NUL. */
    static method StrNCpy(dst: array<char>, src: array<char>, ghost len: nat)
      requires dst.Length == 512 && dst != src
      requires len < src.Length && src[len] == '\0' && '\0' !in src[..len]
      modifies dst
      ensures dst[..Taken(len)] == src[..Taken(len)] && dst[511] == old(dst[511])
      ensures len < 511 ==> dst[len] == '\0'
    {
      var i, ended := 0, false;
      while i < 511
        invariant 0 <= i <= 511 && (ended <==> i > len) && dst[511] == old(dst[511])
        invariant forall k :: 0 <= k < i && k < len ==> dst[k] == src[k]
        invariant i > len ==> dst[len] == '\0'
        invariant src[len] == '\0' && '\0' !in src[..len]
      {
        if !ended {
          assert i < len ==> src[i] == src[..len][i] && src[i] in src[..len];
          ended := src[i] == '\0';
        }
        dst[i] := if ended then '\0' else src[i];
        i := i + 1;
      }
    }

    /** The digits at the start of a string, as a number. */
    static method ReadDigits(s: string) returns (v: nat)
      ensures v == Value(Leading(s))
    {
      var i := 0;
      v := 0;
      assert s[0..] == s;
      while i < |s| && IsDigit(s[i])
        invariant 0 <= i <= |s| && AllDigits(s[..i]) && v == Value(s[..i])
        invariant Leading(s) == s[..i] + Leading(s[i..])
      {
        assert s[..i + 1][..i] == s[..i];
        assert s[i..][1..] == s[i + 1..];
        v := v * 10 + DigitValue(s[i]);
        i := i + 1;
      }
      assert s[..i] + "" == s[..i];
    }

    /** atoi on a token (C11, section 7.22.1.2). */
    method ParseInt(s: string) returns (n: int32)
      ensures n == Atoi(s, wild)
    {
      var i := 0;
      assert s[0..] == s;
      while i < |s| && IsSpace(s[i])
        invariant 0 <= i <= |s| && SkipSpace(s[i..]) == SkipSpace(s)
      {
        assert s[i..][1..] == s[i + 1..];
        i := i + 1;
      }
      ghost var t := s[i..];
      assert SkipSpace(s) == t;
      var negative := i < |s| && s[i] == '-';
      if i < |s| && (s[i] == '-' || s[i] == '+') {
        assert t[1..] == s[i + 1..];
        i := i + 1;
      }
      assert s[i..] == Unsigned(t);
      hide Leading, Value, SkipSpace, Unsigned;
      var v: int := ReadDigits(s[i..]);
      if negative {
        v := 0 - v;
      }
      n := if InRange(v) then v else wild(s);
    }

    /** Splits off the two words that login and register take. */
    method TwoFields(tz: Tokenizer, ghost cmd: int, ghost words: seq<string>)
      returns (given: bool, user: string, pin: string)
      requires tz.Fields([cmd], words) && words != []
      modifies tz`save, tz.buf
      ensures given <==> |words| >= 3
      ensures given ==> user == words[1] && pin == words[2]
    {
      hide tz.Fields, tz.Holds;
      user, pin := "", "";
      var u := tz.NextField([cmd], words);
      assert [cmd] + [u] == [cmd, u];
      var p := tz.NextField([cmd, u], words);
      assert [cmd, u] + [p] == [cmd, u, p];
      tz.FieldIs([cmd, u, p], words, 1);
      tz.FieldIs([cmd, u, p], words, 2);
      given := u != -1 && p != -1;
      if given {
        user := tz.Read(u, words[1]);
        pin := tz.Read(p, words[2]);
      }
    }

    method HandleLogin(tz: Tokenizer, ghost cmd: int, ghost words: seq<string>) returns (reply: string)
      requires Valid() && Serviceable(State(), LoginRequest(words))
      requires tz.Fields([cmd], words) && words != []
      modifies tz`save, tz.buf, auth`nextTokenId
      ensures Valid() && State() == Outcome(old(State()), LoginRequest(words))
      ensures reply == Answer(old(State()), LoginRequest(words))
    {
      var given, user, pin := TwoFields(tz, cmd, words);
      if given {
        var result := auth.LogIn(user, pin);
        reply := Clip("LOGIN_RESULT: " + Itoa(result));
      } else {
        reply := "ERROR: Usage: login <user> <pin>";
      }
    }

    method HandleRegister(tz: Tokenizer, ghost cmd: int, ghost words: seq<string>) returns (reply: string)
      requires Valid() && Serviceable(State(), RegisterRequest(words))
      requires tz.Fields([cmd], words) && words != []
      modifies tz`save, tz.buf, auth`numUsers, auth.users
      ensures Valid() && State() == Outcome(old(State()), RegisterRequest(words))
      ensures reply == Answer(old(State()), RegisterRequest(words))
    {
      var given, user, pin := TwoFields(tz, cmd, words);
      if given {
        var result := auth.RegisterUser(user, pin);
        reply := Clip("REGISTER_RESULT: " + Itoa(result));
      } else {
        reply := "ERROR: Usage: register <user> <pin>";
      }
    }

    /** Splits off the five words that tx takes. */
    method FiveFields(tz: Tokenizer, ghost cmd: int, ghost words: seq<string>)
      returns (given: bool, token: string, src: string, dest: string, kind: string, amount: string)
      requires tz.Fields([cmd], words) && words != []
      modifies tz`save, tz.buf
      ensures given <==> |words| >= 6
      ensures given ==>
        token == words[1] && src == words[2] && dest == words[3] && kind == words[4] && amount == words[5]
    {
      hide tz.Fields, tz.Holds;
      token, src, dest, kind, amount := "", "", "", "", "";
      var t := tz.NextField([cmd], words);
      assert [cmd] + [t] == [cmd, t];
      var s := tz.NextField([cmd, t], words);
      assert [cmd, t] + [s] == [cmd, t, s];
      var d := tz.NextField([cmd, t, s], words);
      assert [cmd, t, s] + [d] == [cmd, t, s, d];
      var k := tz.NextField([cmd, t, s, d], words);
      assert [cmd, t, s, d] + [k] == [cmd, t, s, d, k];
      var a := tz.NextField([cmd, t, s, d, k], words);
      ghost var toks := [cmd, t, s, d, k, a];
      assert [cmd, t, s, d, k] + [a] == toks;
      tz.FieldIs(toks, words, 1);
      tz.FieldIs(toks, words, 2);
      tz.FieldIs(toks, words, 3);
      tz.FieldIs(toks, words, 4);
      tz.FieldIs(toks, words, 5);
      given := t != -1 && s != -1 && d != -1 && k != -1 && a != -1;
      if given {
        token := tz.Read(t, words[1]);
        src := tz.Read(s, words[2]);
        dest := tz.Read(d, words[3]);
        kind := tz.Read(k, words[4]);
        amount := tz.Read(a, words[5]);
      }
    }

    method HandleTx(tz: Tokenizer, ghost cmd: int, ghost words: seq<string>) returns (reply: string)
      requires Valid() && Serviceable(State(), TxRequest(words, wild))
      requires tz.Fields([cmd], words) && words != []
      modifies tz`save, tz.buf, bank`accounts, bank`log
      ensures Valid() && State() == Outcome(old(State()), TxRequest(words, wild))
      ensures reply == Answer(old(State()), TxRequest(words, wild))
    {
      hide Atoi, Perform, Expressible, Itoa, Clip, Accounts.Reply;
      var given, token, src, dest, kind, amount := FiveFields(tz, cmd, words);
      if given {
        var t := ParseInt(token);
        var a := ParseInt(amount);
        var result := bank.BankExecuteTransaction(t, src, dest, kind, a);
        reply := Clip("TX_RESULT: " + Itoa(result));
      } else {
        reply := "ERROR: Usage: tx <token> <src> <dest> <type> <amt>";
      }
    }

    /** The tokenising and dispatching part of the loop body. */
    method Dispatch(tz: Tokenizer, ghost words: seq<string>) returns (reply: string)
      requires Valid() && Serviceable(State(), Parse(words, wild))
      requires tz.Fields([], words)
      modifies tz`save, tz.buf, auth`nextTokenId, auth`numUsers, auth.users, bank`accounts, bank`log
      ensures Valid() && State() == Outcome(old(State()), Parse(words, wild))
      ensures reply == Answer(old(State()), Parse(words, wild))
    {
      hide Admits, Execute, Result, LoginRequest, RegisterRequest, TxRequest;
      var cmd := tz.NextField([], words);
      assert [] + [cmd] == [cmd];
      if cmd == -1 {
        return "ERROR: Empty command";
      }
      var name := tz.Read(cmd, words[0]);
      if name == "login" {
        reply := HandleLogin(tz, cmd, words);
      } else if name == "register" {
        reply := HandleRegister(tz, cmd, words);
      } else if name == "tx" {
        reply := HandleTx(tz, cmd, words);
      } else {
        reply := Clip("ERROR: Unknown command: " + name);
      }
    }

    /** memcpy(net_buffer, reply, strlen(reply) + 1). */
    static method WriteReply(net: array<char>, reply: string)
      requires |reply| < net.Length && '\0' !in reply
      modifies net
      ensures CStr(net[..], 0) == reply
      ensures net[|reply| + 1..] == old(net[|reply| + 1..])
    {
      for i := 0 to |reply|
        invariant net[..i] == reply[..i]
        invariant forall k :: i <= k < net.Length ==> net[k] == old(net[k])
      {
        net[i] := reply[i];
      }
      net[|reply|] := '\0';
      assert net[..][0..|reply|] == reply;
      CStrIs(net[..], 0, reply);
    }

    /**
      One round of the request loop: the line in the shared buffer is served, and replaced by
      the reply.  `len` is the length of the line.  Of a line of more than 510 characters the
      first 511 are taken, and only the last byte of local_buf, which nobody writes, can end them:
      `stale` is what it holds.
    */
    method HandleRequest(net: array<char>, ghost len: nat, stale: char)
      requires Valid() && 512 <= net.Length && len < net.Length
      requires net[len] == '\0' && '\0' !in net[..len] && (len > 510 ==> stale == '\0')
      requires Serviceable(State(), RequestOf(net[..Taken(len)], wild))
      modifies net, auth`nextTokenId, auth`numUsers, auth.users, bank`accounts, bank`log
      ensures Valid() && State() == Serve(old(State()), old(net[..Taken(len)]), wild)
      ensures CStr(net[..], 0) == ReplyTo(old(State()), old(net[..Taken(len)]), wild)
      ensures len <= 510 ==>
        && State() == Serve(old(State()), old(net[..len]), wild)
        && CStr(net[..], 0) == ReplyTo(old(State()), old(net[..len]), wild)
      ensures var n := |ReplyTo(old(State()), old(net[..Taken(len)]), wild)|;
        n < net.Length && net[n + 1..] == old(net[n + 1..])
    {
      ghost var line := net[..Taken(len)];
      var localBuf := new char[512];
      localBuf[511] := stale;
      assert '\0' !in line by {
        assert line == net[..len][..Taken(len)];
      }
      StrNCpy(localBuf, net, len);
      assert localBuf[..][0..0 + |line|] == line && localBuf[|line|] == '\0';
      CStrIs(localBuf[..], 0, line);
      var tz := new Tokenizer(localBuf, Taken(len));
      assert tz.Fields([], Split(line));
      var reply := Dispatch(tz, Split(line));
      ReplyIsText(old(State()), line);
      WriteReply(net, reply);
    }

    /** Replies contain no NUL and fit the reply buffer. */
    lemma ReplyIsText(s: Sys, line: string)
      requires '\0' !in line && Serviceable(s, RequestOf(line, wild))
      ensures '\0' !in ReplyTo(s, line, wild) && |ReplyTo(s, line, wild)| <= 511
    {
      SplitGivesWords(line);
      var q := Parse(Split(line), wild);
      match q
      case Empty =>
      case Usage(cmd) =>
      case Unknown(cmd) =>
        assert cmd in Split(line);
        ClipText("ERROR: Unknown command: ", cmd);
      case Do(rpc) =>
        hide Split, Parse;
        match rpc {
          case LoginRpc(r) => ClipText("LOGIN_RESULT: ", Itoa(LoginReply(s.auth, r)));
          case RegisterRpc(r) => ClipText("REGISTER_RESULT: ", Itoa(RegisterReply(s.auth)));
          case TxRpc(c) => ClipText("TX_RESULT: ", Itoa(Accounts.Reply(s.db, c)));
        }
    }
  }

  lemma ClipText(a: string, b: string)
    requires '\0' !in a && '\0' !in b
    ensures '\0' !in Clip(a + b)
  {
  }
}
