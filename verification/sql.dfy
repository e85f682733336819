/**
  The SQL text the ledger builds with sprintf, and how SQLite reads it back.

  Every statement is a fixed head followed by fields: numbers printed by %d, and names put
  between quotes.  Reading is that of SQLite for text of these shapes: a string literal ends at a
  quote that is not doubled, and a doubled quote stands for one.
*/
module Sql {
  import opened Words
  import opened CStrings

  datatype Option<+T> = None | Some(value: T)

  /** The text that `char sql[512]` can hold. */
  type SqlBuffer = s: string | |s| < 512

  datatype Status = Approved | BlockedInvalidCapability

  /** The statement shapes of bank_execute_transaction. */
  datatype Stmt =
    | InsertOrIgnore(user: string)
    | Update(user: string, minus: bool, amount: int32)
    | Insert(src: string, dest: string, kind: string, amount: int32, status: Status)

  datatype Field = Name(s: string) | Number(n: int)

  /** A place for a field, and the fixed text after it. */
  datatype Hole = Hole(isName: bool, after: string)

  datatype Shape = Ignore | Minus | Plus | Row

  function Head(k: Shape): string {
    match k
    case Ignore => "INSERT OR IGNORE" + " INTO accounts (user, balance) VALUES ("
    case Minus => "UPDATE accounts SET balance = balance " + "- "
    case Plus => "UPDATE accounts SET balance = balance " + "+ "
    case Row => "INSERT INTO" + " transactions (src, dest, type, amount, status) VALUES ("
  }

  function Holes(k: Shape): seq<Hole> {
    match k
    case Ignore => [Hole(true, ", 0);")]
    case Minus => [Hole(false, " WHERE user = "), Hole(true, ";")]
    case Plus => [Hole(false, " WHERE user = "), Hole(true, ";")]
    case Row => [Hole(true, ", "), Hole(true, ", "), Hole(true, ", "), Hole(false, ", "), Hole(true, ");")]
  }

  function StatusName(s: Status): string {
    match s
    case Approved => "APPROVED"
    case BlockedInvalidCapability => "BLOCKED_INVALID_CAPABILITY"
  }

  function ShapeOf(s: Stmt): Shape {
    match s
    case InsertOrIgnore(_) => Ignore
    case Update(_, minus, _) => if minus then Minus else Plus
    case Insert(_, _, _, _, _) => Row
  }

  function Fields(s: Stmt): seq<Field> {
    match s
    case InsertOrIgnore(user) => [Name(user)]
    case Update(user, _, amount) => [Number(amount), Name(user)]
    case Insert(src, dest, kind, amount, status) =>
      [Name(src), Name(dest), Name(kind), Number(amount), Name(StatusName(status))]
  }

  /** No name of the statement contains a quote. */
  predicate Plain(s: Stmt) {
    forall f :: f in Fields(s) && f.Name? ==> '\'' !in f.s
  }

  lemma StatusesArePlain()
    ensures forall s: Status :: '\'' !in StatusName(s)
  {
  }

  // --- Writing ---------------------------------------------------------------------------------

  function WriteField(f: Field): string {
    match f
    case Name(s) => "'" + s + "'"
    case Number(n) => Itoa(n)
  }

  function Write(holes: seq<Hole>, fs: seq<Field>): string
    requires |holes| == |fs|
  {
    if fs == [] then "" else WriteField(fs[0]) + holes[0].after + Write(holes[1..], fs[1..])
  }

  predicate Fill(holes: seq<Hole>, fs: seq<Field>) {
    |holes| == |fs| && forall i :: 0 <= i < |fs| ==> holes[i].isName == fs[i].Name?
  }

  /** What sprintf writes for one statement. */
  function Render(s: Stmt): string {
    Head(ShapeOf(s)) + Write(Holes(ShapeOf(s)), Fields(s))
  }

  /** What it writes for several. */
  function Text(sql: seq<Stmt>): string {
    if sql == [] then "" else Render(sql[0]) + Text(sql[1..])
  }

  // The texts, as the format strings of bank_execute_transaction have them.

  lemma WriteOne(holes: seq<Hole>, fs: seq<Field>)
    requires |holes| == |fs| > 0
    ensures Write(holes, fs) == WriteField(fs[0]) + holes[0].after + Write(holes[1..], fs[1..])
    ensures |fs| == 1 ==> Write(holes, fs) == WriteField(fs[0]) + holes[0].after
  {
  }

  lemma InsertOrIgnoreText(user: string)
    ensures Render(InsertOrIgnore(user)) ==
      "INSERT OR IGNORE" + " INTO accounts (user, balance) VALUES (" + "'" + user + "'" + ", 0);"
  {
    var s := InsertOrIgnore(user);
    WriteOne(Holes(Ignore), Fields(s));
    hide Write;
    assert Write(Holes(Ignore), Fields(s)) == "'" + user + "'" + ", 0);";
    GlueFour(Head(Ignore), "'", user, "'", ", 0);");
  }

  lemma GlueFour(h: string, a: string, b: string, c: string, d: string)
    ensures h + (a + b + c + d) == h + a + b + c + d
  {
  }

  lemma UpdateText(user: string, minus: bool, amount: int32)
    ensures Render(Update(user, minus, amount)) ==
      "UPDATE accounts SET balance = balance " + (if minus then "- " else "+ ") + Itoa(amount)
      + " WHERE user = " + "'" + user + "'" + ";"
  {
    var s := Update(user, minus, amount);
    var k := ShapeOf(s);
    WriteOne(Holes(k), Fields(s));
    WriteOne(Holes(k)[1..], Fields(s)[1..]);
    hide Write, Itoa;
    assert Write(Holes(k)[1..], Fields(s)[1..]) == "'" + user + "'" + ";";
    assert Write(Holes(k), Fields(s)) == Itoa(amount) + " WHERE user = " + ("'" + user + "'" + ";");
    GlueFour(Itoa(amount) + " WHERE user = ", "'", user, "'", ";");
    GlueSix(Head(k), Itoa(amount), " WHERE user = ", "'", user, "'", ";");
  }

  lemma GlueSix(h: string, a: string, b: string, c: string, d: string, e: string, f: string)
    ensures h + (a + b + c + d + e + f) == h + a + b + c + d + e + f
  {
  }

  lemma InsertText(src: string, dest: string, kind: string, amount: int32, status: Status)
    ensures Render(Insert(src, dest, kind, amount, status)) ==
      "INSERT INTO" + " transactions (src, dest, type, amount, status) VALUES ("
      + ("'" + src + "'" + ", ") + ("'" + dest + "'" + ", ") + ("'" + kind + "'" + ", ")
      + (Itoa(amount) + ", ")
      + ("'" + (if status.Approved? then "APPROVED" else "BLOCKED_INVALID_CAPABILITY") + "'" + ");")
  {
    var s := Insert(src, dest, kind, amount, status);
    var holes, fs := Holes(Row), Fields(s);
    WriteOne(holes, fs);
    WriteOne(holes[1..], fs[1..]);
    WriteOne(holes[2..], fs[2..]);
    WriteOne(holes[3..], fs[3..]);
    WriteOne(holes[4..], fs[4..]);
    hide Write, Itoa, Head, StatusName;
    RevealRow(status);
    GlueFive(Head(Row), "'" + src + "'" + ", ", "'" + dest + "'" + ", ", "'" + kind + "'" + ", ", Itoa(amount) + ", ",
          "'" + StatusName(status) + "'" + ");");
  }

  lemma RevealRow(status: Status)
    ensures Head(Row) == "INSERT INTO" + " transactions (src, dest, type, amount, status) VALUES ("
    ensures StatusName(status) == if status.Approved? then "APPROVED" else "BLOCKED_INVALID_CAPABILITY"
  {
  }

  lemma GlueFive(h: string, a: string, b: string, c: string, d: string, e: string)
    ensures h + (a + (b + (c + (d + e)))) == h + a + b + c + d + e
  {
  }

  // --- Reading ---------------------------------------------------------------------------------

  /** A string literal, after its opening quote. */
  function ReadBody(t: string): (r: Option<(string, string)>)
    ensures r.Some? ==> |r.value.1| < |t|
  {
    if t == "" then None
    else if t[0] != '\'' then
      match ReadBody(t[1..])
      case None => None
      case Some((v, rest)) => Some(([t[0]] + v, rest))
    else if |t| > 1 && t[1] == '\'' then
      match ReadBody(t[2..])
      case None => None
      case Some((v, rest)) => Some((['\''] + v, rest))
    else Some(("", t[1..]))
  }

  function ReadUnsigned(t: string): (r: Option<(int, string)>)
    ensures r.Some? ==> |r.value.1| < |t|
  {
    var digits := Leading(t);
    if digits == "" then None else Some((Value(digits), t[|digits|..]))
  }

  function ReadNumber(t: string): (r: Option<(int, string)>)
    ensures r.Some? ==> |r.value.1| < |t|
  {
    if t != "" && t[0] == '-' then
      match ReadUnsigned(t[1..])
      case None => None
      case Some((n, rest)) => Some((0 - n, rest))
    else ReadUnsigned(t)
  }

  function ReadField(isName: bool, t: string): (r: Option<(Field, string)>)
    ensures r.Some? ==> |r.value.1| < |t| && r.value.0.Name? == isName
  {
    if isName then
      if t == "" || t[0] != '\'' then None
      else
        match ReadBody(t[1..])
        case None => None
        case Some((v, rest)) => Some((Name(v), rest))
    else
      match ReadNumber(t)
      case None => None
      case Some((n, rest)) => Some((Number(n), rest))
  }

  predicate StartsWith(t: string, prefix: string) {
    |prefix| <= |t| && t[..|prefix|] == prefix
  }

  function Read(holes: seq<Hole>, t: string): (r: Option<(seq<Field>, string)>)
    ensures r.Some? ==> |r.value.1| <= |t| && Fill(holes, r.value.0)
  {
    if holes == [] then Some(([], t))
    else
      match ReadField(holes[0].isName, t)
      case None => None
      case Some((f, rest)) =>
        if !StartsWith(rest, holes[0].after) then None
        else
          match Read(holes[1..], rest[|holes[0].after|..])
          case None => None
          case Some((fs, end)) => Some(([f] + fs, end))
  }

  function ShapeAt(t: string): Option<Shape> {
    if StartsWith(t, Head(Ignore)) then Some(Ignore)
    else if StartsWith(t, Head(Minus)) then Some(Minus)
    else if StartsWith(t, Head(Plus)) then Some(Plus)
    else if StartsWith(t, Head(Row)) then Some(Row)
    else None
  }

  /** The statement that has these fields, if there is one. */
  function Build(k: Shape, fs: seq<Field>): Option<Stmt>
    requires Fill(Holes(k), fs)
  {
    match k
    case Ignore => Some(InsertOrIgnore(fs[0].s))
    case Minus => if InRange(fs[0].n) then Some(Update(fs[1].s, true, fs[0].n)) else None
    case Plus => if InRange(fs[0].n) then Some(Update(fs[1].s, false, fs[0].n)) else None
    case Row =>
      if !InRange(fs[3].n) then None
      else if fs[4].s == StatusName(Approved) then
        Some(Insert(fs[0].s, fs[1].s, fs[2].s, fs[3].n, Approved))
      else if fs[4].s == StatusName(BlockedInvalidCapability) then
        Some(Insert(fs[0].s, fs[1].s, fs[2].s, fs[3].n, BlockedInvalidCapability))
      else None
  }

  /** The first statement of a text, and what follows it. */
  function ReadStmt(t: string): (r: Option<(Stmt, string)>)
    ensures r.Some? ==> |r.value.1| < |t|
  {
    match ShapeAt(t)
    case None => None
    case Some(k) =>
      match Read(Holes(k), t[|Head(k)|..])
      case None => None
      case Some((fs, rest)) =>
        match Build(k, fs)
        case None => None
        case Some(s) => Some((s, rest))
  }

  /** All the statements of a text. */
  function ReadAll(t: string): Option<seq<Stmt>>
    decreases |t|
  {
    if t == "" then Some([])
    else
      match ReadStmt(t)
      case None => None
      case Some((s, rest)) =>
        match ReadAll(rest)
        case None => None
        case Some(sql) => Some([s] + sql)
  }

  // --- Reading undoes writing ------------------------------------------------------------------

  lemma {:induction false} BodyReads(s: string, rest: string)
    requires '\'' !in s && (rest != "" ==> rest[0] != '\'')
    ensures ReadBody(s + ("'" + rest)) == Some((s, rest))
  {
    var t := s + ("'" + rest);
    if s == "" {
      assert t == "'" + rest && t[1..] == rest;
    } else {
      assert t[0] == s[0] && s[0] in s && t[1..] == s[1..] + ("'" + rest);
      BodyReads(s[1..], rest);
      assert [s[0]] + s[1..] == s;
    }
  }

  lemma NumeralReads(d: string, rest: string)
    requires AllDigits(d) && d != "" && (rest != "" ==> !IsDigit(rest[0]))
    ensures ReadUnsigned(d + rest) == Some((Value(d), rest))
    ensures (d + rest)[0] != '-'
  {
    LeadingStops(d, rest);
    assert d[0] in d;
    hide Value, Leading, AllDigits;
    assert (d + rest)[0] == d[0] && (d + rest)[|d|..] == rest;
  }

  lemma NumberReads(n: int, rest: string)
    requires rest != "" ==> !IsDigit(rest[0])
    ensures ReadNumber(Itoa(n) + rest) == Some((n, rest))
  {
    hide Digits, ReadUnsigned, Value, AllDigits;
    var d := Digits(if n < 0 then -n else n);
    NumeralReads(d, rest);
    if n < 0 {
      assert Itoa(n) + rest == "-" + (d + rest);
      assert ("-" + (d + rest))[1..] == d + rest;
    }
  }

  /** The fixed text after a field cannot be taken for more of it. */
  predicate Delimits(after: string) {
    after != "" && after[0] != '\'' && !IsDigit(after[0])
  }

  lemma FieldReads(f: Field, rest: string)
    requires f.Name? ==> '\'' !in f.s
    requires rest != "" && rest[0] != '\'' && !IsDigit(rest[0])
    ensures ReadField(f.Name?, WriteField(f) + rest) == Some((f, rest))
  {
    match f
    case Name(s) =>
      var t := WriteField(f) + rest;
      assert t[0] == '\'' && t[1..] == s + ("'" + rest);
      BodyReads(s, rest);
    case Number(n) => NumberReads(n, rest);
  }

  lemma {:induction false} FieldsRead(holes: seq<Hole>, fs: seq<Field>, rest: string)
    requires Fill(holes, fs) && forall h :: h in holes ==> Delimits(h.after)
    requires forall f :: f in fs && f.Name? ==> '\'' !in f.s
    ensures Read(holes, Write(holes, fs) + rest) == Some((fs, rest))
  {
    hide ReadField, WriteField;
    if fs == [] {
      assert "" + rest == rest;
    } else {
      var after, tail := holes[0].after, Write(holes[1..], fs[1..]) + rest;
      assert fs[0] in fs && holes[0] in holes;
      var t := after + tail;
      assert Write(holes, fs) + rest == WriteField(fs[0]) + t;
      FieldReads(fs[0], t);
      assert t[..|after|] == after && t[|after|..] == tail;
      FieldsRead(holes[1..], fs[1..], rest);
      assert [fs[0]] + fs[1..] == fs;
    }
  }

  /** Positions 0, 7 and 38 tell the heads apart. */
  lemma HeadsDiffer()
    ensures forall k: Shape :: |Head(k)| >= 40
    ensures Head(Ignore)[0] == Head(Row)[0] == 'I' && Head(Minus)[0] == Head(Plus)[0] == 'U'
    ensures Head(Ignore)[7] == 'O' && Head(Row)[7] == 'I'
    ensures Head(Minus)[38] == '-' && Head(Plus)[38] == '+'
  {
    assert Head(Ignore)[7] == "INSERT OR IGNORE"[7] && Head(Row)[7] == "INSERT INTO"[7];
    assert Head(Minus)[38] == "- "[0] && Head(Plus)[38] == "+ "[0];
    assert Head(Minus)[0] == "UPDATE accounts SET balance = balance "[0] == Head(Plus)[0];
    assert Head(Ignore)[0] == "INSERT OR IGNORE"[0] && Head(Row)[0] == "INSERT INTO"[0];
  }

  lemma HeadIsFound(k: Shape, rest: string)
    ensures ShapeAt(Head(k) + rest) == Some(k)
    ensures (Head(k) + rest)[|Head(k)|..] == rest
  {
    HeadsDiffer();
    hide Head;
    var t := Head(k) + rest;
    assert t[..|Head(k)|] == Head(k);
    assert t[0] == Head(k)[0] && t[7] == Head(k)[7] && t[38] == Head(k)[38];
    forall j: Shape | StartsWith(t, Head(j))
      ensures Head(j)[0] == Head(k)[0] && Head(j)[7] == Head(k)[7] && Head(j)[38] == Head(k)[38]
    {
      assert t[..|Head(j)|][0] == t[0] && t[..|Head(j)|][7] == t[7] && t[..|Head(j)|][38] == t[38];
    }
  }

  lemma HolesDelimit(k: Shape)
    ensures forall h :: h in Holes(k) ==> Delimits(h.after)
  {
  }

  lemma BuildsBack(s: Stmt)
    ensures Fill(Holes(ShapeOf(s)), Fields(s))
    ensures Build(ShapeOf(s), Fields(s)) == Some(s)
  {
  }

  lemma StmtReads(s: Stmt, rest: string)
    requires Plain(s)
    ensures ReadStmt(Render(s) + rest) == Some((s, rest))
  {
    var k := ShapeOf(s);
    BuildsBack(s);
    HolesDelimit(k);
    assert |Holes(k)| == |Fields(s)|;
    hide Head, Holes, Write, Read, ShapeAt, Build, Fill, Delimits;
    var body := Write(Holes(k), Fields(s));
    assert Render(s) + rest == Head(k) + (body + rest);
    HeadIsFound(k, body + rest);
    FieldsRead(Holes(k), Fields(s), rest);
  }

  // --- What is read back is no longer than what was there --------------------------------------

  function Quotes(s: string): nat {
    if s == "" then 0 else (if s[0] == '\'' then 1 else 0) + Quotes(s[1..])
  }

  lemma {:induction false} NoQuotes(s: string)
    ensures Quotes(s) == 0 <==> '\'' !in s
  {
    if s != "" {
      NoQuotes(s[1..]);
      assert s == [s[0]] + s[1..];
    }
  }

  /** Each quote of a value took two characters of its literal. */
  lemma {:induction false} BodyLength(t: string)
    requires ReadBody(t).Some?
    ensures var (v, rest) := ReadBody(t).value; |t| == |v| + Quotes(v) + 1 + |rest|
  {
    if t[0] != '\'' {
      BodyLength(t[1..]);
      var (v, rest) := ReadBody(t[1..]).value;
      assert ([t[0]] + v)[1..] == v;
    } else if |t| > 1 && t[1] == '\'' {
      BodyLength(t[2..]);
      var (v, rest) := ReadBody(t[2..]).value;
      assert (['\''] + v)[1..] == v;
    }
  }

  /** A name between quotes is read back as that name if and only if it contains no quote. */
  lemma LiteralReadsBackExactlyWhenPlain(s: string, rest: string)
    requires rest != "" ==> rest[0] != '\''
    ensures ReadField(true, "'" + (s + ("'" + rest))) == Some((Name(s), rest)) <==> '\'' !in s
  {
    var body := s + ("'" + rest);
    assert ("'" + body)[1..] == body;
    if '\'' !in s {
      BodyReads(s, rest);
    } else if ReadBody(body) == Some((s, rest)) {
      BodyLength(body);
      NoQuotes(s);
      assert false;
    }
  }

  /** No numeral is shorter than the printed one. */
  lemma {:induction false} DigitsAreShortest(s: string)
    requires AllDigits(s) && s != ""
    ensures |Digits(Value(s))| <= |s|
  {
    var front, last := s[..|s| - 1], s[|s| - 1];
    assert last in s;
    if front != "" {
      DigitsAreShortest(front);
      assert Value(s) / 10 == Value(front);
    }
  }

  lemma UnsignedLength(t: string)
    requires ReadUnsigned(t).Some?
    ensures var (n, rest) := ReadUnsigned(t).value; n >= 0 && |t| >= |Digits(n)| + |rest|
  {
    hide Leading, Value, Digits;
    DigitsAreShortest(Leading(t));
  }

  lemma NumberLength(t: string)
    requires ReadNumber(t).Some?
    ensures var (n, rest) := ReadNumber(t).value; |t| >= |Itoa(n)| + |rest|
  {
    hide ReadUnsigned, Digits;
    UnsignedLength(if t != "" && t[0] == '-' then t[1..] else t);
  }

  function QuotesIn(fs: seq<Field>): nat {
    if fs == [] then 0 else (if fs[0].Name? then Quotes(fs[0].s) else 0) + QuotesIn(fs[1..])
  }

  lemma {:induction false} NoQuotesIn(fs: seq<Field>)
    ensures QuotesIn(fs) == 0 <==> forall f :: f in fs && f.Name? ==> '\'' !in f.s
  {
    if fs != [] {
      NoQuotesIn(fs[1..]);
      assert fs == [fs[0]] + fs[1..];
      if fs[0].Name? {
        NoQuotes(fs[0].s);
      }
    }
  }

  lemma FieldLength(isName: bool, t: string)
    requires ReadField(isName, t).Some?
    ensures var (f, rest) := ReadField(isName, t).value;
      |t| >= |WriteField(f)| + (if f.Name? then Quotes(f.s) else 0) + |rest|
  {
    if isName {
      BodyLength(t[1..]);
    } else {
      NumberLength(t);
    }
  }

  lemma {:induction false} FieldsLength(holes: seq<Hole>, t: string)
    requires Read(holes, t).Some?
    ensures var (fs, rest) := Read(holes, t).value;
      Fill(holes, fs) && |t| >= |Write(holes, fs)| + QuotesIn(fs) + |rest|
  {
    hide ReadField, WriteField, Quotes;
    if holes != [] {
      FieldLength(holes[0].isName, t);
      var (f, rest) := ReadField(holes[0].isName, t).value;
      var tail := rest[|holes[0].after|..];
      FieldsLength(holes[1..], tail);
      var (fs, end) := Read(holes[1..], tail).value;
      assert ([f] + fs)[1..] == fs;
    }
  }

  lemma BuildIsFaithful(k: Shape, fs: seq<Field>)
    requires Fill(Holes(k), fs) && Build(k, fs).Some?
    ensures ShapeOf(Build(k, fs).value) == k && Fields(Build(k, fs).value) == fs
  {
  }

  lemma StmtLength(t: string)
    requires ReadStmt(t).Some?
    ensures var (s, rest) := ReadStmt(t).value; |t| >= |Render(s)| + QuotesIn(Fields(s)) + |rest|
  {
    hide Head, Holes, Write, Read, Build, Fill, QuotesIn;
    var k := ShapeAt(t).value;
    assert StartsWith(t, Head(k));
    hide StartsWith;
    var body := t[|Head(k)|..];
    FieldsLength(Holes(k), body);
    var (fs, rest) := Read(Holes(k), body).value;
    BuildIsFaithful(k, fs);
  }

  function QuotesOf(sql: seq<Stmt>): nat {
    if sql == [] then 0 else QuotesIn(Fields(sql[0])) + QuotesOf(sql[1..])
  }

  lemma {:induction false} NoQuotesOf(sql: seq<Stmt>)
    ensures QuotesOf(sql) == 0 <==> forall s :: s in sql ==> Plain(s)
  {
    if sql != [] {
      NoQuotesOf(sql[1..]);
      NoQuotesIn(Fields(sql[0]));
      assert Plain(sql[0]) <==> QuotesIn(Fields(sql[0])) == 0;
      hide Plain, QuotesIn;
      assert forall s :: s in sql <==> s == sql[0] || s in sql[1..];
    }
  }

  lemma {:induction false} AllLength(t: string)
    requires ReadAll(t).Some?
    ensures |t| >= |Text(ReadAll(t).value)| + QuotesOf(ReadAll(t).value)
    decreases |t|
  {
    hide ReadStmt, Render;
    if t != "" {
      StmtLength(t);
      var (s, rest) := ReadStmt(t).value;
      AllLength(rest);
      var sql := ReadAll(rest).value;
      assert ([s] + sql)[1..] == sql;
    }
  }

  lemma {:induction false} PlainReadsBack(sql: seq<Stmt>)
    requires forall s :: s in sql ==> Plain(s)
    ensures ReadAll(Text(sql)) == Some(sql)
  {
    hide ReadStmt, Render, Plain;
    if sql != [] {
      assert sql[0] in sql;
      StmtReads(sql[0], Text(sql[1..]));
      PlainReadsBack(sql[1..]);
      assert [sql[0]] + sql[1..] == sql;
    }
  }

  /**
    The text of a batch is read back as that batch if and only if no name in it contains a quote.
  */
  lemma TextReadsBackExactlyWhenPlain(sql: seq<Stmt>)
    ensures ReadAll(Text(sql)) == Some(sql) <==> forall s :: s in sql ==> Plain(s)
  {
    hide ReadAll, Text, Plain;
    if forall s :: s in sql ==> Plain(s) {
      PlainReadsBack(sql);
    }
    if ReadAll(Text(sql)) == Some(sql) {
      AllLength(Text(sql));
      NoQuotesOf(sql);
    }
  }

  /** A name with an apostrophe is not read back: here in the accounts batch of any call that names O'Neil. */
  lemma ApostropheIsMisread(other: string)
    ensures !Plain(InsertOrIgnore("O'Neil"))
    ensures var sql := [InsertOrIgnore("O'Neil"), InsertOrIgnore(other)]; ReadAll(Text(sql)) != Some(sql)
  {
    var s := InsertOrIgnore("O'Neil");
    assert "O'Neil"[1] == '\'';
    assert Fields(s)[0] == Name("O'Neil") && !Plain(s);
    hide ReadAll, Text, Plain;
    var sql := [s, InsertOrIgnore(other)];
    assert sql[0] == s && s in sql;
    TextReadsBackExactlyWhenPlain(sql);
  }

  // --- How long a text gets --------------------------------------------------------------------

  lemma {:induction false} DigitsLength(n: nat, k: nat)
    requires k > 0 && n < Pow10(k)
    ensures |Digits(n)| <= k
  {
    if n >= 10 {
      DigitsLength(n / 10, k - 1);
    }
  }

  lemma AmountLength(n: int)
    requires InRange(n)
    ensures |Itoa(n)| <= 11
  {
    assert Pow10(10) == 10_000_000_000;
    DigitsLength(if n < 0 then -n else n, 10);
  }

  /** The characters of the names a statement carries. */
  function NamesIn(s: Stmt): nat {
    match s
    case InsertOrIgnore(user) => |user|
    case Update(user, _, _) => |user|
    case Insert(src, dest, kind, _, _) => |src| + |dest| + |kind|
  }

  lemma HeadLengths()
    ensures |Head(Ignore)| == 55 && |Head(Minus)| == |Head(Plus)| == 40 && |Head(Row)| == 67
  {
  }

  lemma RenderLength(s: Stmt)
    ensures s.InsertOrIgnore? ==> |Render(s)| == 62 + NamesIn(s)
    ensures s.Update? ==> |Render(s)| <= 68 + NamesIn(s)
    ensures s.Insert? ==> |Render(s)| <= 122 + NamesIn(s)
  {
    HeadLengths();
    hide Head, Write, Itoa;
    var fs, holes := Fields(s), Holes(ShapeOf(s));
    match s
    case InsertOrIgnore(_) => WriteOne(holes, fs);
    case Update(_, _, amount) =>
      AmountLength(amount);
      WriteOne(holes, fs);
      WriteOne(holes[1..], fs[1..]);
    case Insert(_, _, _, amount, _) =>
      AmountLength(amount);
      WriteOne(holes, fs);
      WriteOne(holes[1..], fs[1..]);
      WriteOne(holes[2..], fs[2..]);
      WriteOne(holes[3..], fs[3..]);
      WriteOne(holes[4..], fs[4..]);
  }
}
