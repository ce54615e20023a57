/**
 * The signed-in user record as it is kept in storage: `JSON.stringify`
 * of the record the login endpoint returns, read back with `JSON.parse`.
 * Stringify follows JSON's string escaping; Parse reads the text Stringify
 * produces (including every escape JSON allows inside a string) and gives
 * None for anything else.
 */
module UserJson {
  import opened Common

  /** The `User` record: names, email, role and the first-login flag. */
  datatype User = User(firstName: string, lastName: string, email: string, role: string, isFirstLogin: bool)

  function HexChar(n: int): char
    requires 0 <= n < 16
  {
    "0123456789abcdef"[n]
  }

  /** The value of one hexadecimal digit, either case. */
  function HexDigitValue(c: char): Option<int> {
    if '0' <= c <= '9' then Some(c as int - '0' as int)
    else if 'a' <= c <= 'f' then Some(c as int - 'a' as int + 10)
    else if 'A' <= c <= 'F' then Some(c as int - 'A' as int + 10)
    else None
  }

  /** The value of the four hex digits of a `\uXXXX` escape. */
  function Hex4Value(h: string): Option<int>
    requires |h| == 4
  {
    match (HexDigitValue(h[0]), HexDigitValue(h[1]), HexDigitValue(h[2]), HexDigitValue(h[3]))
    case (Some(a), Some(b), Some(c), Some(d)) => Some(4096 * a + 256 * b + 16 * c + d)
    case _ => None
  }

  /** How JSON.stringify writes one character inside a string literal. */
  function EscapeChar(c: char): string {
    var n := c as int;
    if c == '"' then ['\\', '"']
    else if c == '\\' then ['\\', '\\']
    else if n == 0x08 then ['\\', 'b']
    else if n == 0x09 then ['\\', 't']
    else if n == 0x0A then ['\\', 'n']
    else if n == 0x0C then ['\\', 'f']
    else if n == 0x0D then ['\\', 'r']
    else if n < 0x20 then ['\\', 'u', '0', '0', HexChar(n / 16), HexChar(n % 16)]
    else [c]
  }

  function Escape(s: string): string {
    if s == [] then [] else EscapeChar(s[0]) + Escape(s[1..])
  }

  function Prepend(c: char, r: Option<(string, string)>): Option<(string, string)> {
    match r
    case Some((v, rest)) => Some(([c] + v, rest))
    case None => None
  }

  /** Reads the body of a JSON string literal (after its opening quote):
      the decoded text and what follows the closing quote. */
  function ReadString(t: string): Option<(string, string)>
    decreases |t|
  {
    if t == [] then None
    else if t[0] == '"' then Some(([], t[1..]))
    else if t[0] == '\\' then
      if |t| < 2 then None
      else if t[1] == '"' || t[1] == '\\' || t[1] == '/' then Prepend(t[1], ReadString(t[2..]))
      else if t[1] == 'b' then Prepend(0x08 as char, ReadString(t[2..]))
      else if t[1] == 't' then Prepend(0x09 as char, ReadString(t[2..]))
      else if t[1] == 'n' then Prepend(0x0A as char, ReadString(t[2..]))
      else if t[1] == 'f' then Prepend(0x0C as char, ReadString(t[2..]))
      else if t[1] == 'r' then Prepend(0x0D as char, ReadString(t[2..]))
      else if t[1] == 'u' && |t| >= 6 then
        match Hex4Value(t[2..6])
        case Some(v) =>
          if 0 <= v < 0xD800 || 0xE000 <= v < 0x11_0000 then Prepend(v as char, ReadString(t[6..]))
          else None
        case None => None
      else None
    else if (t[0] as int) < 0x20 then None
    else Prepend(t[0], ReadString(t[1..]))
  }

  lemma HexCharValue(n: int)
    requires 0 <= n < 16
    ensures HexDigitValue(HexChar(n)) == Some(n)
  {
  }

  /** A control character without a short escape is written as `\u00XY`
      and read back from its four hex digits. */
  lemma ReadUnicodeEscape(c: char, more: string)
    requires (c as int) < 0x20
    requires c as int != 0x08 && c as int != 0x09 && c as int != 0x0A && c as int != 0x0C && c as int != 0x0D
    ensures ReadString(EscapeChar(c) + more) == Prepend(c, ReadString(more))
  {
    var n := c as int;
    var t := EscapeChar(c) + more;
    assert EscapeChar(c) == ['\\', 'u', '0', '0', HexChar(n / 16), HexChar(n % 16)];
    HexCharValue(n / 16);
    HexCharValue(n % 16);
    assert t[2..6] == ['0', '0', HexChar(n / 16), HexChar(n % 16)];
    assert Hex4Value(t[2..6]) == Some(n);
    assert t[6..] == more;
    assert (n as char) == c;
  }

  /** A quote, a backslash or a control character with a short escape is
      written as a backslash and one letter, and read back from it. */
  lemma ReadShortEscape(c: char, more: string)
    requires |EscapeChar(c)| == 2
    ensures ReadString(EscapeChar(c) + more) == Prepend(c, ReadString(more))
  {
    var t := EscapeChar(c) + more;
    assert t[2..] == more;
  }

  /** Reading back one escaped character yields that character. */
  lemma ReadEscapedChar(c: char, more: string)
    ensures ReadString(EscapeChar(c) + more) == Prepend(c, ReadString(more))
  {
    var n := c as int;
    if n < 0x20 && n != 0x08 && n != 0x09 && n != 0x0A && n != 0x0C && n != 0x0D {
      ReadUnicodeEscape(c, more);
    } else if |EscapeChar(c)| == 2 {
      ReadShortEscape(c, more);
    } else {
      assert EscapeChar(c) == [c];
      assert (EscapeChar(c) + more)[1..] == more;
    }
  }

  /** Stringify then parse gives back the string: the escaped text,
      a closing quote and anything after it read as the original. */
  lemma {:induction false} ReadEscaped(s: string, rest: string)
    ensures ReadString(Escape(s) + ['"'] + rest) == Some((s, rest))
    decreases |s|
  {
    if s == [] {
      assert Escape(s) + ['"'] + rest == ['"'] + rest;
    } else {
      var more := Escape(s[1..]) + ['"'] + rest;
      assert Escape(s) + ['"'] + rest == EscapeChar(s[0]) + more;
      ReadEscapedChar(s[0], more);
      ReadEscaped(s[1..], rest);
      assert [s[0]] + s[1..] == s;
    }
  }

  /** The five field openers, in the order the record's keys are written. */
  const FirstNameOpen: string := "{\"firstName\":\""
  const LastNameOpen: string := ",\"lastName\":\""
  const EmailOpen: string := ",\"email\":\""
  const RoleOpen: string := ",\"role\":\""
  const FlagOpen: string := ",\"isFirstLogin\":"

  /** `lit`, then the string `s` as a JSON literal's body and its closing
      quote, then `rest`. */
  function Quoted(lit: string, s: string, rest: string): string {
    lit + Escape(s) + "\"" + rest
  }

  /** `JSON.stringify(user)` */
  function Stringify(u: User): string {
    Quoted(FirstNameOpen, u.firstName,
      Quoted(LastNameOpen, u.lastName,
        Quoted(EmailOpen, u.email,
          Quoted(RoleOpen, u.role,
            FlagOpen + (if u.isFirstLogin then "true" else "false") + "}"))))
  }

  /** The text after `lit`, when `t` starts with it. */
  function Expect(lit: string, t: string): Option<string> {
    if lit <= t then Some(t[|lit|..]) else None
  }

  /** `lit`, then a string literal's body: its text and what follows. */
  function Field(lit: string, t: string): Option<(string, string)> {
    match Expect(lit, t)
    case None => None
    case Some(r) => ReadString(r)
  }

  /** `JSON.parse` of a stored user record; None where JSON.parse would
      throw or the text is not a user record in Stringify's layout. */
  function Parse(t: string): Option<User> {
    match Field(FirstNameOpen, t)
    case None => None
    case Some((first, r1)) =>
      match Field(LastNameOpen, r1)
      case None => None
      case Some((last, r2)) =>
        match Field(EmailOpen, r2)
        case None => None
        case Some((email, r3)) =>
          match Field(RoleOpen, r3)
          case None => None
          case Some((role, r4)) =>
            if r4 == FlagOpen + "true}" then Some(User(first, last, email, role, true))
            else if r4 == FlagOpen + "false}" then Some(User(first, last, email, role, false))
            else None
  }

  lemma FieldRoundTrip(lit: string, s: string, rest: string)
    ensures Field(lit, Quoted(lit, s, rest)) == Some((s, rest))
  {
    var t := Quoted(lit, s, rest);
    assert t == lit + (Escape(s) + ['"'] + rest);
    assert lit <= t;
    assert t[|lit|..] == Escape(s) + ['"'] + rest;
    ReadEscaped(s, rest);
  }

  /** Whatever record was stored, reading it back gives the same record. */
  lemma ParseStringify(u: User)
    ensures Parse(Stringify(u)) == Some(u)
  {
    var r4 := FlagOpen + (if u.isFirstLogin then "true" else "false") + "}";
    var r3 := Quoted(RoleOpen, u.role, r4);
    var r2 := Quoted(EmailOpen, u.email, r3);
    var r1 := Quoted(LastNameOpen, u.lastName, r2);
    FieldRoundTrip(FirstNameOpen, u.firstName, r1);
    FieldRoundTrip(LastNameOpen, u.lastName, r2);
    FieldRoundTrip(EmailOpen, u.email, r3);
    FieldRoundTrip(RoleOpen, u.role, r4);
    if !u.isFirstLogin {
      assert r4[|FlagOpen|] == 'f' != 't' == (FlagOpen + "true}")[|FlagOpen|];
    }
  }

  /** Different records are stored as different texts. */
  lemma StringifyInjective(u: User, v: User)
    requires Stringify(u) == Stringify(v)
    ensures u == v
  {
    ParseStringify(u);
    ParseStringify(v);
  }
}
