/** Strings in JSON texts (section 7 of RFC 8259), as the executor's json.Unmarshal reads them. */
module JsonText {
  import opened Results

  predicate IsControl(c: char) {
    c < ' '
  }

  /** Nothing that JSON writes differently between quotes. */
  predicate PlainText(s: string) {
    forall i :: 0 <= i < |s| ==> s[i] != '"' && s[i] != '\\' && !IsControl(s[i])
  }

  function HexDigit(c: char): Option<nat> {
    if '0' <= c <= '9' then Some(c as nat - '0' as nat)
    else if 'a' <= c <= 'f' then Some(10 + c as nat - 'a' as nat)
    else if 'A' <= c <= 'F' then Some(10 + c as nat - 'A' as nat)
    else None
  }

  /** The character of four hexadecimal digits; half of a surrogate pair is replaced. */
  function CodeUnit(a: char, b: char, c: char, d: char): Option<char> {
    if HexDigit(a).None? || HexDigit(b).None? || HexDigit(c).None? || HexDigit(d).None? then None
    else
      var n := 0x1000 * HexDigit(a).value + 0x100 * HexDigit(b).value + 0x10 * HexDigit(c).value + HexDigit(d).value;
      if n < 0xD800 || 0xE000 <= n < 0x1_0000 then Some(n as char) else Some('\U{FFFD}')
  }

  /** The character that a backslash and this one stand for. */
  function Unescaped(c: char): Option<char> {
    match c
    case '"' => Some('"')
    case '\\' => Some('\\')
    case '/' => Some('/')
    case 'b' => Some('\U{0008}')
    case 'f' => Some('\U{000C}')
    case 'n' => Some('\n')
    case 'r' => Some('\r')
    case 't' => Some('\t')
    case _ => None
  }

  /** Reads a string after its opening quote: the value, and what follows the closing quote. */
  function ReadString(s: string): Option<(string, string)> {
    if s == "" || IsControl(s[0]) then None
    else if s[0] == '"' then Some(("", s[1..]))
    else if s[0] != '\\' then Prepended(s[0], ReadString(s[1..]))
    else if |s| >= 6 && s[1] == 'u' then
      match CodeUnit(s[2], s[3], s[4], s[5])
      case None => None
      case Some(c) => Prepended(c, ReadString(s[6..]))
    else if |s| >= 2 && Unescaped(s[1]).Some? then Prepended(Unescaped(s[1]).value, ReadString(s[2..]))
    else None
  }

  function Prepended(c: char, r: Option<(string, string)>): Option<(string, string)> {
    match r
    case None => None
    case Some((value, rest)) => Some(([c] + value, rest))
  }

  lemma {:induction false} PlainReadsBack(value: string, rest: string)
    requires PlainText(value)
    ensures ReadString(value + "\"" + rest) == Some((value, rest))
  {
    if value == "" {
      assert "" + "\"" + rest == "\"" + rest;
    } else {
      var s := value + "\"" + rest;
      assert s[1..] == value[1..] + "\"" + rest && s[0] == value[0];
      assert value == [value[0]] + value[1..];
      assert forall i :: 0 <= i < |value[1..]| ==> value[1..][i] == value[i + 1];
      PlainReadsBack(value[1..], rest);
    }
  }

  /** Reading never yields more characters than it consumes, and as many only without escapes. */
  lemma {:induction false} ReadStringShrinks(s: string)
    requires ReadString(s).Some?
    ensures var (value, rest) := ReadString(s).value;
            && |value| + |rest| < |s|
            && (|value| + |rest| + 1 == |s| ==> PlainText(value) && s == value + "\"" + rest)
  {
    var (value, rest) := ReadString(s).value;
    if s[0] == '"' {
      assert "" + "\"" + rest == s;
    } else if s[0] != '\\' {
      ReadStringShrinks(s[1..]);
      assert s == [s[0]] + s[1..] && [s[0]] + (value[1..] + "\"" + rest) == value + "\"" + rest;
    } else if |s| >= 6 && s[1] == 'u' {
      ReadStringShrinks(s[6..]);
    } else {
      ReadStringShrinks(s[2..]);
    }
  }

  /** A text between quotes reads back as itself exactly when it holds no quote, backslash or control
      character. */
  lemma QuotedReadsBackExactly(value: string, rest: string)
    ensures ReadString(value + "\"" + rest) == Some((value, rest)) <==> PlainText(value)
  {
    if PlainText(value) {
      PlainReadsBack(value, rest);
    }
    if ReadString(value + "\"" + rest) == Some((value, rest)) {
      ReadStringShrinks(value + "\"" + rest);
    }
  }
}
